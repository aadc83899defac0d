/** Why a block assembled from the pool connects (src/main.cpp). */
module MinedBlock {
  import opened Common
  import opened ScriptCode
  import opened NameScript
  import opened ChainTypes
  import opened NameRules
  import opened Connect
  import opened Undo
  import opened TestPool

  // ----- the currency part of connecting a block -----

  datatype Purse = Purse(txs: map<Hash, TxIndex>, fees: int)

  /** ConnectTx without its name hook. */
  function CurrencyTx(site: Site, p: Purse, tx: Tx, pos: DiskTxPos): Outcome<Purse> {
    if tx.IsCoinBase() then Ok(Purse(AddTxIndex(p.txs, tx, pos), p.fees))
    else
      var a :- SpendInputs(site, p.txs, tx, |tx.vin|);
      if !OutputsInRange(tx.vout) then Rejected
      else
        var fee := a.valueIn - SumOut(tx.vout);
        if fee < 0 || !MoneyRange(p.fees + fee) then Rejected
        else Ok(Purse(AddTxIndex(a.txs, tx, pos), p.fees + fee))
  }

  function CurrencyTxs(site: Site, txs: map<Hash, TxIndex>, i: nat): Outcome<Purse>
    requires site.Valid() && i <= |Tip(site.path).block.vtx|
  {
    if i == 0 then Ok(Purse(txs, 0))
    else
      var p :- CurrencyTxs(site, txs, i - 1);
      CurrencyTx(site, p, Tip(site.path).block.vtx[i - 1], TxPos(Tip(site.path), i - 1))
  }

  function PurseOf(c: Connected): Purse {
    Purse(c.s.txs, c.fees)
  }

  /** A transaction connects when its currency part does and the name hook lets it pass. */
  lemma ConnectTxSplits(site: Site, c: Connected, tx: Tx, pos: DiskTxPos)
    requires site.Valid()
    ensures var r, p := ConnectTx(site, c, tx, pos), CurrencyTx(site, PurseOf(c), tx, pos);
            && (r.Ok? ==> p == Ok(PurseOf(r.value)))
            && (p.Ok? && !tx.IsCoinBase() ==>
                  SpendInputs(site, c.s.txs, tx, |tx.vin|).Ok?
                  && (r.Ok? <==> NameDecision(site, c.s.names, tx, SpendInputs(site, c.s.txs, tx, |tx.vin|).value).Ok?))
            && (p.Ok? && tx.IsCoinBase() ==> r.Ok?)
  {
    hide SpendInputs, NameDecision, OutputsInRange, StoredValue, AppendEntry;
  }

  // ----- the assembled block on top of the chain -----

  /** The block in place: `site` is where it was assembled, `next` where it is connected. */
  ghost predicate Placed(site: Site, mem: Pool, txs: map<Hash, TxIndex>, next: Site) {
    && site.Valid() && next.Valid() && |next.path| == |site.path| + 1 && next.path[..|site.path|] == site.path
    && next.env.verify == site.env.verify
    && var b := Tip(next.path);
       && b.block.vtx != [] && b.block.vtx[0].IsCoinBase()
       && DistinctTxids(b.block.vtx) && FreshTxids(txs, b.block.vtx)
       && (forall j :: 1 <= j < |b.block.vtx| ==> !b.block.vtx[j].IsCoinBase() && FromPool(mem, b.block.vtx[j]))
       && (forall j :: 0 <= j < |b.block.vtx| ==> OnFile(next.env, TxPos(b, j), b.block.vtx[j]))
       && (forall h :: h in txs ==> OldEntry(site.env, next.env, b, txs[h].pos))
  }

  /** A position from before the block: outside of it, not the pool's, and still readable. */
  predicate OldEntry(env: Env, next: Env, b: StoredBlock, pos: DiskTxPos) {
    pos != POOL_POS && !InBlock(b, pos) && (pos in env.disk ==> OnFile(next, pos, env.disk[pos]))
  }

  /** The overlay entry `v` and the database entry `t` after the first `n` transactions of the
      block: the same spent bits, and positions that mean the same transaction. */
  ghost predicate EntryRefines(b: StoredBlock, n: nat, h: Hash, v: TxIndex, t: TxIndex)
    requires n <= |b.block.vtx|
  {
    && v.isSpent == t.isSpent
    && (if v.pos == POOL_POS then exists j :: 1 <= j < n && b.block.vtx[j].txid == h && t.pos == TxPos(b, j)
        else t.pos == v.pos)
  }

  /** The test pool over the old index refines the sequentially written index. */
  ghost predicate Refines(txs: map<Hash, TxIndex>, b: StoredBlock, n: nat, v: map<Hash, TxIndex>, t: map<Hash, TxIndex>)
    requires 0 < n <= |b.block.vtx|
  {
    && t.Keys == v.Keys + {b.block.vtx[0].txid} && b.block.vtx[0].txid !in v
    && (forall h :: h in v ==> EntryRefines(b, n, h, v[h], t[h]))
    && (forall h :: h in v && v[h].pos != POOL_POS ==> h in txs && v[h].pos == txs[h].pos)
  }

  lemma {:induction false} DepthShift(path: Chain, b: StoredBlock, pos: DiskTxPos, maxDepth: int, d: nat)
    requires !InBlock(b, pos)
    ensures DepthFrom(path + [b], pos, maxDepth, d + 1)
              == var r := DepthFrom(path, pos, maxDepth - 1, d); if r < 0 then -1 else r + 1
    decreases |path| - d
  {
    var longer := path + [b];
    if d < |path| && d < maxDepth - 1 {
      assert longer[|longer| - 1 - (d + 1)] == path[|path| - 1 - d];
      DepthShift(path, b, pos, maxDepth, d + 1);
    }
  }

  lemma {:induction false} DepthCut(path: Chain, pos: DiskTxPos, m: int, n: int, d: nat)
    requires m <= n
    ensures var r := DepthFrom(path, pos, n, d); DepthFrom(path, pos, m, d) == if 0 <= r < m then r else -1
    ensures DepthFrom(path, pos, n, d) < 0 || d <= DepthFrom(path, pos, n, d)
    decreases |path| - d
  {
    if d < |path| && d < m {
      DepthCut(path, pos, m, n, d + 1);
    } else if d < |path| && d < n {
      DepthCut(path, pos, m, n, d + 1);
    }
  }

  /** One height later every older transaction is one deeper. */
  lemma OneDeeper(path: Chain, b: StoredBlock, pos: DiskTxPos, maxDepth: int)
    requires !InBlock(b, pos)
    ensures var r := RelativeDepth(path, pos, maxDepth);
            RelativeDepth(path + [b], pos, maxDepth) == if 0 <= r < maxDepth - 1 then r + 1 else -1
  {
    DepthShift(path, b, pos, maxDepth, 0);
    DepthCut(path, pos, maxDepth - 1, maxDepth, 0);
    var longer := path + [b];
    assert longer[|longer| - 1] == b;
  }

  /** The transaction an input spends from is found at its position, and if it is a coinbase it
      is still mature. */
  lemma PreviousFound(site: Site, mem: Pool, txs: map<Hash, TxIndex>, next: Site, n: nat, v: TxIndex, t: TxIndex,
                      h: Hash, prev: Tx)
    requires Placed(site, mem, txs, next) && 0 < n <= |Tip(next.path).block.vtx|
             && EntryRefines(Tip(next.path), n, h, v, t)
    requires v.pos != POOL_POS ==> h in txs && v.pos == txs[h].pos
    requires if v.pos == POOL_POS then h in mem.txs && prev == mem.txs[h] else OnFile(site.env, v.pos, prev)
    requires prev.IsCoinBase() ==> RelativeDepth(site.path, v.pos, COINBASE_MATURITY) < 0
    ensures OnFile(next.env, t.pos, prev)
    ensures prev.IsCoinBase() ==> RelativeDepth(next.path, t.pos, COINBASE_MATURITY) < 0
  {
    hide RelativeDepth;
    var b := Tip(next.path);
    if v.pos == POOL_POS {
      var j :| 1 <= j < n && b.block.vtx[j].txid == h && t.pos == TxPos(b, j);
      assert FromPool(mem, b.block.vtx[j]) && OnFile(next.env, TxPos(b, j), b.block.vtx[j]);
    } else {
      assert OldEntry(site.env, next.env, b, v.pos);
      OneDeeper(site.path, b, v.pos, COINBASE_MATURITY);
      assert next.path == site.path + [b];
    }
  }

  /** An input that connects to the test pool connects to the database. */
  lemma InputConnects(site: Site, mem: Pool, txs: map<Hash, TxIndex>, next: Site, n: nat, tx: Tx, i: nat,
                      a: Inputs, t: map<Hash, TxIndex>, prevPos: seq<DiskTxPos>)
    requires Placed(site, mem, txs, next) && 0 < n <= |Tip(next.path).block.vtx| && i < |tx.vin|
    requires Refines(txs, Tip(next.path), n, Overlay(txs, a.txs), t)
    requires MinerInput(site, mem, txs, tx, i, a).Ok?
    ensures var r, q :=
              MinerInput(site, mem, txs, tx, i, a).value,
              SpendInput(next, tx, i, Inputs(t, a.valueIn, a.scripts, prevPos));
            && q.Ok? && q.value.valueIn == r.valueIn && q.value.scripts == r.scripts
            && Refines(txs, Tip(next.path), n, Overlay(txs, r.txs), q.value.txs)
            && |r.prevPos| == |a.prevPos| + 1 && |q.value.prevPos| == |prevPos| + 1
            && r.prevPos[..|a.prevPos|] == a.prevPos && q.value.prevPos[..|prevPos|] == prevPos
            && SameSpot(Tip(next.path), r.prevPos[|a.prevPos|], q.value.prevPos[|prevPos|])
  {
    hide RelativeDepth, EntryRefines, Placed, Refines, Overlay, SetSpent;
    SameVerify(site, mem, txs, next);
    var o := tx.vin[i];
    var b := Tip(next.path);
    var v := Overlay(txs, a.txs);
    OverlayEntry(txs, a.txs, o);
    var index := v[o.hash];
    EntryKept(txs, b, n, v, t, o.hash);
    var prev := if index.pos == POOL_POS then mem.txs[o.hash] else site.env.disk[index.pos];
    PreviousFound(site, mem, txs, next, n, index, t[o.hash], o.hash, prev);
    EntrySpent(txs, b, n, v, t, o);
    OldPlace(site, mem, txs, next, n, index, t[o.hash], o.hash);
  }

  /** A position on the old chain stays the same, outside of the block. */
  predicate SameSpot(b: StoredBlock, before: DiskTxPos, now: DiskTxPos) {
    before != POOL_POS ==> now == before && !InBlock(b, before)
  }

  lemma OldPlace(site: Site, mem: Pool, txs: map<Hash, TxIndex>, next: Site, n: nat, v: TxIndex, t: TxIndex, h: Hash)
    requires Placed(site, mem, txs, next) && 0 < n <= |Tip(next.path).block.vtx|
             && EntryRefines(Tip(next.path), n, h, v, t)
    requires v.pos != POOL_POS ==> h in txs && v.pos == txs[h].pos
    ensures SameSpot(Tip(next.path), v.pos, t.pos)
  {
    if v.pos != POOL_POS {
      assert OldEntry(site.env, next.env, Tip(next.path), txs[h].pos);
    }
  }

  lemma EntryKept(txs: map<Hash, TxIndex>, b: StoredBlock, n: nat, v: map<Hash, TxIndex>, t: map<Hash, TxIndex>,
                  h: Hash)
    requires 0 < n <= |b.block.vtx| && Refines(txs, b, n, v, t) && h in v
    ensures h in t && v[h].isSpent == t[h].isSpent && EntryRefines(b, n, h, v[h], t[h])
    ensures v[h].pos != POOL_POS ==> h in txs && v[h].pos == txs[h].pos
  {
    assert EntryRefines(b, n, h, v[h], t[h]);
  }

  lemma SameVerify(site: Site, mem: Pool, txs: map<Hash, TxIndex>, next: Site)
    requires Placed(site, mem, txs, next)
    ensures next.env.verify == site.env.verify && next.path != []
  {
  }

  lemma EntrySpent(txs: map<Hash, TxIndex>, b: StoredBlock, n: nat, v: map<Hash, TxIndex>, t: map<Hash, TxIndex>,
                   o: OutPoint)
    requires 0 < n <= |b.block.vtx| && Refines(txs, b, n, v, t) && HasOutput(v, o)
    ensures HasOutput(t, o) && Refines(txs, b, n, SetSpent(v, o, true), SetSpent(t, o, true))
  {
    assert EntryRefines(b, n, o.hash, v[o.hash], t[o.hash]);
    var v1, t1 := SetSpent(v, o, true), SetSpent(t, o, true);
    forall h | h in v1 ensures EntryRefines(b, n, h, v1[h], t1[h]) {
      assert EntryRefines(b, n, h, v[h], t[h]);
    }
  }

  lemma {:induction false} InputsConnect(site: Site, mem: Pool, txs: map<Hash, TxIndex>, next: Site, n: nat,
                                         testPool: map<Hash, TxIndex>, tx: Tx, i: nat, t: map<Hash, TxIndex>)
    requires Placed(site, mem, txs, next) && 0 < n <= |Tip(next.path).block.vtx| && i <= |tx.vin|
    requires Refines(txs, Tip(next.path), n, Overlay(txs, testPool), t)
    requires MinerInputs(site, mem, txs, testPool, tx, i).Ok?
    ensures var r, q := MinerInputs(site, mem, txs, testPool, tx, i).value, SpendInputs(next, t, tx, i);
            && q.Ok? && q.value.valueIn == r.valueIn && q.value.scripts == r.scripts
            && Refines(txs, Tip(next.path), n, Overlay(txs, r.txs), q.value.txs)
            && (forall j :: 0 <= j < i ==> SameSpot(Tip(next.path), r.prevPos[j], q.value.prevPos[j]))
    decreases i
  {
    hide Placed, Refines, Overlay, MinerInput, SpendInput, SameSpot;
    if i > 0 {
      InputsConnect(site, mem, txs, next, n, testPool, tx, i - 1, t);
      var a, q := MinerInputs(site, mem, txs, testPool, tx, i - 1).value, SpendInputs(next, t, tx, i - 1).value;
      InputConnects(site, mem, txs, next, n, tx, i - 1, a, q.txs, q.prevPos);
      SameVerify(site, mem, txs, next);
      var r1, q1 := MinerInputs(site, mem, txs, testPool, tx, i).value, SpendInputs(next, t, tx, i).value;
      forall j | 0 <= j < i ensures SameSpot(Tip(next.path), r1.prevPos[j], q1.prevPos[j]) {
        if j < i - 1 {
          assert r1.prevPos[j] == r1.prevPos[..i - 1][j] && q1.prevPos[j] == q1.prevPos[..i - 1][j];
        }
      }
    }
  }

  /** A transaction that the test pool took enters the database with the same fee. */
  lemma TakenConnects(site: Site, mem: Pool, s: Indexes, next: Site, n: nat, c: Assembly, d: Assembly,
                      t: map<Hash, TxIndex>)
    requires Placed(site, mem, s.txs, next) && 0 < n < |Tip(next.path).block.vtx|
    requires Refines(s.txs, Tip(next.path), n, Overlay(s.txs, c.testPool), t)
    requires TakenBy(site, mem, s, c, Tip(next.path).block.vtx[n], d)
    ensures var b := Tip(next.path);
            var q := CurrencyTx(next, Purse(t, c.fees), b.block.vtx[n], TxPos(b, n));
            q.Ok? && q.value.fees == d.fees && Refines(s.txs, b, n + 1, Overlay(s.txs, d.testPool), q.value.txs)
  {
    hide Refines, Overlay, MinerInputs, SpendInputs, MinerNameCheck, OutputsInRange;
    var b := Tip(next.path);
    var tx := b.block.vtx[n];
    var minFee :| MinerConnect(site, mem, s, minFee, c, tx) == Taken(d);
    var a := MinerInputs(site, mem, s.txs, c.testPool, tx, |tx.vin|).value;
    InputsConnect(site, mem, s.txs, next, n, c.testPool, tx, |tx.vin|, t);
    var q := SpendInputs(next, t, tx, |tx.vin|).value;
    NewEntry(s.txs, b, n, a.txs, q.txs);
  }

  lemma EntryRefinesLater(b: StoredBlock, n: nat, h: Hash, v: TxIndex, t: TxIndex)
    requires n < |b.block.vtx| && EntryRefines(b, n, h, v, t)
    ensures EntryRefines(b, n + 1, h, v, t)
  {
  }

  lemma OwnEntry(b: StoredBlock, n: nat, spent: seq<bool>)
    requires 0 < n < |b.block.vtx|
    ensures EntryRefines(b, n + 1, b.block.vtx[n].txid, TxIndex(POOL_POS, spent), TxIndex(TxPos(b, n), spent))
  {
    hide TxPos;
    assert 1 <= n < n + 1 && b.block.vtx[n].txid == b.block.vtx[n].txid;
  }

  lemma NewEntry(txs: map<Hash, TxIndex>, b: StoredBlock, n: nat, testPool: map<Hash, TxIndex>, t: map<Hash, TxIndex>)
    requires 0 < n < |b.block.vtx| && Refines(txs, b, n, Overlay(txs, testPool), t) && DistinctTxids(b.block.vtx)
    ensures var tx := b.block.vtx[n];
            Refines(txs, b, n + 1, Overlay(txs, testPool[tx.txid := TxIndex(POOL_POS, NoneSpent(|tx.vout|))]),
                    AddTxIndex(t, tx, TxPos(b, n)))
  {
    hide TxPos, EntryRefines, NoneSpent, Overlay;
    var tx := b.block.vtx[n];
    var entry := TxIndex(POOL_POS, NoneSpent(|tx.vout|));
    var v, u := Overlay(txs, testPool), AddTxIndex(t, tx, TxPos(b, n));
    var w := v[tx.txid := entry];
    OwnEntry(b, n, NoneSpent(|tx.vout|));
    assert b.block.vtx[0].txid != tx.txid;
    hide DistinctTxids;
    forall h | h in w ensures EntryRefines(b, n + 1, h, w[h], u[h]) {
      if h != tx.txid {
        EntryRefinesLater(b, n, h, v[h], t[h]);
      }
    }
    OverlayUpdate(txs, testPool, tx.txid, entry);
  }

  lemma CoinbaseEntry(txs: map<Hash, TxIndex>, b: StoredBlock)
    requires b.block.vtx != [] && FreshTxids(txs, b.block.vtx) && forall h :: h in txs ==> txs[h].pos != POOL_POS
    ensures Refines(txs, b, 1, Overlay(txs, map[]), AddTxIndex(txs, b.block.vtx[0], TxPos(b, 0)))
  {
    hide TxPos;
    assert Overlay(txs, map[]) == txs;
    var t := AddTxIndex(txs, b.block.vtx[0], TxPos(b, 0));
    forall h | h in txs ensures EntryRefines(b, 1, h, txs[h], t[h]) {
      assert h != b.block.vtx[0].txid;
    }
  }

  /** The currency part of ConnectBlock goes through for every block assembled from the pool,
      whatever the order: no output is spent twice, none is missing or immature, and the fees
      are those that CreateNewBlock added up. */
  lemma {:induction false} AssembledConnects(site: Site, mem: Pool, s: Indexes, next: Site, n: nat, c: Assembly)
    requires Placed(site, mem, s.txs, next) && 0 < n <= |Tip(next.path).block.vtx|
    requires Assembled(site, mem, s, Tip(next.path).block.vtx[1..n], c)
    ensures var q := CurrencyTxs(next, s.txs, n);
            q.Ok? && q.value.fees == c.fees
            && Refines(s.txs, Tip(next.path), n, Overlay(s.txs, c.testPool), q.value.txs)
    decreases n
  {
    hide Refines, Overlay, MinerConnect, CurrencyTx, TakenBy, TxPos;
    var b := Tip(next.path);
    if n == 1 {
      forall h | h in s.txs ensures s.txs[h].pos != POOL_POS {
        assert OldEntry(site.env, next.env, b, s.txs[h].pos);
      }
      CoinbaseEntry(s.txs, b);
      CoinbaseCurrency(next, s.txs);
    } else {
      var txs := b.block.vtx[1..n];
      var before :| Assembled(site, mem, s, Front(txs), before) && TakenBy(site, mem, s, before, Last(txs), c);
      assert Front(txs) == b.block.vtx[1..n - 1] && Last(txs) == b.block.vtx[n - 1];
      AssembledConnects(site, mem, s, next, n - 1, before);
      var p := CurrencyTxs(next, s.txs, n - 1).value;
      TakenConnects(site, mem, s, next, n - 1, before, c, p.txs);
    }
  }

  lemma CoinbaseCurrency(next: Site, txs: map<Hash, TxIndex>)
    requires next.Valid() && Tip(next.path).block.vtx != [] && Tip(next.path).block.vtx[0].IsCoinBase()
    ensures CurrencyTxs(next, txs, 1)
              == Ok(Purse(AddTxIndex(txs, Tip(next.path).block.vtx[0], TxPos(Tip(next.path), 0)), 0))
  {
  }

  // ----- consequences for the block -----

  ghost predicate NoOutputTwice(vtx: seq<Tx>, n: nat)
    requires n <= |vtx|
  {
    forall i, j, a, b ::
      1 <= i <= j < n && 0 <= a < |vtx[i].vin| && 0 <= b < |vtx[j].vin| && (i, a) != (j, b) ==>
        vtx[i].vin[a] != vtx[j].vin[b]
  }

  /** All outputs that the first `n` transactions spend are marked. */
  ghost predicate AllSpent(txs: map<Hash, TxIndex>, vtx: seq<Tx>, n: nat)
    requires n <= |vtx|
  {
    forall i, a :: 1 <= i < n && 0 <= a < |vtx[i].vin| ==> IsSpent(txs, vtx[i].vin[a])
  }

  ghost predicate InputsAreEarlier(txs: map<Hash, TxIndex>, vtx: seq<Tx>, n: nat)
    requires n <= |vtx|
  {
    forall i, a :: 1 <= i < n && 0 <= a < |vtx[i].vin| ==> Earlier(txs, vtx, i, vtx[i].vin[a].hash)
  }

  predicate Earlier(txs: map<Hash, TxIndex>, vtx: seq<Tx>, i: nat, h: Hash)
    requires i <= |vtx|
  {
    h in txs || exists j :: 0 <= j < i && vtx[j].txid == h
  }

  lemma CurrencyTxEffect(site: Site, p: Purse, tx: Tx, pos: DiskTxPos)
    requires CurrencyTx(site, p, tx, pos).Ok? && !tx.IsCoinBase() && tx.txid !in p.txs
    ensures var q := CurrencyTx(site, p, tx, pos).value.txs;
            && q.Keys == p.txs.Keys + {tx.txid}
            && (forall o :: IsSpent(p.txs, o) ==> IsSpent(q, o))
            && (forall a ::
                  0 <= a < |tx.vin| ==> tx.vin[a].hash in p.txs && !IsSpent(p.txs, tx.vin[a]) && IsSpent(q, tx.vin[a]))
            && Distinct(tx.vin)
  {
    hide SpendInputs, OutputsInRange;
    SpendInputsEffect(site, p.txs, tx, |tx.vin|);
    var a := SpendInputs(site, p.txs, tx, |tx.vin|).value;
    assert tx.vin[..|tx.vin|] == tx.vin;
    var q := AddTxIndex(a.txs, tx, pos);
    forall o | IsSpent(a.txs, o) && o.hash in p.txs ensures IsSpent(q, o) {
    }
    forall o | IsSpent(p.txs, o) ensures IsSpent(q, o) {
      assert IsSpent(a.txs, o);
    }
    forall j | 0 <= j < |tx.vin| ensures IsSpent(q, tx.vin[j]) {
      assert HasOutput(p.txs, tx.vin[j]) && IsSpent(a.txs, tx.vin[j]);
    }
  }

  lemma SpentTwiceNever(vtx: seq<Tx>, n: nat, txs: map<Hash, TxIndex>)
    requires 1 <= n < |vtx| && NoOutputTwice(vtx, n) && AllSpent(txs, vtx, n)
    requires Distinct(vtx[n].vin) && forall a :: 0 <= a < |vtx[n].vin| ==> !IsSpent(txs, vtx[n].vin[a])
    ensures NoOutputTwice(vtx, n + 1)
  {
    hide IsSpent;
  }

  /** Inputs come from the old index or from earlier in the block, no output is spent twice, and
      the index `q` after the first `n` transactions knows of all this. */
  ghost predicate Sound(txs: map<Hash, TxIndex>, vtx: seq<Tx>, n: nat, q: map<Hash, TxIndex>)
    requires n <= |vtx|
  {
    && (forall h :: h in q ==> Earlier(txs, vtx, n, h))
    && InputsAreEarlier(txs, vtx, n) && NoOutputTwice(vtx, n) && AllSpent(q, vtx, n)
  }

  lemma SoundStep(txs: map<Hash, TxIndex>, vtx: seq<Tx>, n: nat, p: map<Hash, TxIndex>, q: map<Hash, TxIndex>)
    requires 1 <= n < |vtx| && Sound(txs, vtx, n, p) && q.Keys == p.Keys + {vtx[n].txid}
    requires forall o :: IsSpent(p, o) ==> IsSpent(q, o)
    requires forall a ::
        0 <= a < |vtx[n].vin| ==> vtx[n].vin[a].hash in p && !IsSpent(p, vtx[n].vin[a]) && IsSpent(q, vtx[n].vin[a])
    requires Distinct(vtx[n].vin)
    ensures Sound(txs, vtx, n + 1, q)
  {
    SpentTwiceNever(vtx, n, p);
    hide NoOutputTwice, IsSpent, Distinct;
    forall h | h in q ensures Earlier(txs, vtx, n + 1, h) {
      EarlierStays(txs, vtx, n, h);
    }
    hide Earlier;
  }

  lemma EarlierStays(txs: map<Hash, TxIndex>, vtx: seq<Tx>, i: nat, h: Hash)
    requires i < |vtx|
    ensures Earlier(txs, vtx, i, h) || h == vtx[i].txid ==> Earlier(txs, vtx, i + 1, h)
  {
  }

  lemma NewTxid(txs: map<Hash, TxIndex>, vtx: seq<Tx>, n: nat, p: map<Hash, TxIndex>)
    requires 1 <= n < |vtx| && Sound(txs, vtx, n, p) && DistinctTxids(vtx) && FreshTxids(txs, vtx)
    ensures vtx[n].txid !in p
  {
    assert !Earlier(txs, vtx, n, vtx[n].txid);
  }

  /** A block whose currency part connects is sound in this sense. */
  lemma {:induction false} CurrencyFacts(next: Site, txs: map<Hash, TxIndex>, n: nat)
    requires next.Valid() && 0 < n <= |Tip(next.path).block.vtx| && CurrencyTxs(next, txs, n).Ok?
    requires var vtx := Tip(next.path).block.vtx;
             vtx[0].IsCoinBase() && (forall j :: 1 <= j < |vtx| ==> !vtx[j].IsCoinBase()) && DistinctTxids(vtx)
             && FreshTxids(txs, vtx)
    ensures Sound(txs, Tip(next.path).block.vtx, n, CurrencyTxs(next, txs, n).value.txs)
    decreases n
  {
    hide CurrencyTx, TxPos, IsSpent, Distinct;
    var vtx := Tip(next.path).block.vtx;
    if n == 1 {
      CoinbaseCurrency(next, txs);
    } else {
      hide Sound, DistinctTxids, FreshTxids;
      CurrencyFacts(next, txs, n - 1);
      var p := CurrencyTxs(next, txs, n - 1).value;
      NewTxid(txs, vtx, n - 1, p.txs);
      CurrencyTxEffect(next, p, vtx[n - 1], TxPos(Tip(next.path), n - 1));
      SoundStep(txs, vtx, n - 1, p.txs, CurrencyTxs(next, txs, n).value.txs);
    }
  }

  // ----- the main theorem -----

  /** The name hook accepts the first `n` transactions where they are connected. */
  predicate NamesAccepted(site: Site, s: Indexes, n: nat)
    requires site.Valid() && n <= |Tip(site.path).block.vtx|
  {
    if n == 0 then true
    else
      var tx := Tip(site.path).block.vtx[n - 1];
      && NamesAccepted(site, s, n - 1)
      && (tx.IsCoinBase()
          || match ConnectTxs(site, s, n - 1)
             case Rejected => false
             case Ok(c) =>
               match SpendInputs(site, c.s.txs, tx, |tx.vin|)
               case Rejected => false
               case Ok(a) => NameDecision(site, c.s.names, tx, a).Ok?)
  }

  lemma {:induction false} NamesDecide(site: Site, s: Indexes, n: nat)
    requires site.Valid() && n <= |Tip(site.path).block.vtx| && CurrencyTxs(site, s.txs, n).Ok?
    ensures ConnectTxs(site, s, n).Ok? <==> NamesAccepted(site, s, n)
    ensures ConnectTxs(site, s, n).Ok? ==> PurseOf(ConnectTxs(site, s, n).value) == CurrencyTxs(site, s.txs, n).value
  {
    hide ConnectTx, CurrencyTx, SpendInputs, NameDecision, TxPos;
    if n > 0 {
      NamesDecide(site, s, n - 1);
      if ConnectTxs(site, s, n - 1).Ok? {
        ConnectTxSplits(site, ConnectTxs(site, s, n - 1).value, Tip(site.path).block.vtx[n - 1],
                        TxPos(Tip(site.path), n - 1));
      }
    }
  }

  /** A block assembled from the pool, in whatever order, with a coinbase of subsidy and added-up
      fees, is accepted by ConnectBlock exactly when it passes CheckBlock and the name hook: its
      inputs, amounts, maturity and reward are never the reason to refuse it. */
  lemma MinedBlockConnects(site: Site, mem: Pool, s: Indexes, next: Site, c: Assembly)
    requires Placed(site, mem, s.txs, next)
    requires Assembled(site, mem, s, Tip(next.path).block.vtx[1..], c)
    requires SumOut(Tip(next.path).block.vtx[0].vout) == BlockValue(next.Height(), c.fees)
    ensures var vtx := Tip(next.path).block.vtx;
            && CurrencyTxs(next, s.txs, |vtx|).Ok? && CurrencyTxs(next, s.txs, |vtx|).value.fees == c.fees
            && InputsAreEarlier(s.txs, vtx, |vtx|) && NoOutputTwice(vtx, |vtx|)
            && (ConnectBlock(next, s).Ok? <==>
                  CheckBlock(next.env, Tip(next.path).block, next.Height()) && NamesAccepted(next, s, |vtx|))
  {
    hide CurrencyTxs, NamesAccepted, CheckBlock, Assembled, ConnectTxs, Subsidy;
    var vtx := Tip(next.path).block.vtx;
    assert vtx[1..|vtx|] == vtx[1..];
    AssembledConnects(site, mem, s, next, |vtx|, c);
    CurrencyFacts(next, s.txs, |vtx|);
    hide InputsAreEarlier, NoOutputTwice, AllSpent;
    NamesDecide(next, s, |vtx|);
  }
}
