/** Exactly when the name hook accepts a whole mined block (src/main.cpp, src/namecoin.cpp). */
module MinedBlockNames {
  import opened Common
  import opened NameScript
  import opened ChainTypes
  import opened NameRules
  import opened Connect
  import opened Undo
  import opened ChainRun
  import opened TxLog
  import opened Owner
  import opened NameValues
  import opened TestPool
  import opened MinedBlock
  import opened MinerFees
  import opened MinedNames

  // ----- what the name index says about the branch -----

  /** The entry is that of a logged name transaction, at its height. */
  ghost predicate Known(testnet: bool, log: seq<Logged>, e: NameIndex) {
    exists k :: 0 <= k < |log| && IsEntryOf(testnet, log[k], e)
  }

  predicate IsEntryOf(testnet: bool, l: Logged, e: NameIndex) {
    l.pos == e.txPos && l.height == e.nHeight && Readable(l.tx, PostLibcoinFork(testnet, l.height))
    && !l.tx.IsCoinBase()
  }

  ghost predicate OneScriptEach(testnet: bool, log: seq<Logged>) {
    forall k ::
      0 <= k < |log| && Ruled(testnet, log[k].tx, log[k].height) && !log[k].tx.IsCoinBase() ==> OneNameScript(log[k].tx)
  }

  /** The databases of the best chain, as the miner needs to know them. */
  ghost predicate Charted(site: Site, s: Indexes, log: seq<Logged>) {
    && site.Valid() && IndexOf(s.txs, log) && DistinctPositions(log) && FilesExact(site.env, log)
    && DistinctPlaces(site.path) && LogInPlace(site.path, log) && OneScriptEach(site.env.testnet, log)
    && (forall name :: History(s.names, name) != [] ==> Known(site.env.testnet, log, Back(s.names, name)))
    && (forall b :: b in site.path ==> !InBlock(b, POOL_POS))
  }

  function Back(names: map<Name, seq<NameIndex>>, name: Name): NameIndex
    requires History(names, name) != []
  {
    History(names, name)[|History(names, name)| - 1]
  }

  lemma WrittenIsKnown(testnet: bool, sites: seq<Site>, log: seq<Logged>, names: map<Name, seq<NameIndex>>, name: Name)
    requires AllWritten(testnet, sites, log, names) && History(names, name) != []
    ensures Known(testnet, log, Back(names, name))
  {
    hide ReadValue, RuleUsed, Readable, PostLibcoinFork;
    var e := Back(names, name);
    assert Written(testnet, sites, log, names[name][|names[name]| - 1]);
    var k :| 0 <= k < |log| && log[k].height <= |sites| && WrittenFor(testnet, sites, log[k], e);
    assert IsEntryOf(testnet, log[k], e);
  }

  lemma ChartOf(site: Site, s: Indexes, sites: seq<Site>)
    requires OnBestChain(site, s, sites) && forall k :: 0 <= k < |sites| ==> OwnBlockOnFile(sites[k])
    ensures Charted(site, s, Log(site.path))
  {
    hide Built, SitesExact, FilesExact, IndexOf, DistinctPositions, DistinctPlaces, Log, OwnBlockOnFile, OneNameScript,
         Known, OwnersThroughout, AllWritten, EntriesLogged;
    var testnet, log := site.env.testnet, Log(site.path);
    var t :| Built(sites, testnet, site.path, t) && Same(s, t);
    OwnersBuilt(sites, testnet, site.path, t);
    BuiltWritten(sites, testnet, site.path, t);
    PlacesDistinct(sites, testnet, site.path, t);
    LogPlaced(site.path);
    forall name | History(s.names, name) != [] ensures Known(testnet, log, Back(s.names, name)) {
      assert History(t.names, name) == History(s.names, name);
      WrittenIsKnown(testnet, sites, log, t.names, name);
    }
  }

  /** The logged transaction behind the last entry of a name. */
  lemma BackLogged(site: Site, s: Indexes, log: seq<Logged>, name: Name) returns (k: nat)
    requires Charted(site, s, log) && History(s.names, name) != []
    ensures k < |log| && IsEntryOf(site.env.testnet, log[k], Back(s.names, name))
    ensures NameHeight(s.names, name) == log[k].height < |site.path| && InBlock(site.path[log[k].height], log[k].pos)
  {
    hide IndexOf, FilesExact, DistinctPlaces, IsEntryOf;
    assert Known(site.env.testnet, log, Back(s.names, name));
    k :| 0 <= k < |log| && IsEntryOf(site.env.testnet, log[k], Back(s.names, name));
    assert log[k].height == Back(s.names, name).nHeight by {
      EntryHeight(site.env.testnet, log[k], Back(s.names, name));
    }
  }

  lemma EntryHeight(testnet: bool, l: Logged, e: NameIndex)
    requires IsEntryOf(testnet, l, e)
    ensures l.height == e.nHeight && l.pos == e.txPos
  {
  }

  /** The walk back over the branch finds the last entry of a name at the depth that its stored
      height says. */
  lemma BackDepth(site: Site, s: Indexes, log: seq<Logged>, name: Name, pos: DiskTxPos, m: int)
    requires Charted(site, s, log) && LastEntryIs(History(s.names, name), pos)
    ensures var r := site.Height() - NameHeight(s.names, name);
            RelativeDepth(site.path, pos, m) == if r < m then r else -1
  {
    var k := BackLogged(site, s, log, name);
    EntryHeight(site.env.testnet, log[k], Back(s.names, name));
    hide IndexOf, FilesExact, IsEntryOf, Known, OneScriptEach, LogInPlace, DepthFrom;
    DepthFromSpec(site.path, pos, m, 0);
    var r := RelativeDepth(site.path, pos, m);
    if r >= 0 {
      OnePlace(site.path, |site.path| - 1 - r, log[k].height, pos);
    }
  }

  // ----- what mining demands of a name transaction -----

  /** The name for which the transaction is recorded past the fork. */
  function Registered(tx: Tx): Option<Name> {
    var d := DecodeNameTx(tx, true);
    if tx.IsName() && d.good && Registers(d.op) then Some(d.args[0]) else None
  }

  predicate IsUpdate(tx: Tx) {
    tx.IsName() && DecodeNameTx(tx, true).op == OP_NAME_UPDATE
  }

  /** A name_update whose name has not expired at the given height. */
  predicate InTime(names: map<Name, seq<NameIndex>>, tx: Tx, height: nat) {
    IsUpdate(tx) && Registered(tx).Some? ==> Unexpired(NameHeight(names, Registered(tx).value), height)
  }

  /** Some input spends, through a name script, the transaction of the last entry. */
  ghost predicate SpendsBack(log: seq<Logged>, names: map<Name, seq<NameIndex>>, tx: Tx, x: nat, name: Name) {
    && x < |tx.vin| && History(names, name) != []
    && exists k :: 0 <= k < |log| && log[k].pos == Back(names, name).txPos && SpendsName(log[k].tx, tx.vin[x])
  }

  predicate SpendsName(prev: Tx, o: OutPoint) {
    o.hash == prev.txid && o.n < |prev.vout| && IsNameScript(prev.vout[o.n].scriptPubKey)
  }

  /** What the miner's check says whatever is in the test pool: the name of a name_firstupdate
      has expired, that of a name_update has not and its last transaction is spent. */
  ghost predicate Fits(site: Site, s: Indexes, log: seq<Logged>, tx: Tx, name: Name)
    requires site.Valid()
  {
    if IsUpdate(tx) then
      Unexpired(NameHeight(s.names, name), site.Height()) && exists x :: SpendsBack(log, s.names, tx, x, name)
    else !(NameHeight(s.names, name) >= 0 && Unexpired(NameHeight(s.names, name), site.Height()))
  }

  /** An input of a transaction accepted for mining: where it is found, and the script. */
  lemma {:induction false} MinerPrev(site: Site, mem: Pool, txs: map<Hash, TxIndex>, testPool: map<Hash, TxIndex>,
                                     tx: Tx, i: nat, x: nat)
    requires x < i <= |tx.vin| && MinerInputs(site, mem, txs, testPool, tx, i).Ok?
    ensures var a, o, v := MinerInputs(site, mem, txs, testPool, tx, i).value, tx.vin[x], Overlay(txs, testPool);
            && o.hash in v && a.prevPos[x] == v[o.hash].pos
            && (v[o.hash].pos != POOL_POS ==>
                  v[o.hash].pos in site.env.disk && o.n < |site.env.disk[v[o.hash].pos].vout|
                                              && a.scripts[x] == site.env.disk[v[o.hash].pos].vout[o.n].scriptPubKey)
    decreases i
  {
    hide RelativeDepth;
    if x < i - 1 {
      MinerPrev(site, mem, txs, testPool, tx, i - 1, x);
    } else {
      SamePositions(site, mem, txs, testPool, tx, i - 1);
    }
  }

  /** Marking outputs spent adds entries to the test pool, and changes no position. */
  ghost predicate KeepsPositions(txs: map<Hash, TxIndex>, testPool: map<Hash, TxIndex>, after: map<Hash, TxIndex>) {
    var v, w := Overlay(txs, testPool), Overlay(txs, after);
    testPool.Keys <= after.Keys && w.Keys == v.Keys && forall h :: h in v ==> w[h].pos == v[h].pos
  }

  lemma InputKeepsPositions(site: Site, mem: Pool, txs: map<Hash, TxIndex>, tx: Tx, i: nat, a: Inputs)
    requires i < |tx.vin| && MinerInput(site, mem, txs, tx, i, a).Ok?
    ensures KeepsPositions(txs, a.txs, MinerInput(site, mem, txs, tx, i, a).value.txs)
  {
    hide RelativeDepth;
  }

  lemma {:induction false} SamePositions(site: Site, mem: Pool, txs: map<Hash, TxIndex>, testPool: map<Hash, TxIndex>,
                                         tx: Tx, i: nat)
    requires i <= |tx.vin| && MinerInputs(site, mem, txs, testPool, tx, i).Ok?
    ensures KeepsPositions(txs, testPool, MinerInputs(site, mem, txs, testPool, tx, i).value.txs)
  {
    hide MinerInput, Overlay;
    if i > 0 {
      SamePositions(site, mem, txs, testPool, tx, i - 1);
      InputKeepsPositions(site, mem, txs, tx, i - 1, MinerInputs(site, mem, txs, testPool, tx, i - 1).value);
    }
  }

  lemma CheckedFits(site: Site, mem: Pool, s: Indexes, log: seq<Logged>, b: StoredBlock, n: nat,
                    t: map<Hash, TxIndex>, testPool: map<Hash, TxIndex>, tx: Tx, name: Name)
    requires Charted(site, s, log) && PostLibcoinFork(site.env.testnet, site.Height()) && Registered(tx) == Some(name)
    requires 0 < n <= |b.block.vtx| && Refines(s.txs, b, n, Overlay(s.txs, testPool), t)
    requires var a := MinerInputs(site, mem, s.txs, testPool, tx, |tx.vin|);
             a.Ok? && MinerNameCheck(site, mem, s.names, tx, a.value)
    ensures Fits(site, s, log, tx, name)
  {
    hide MinerInputs, Charted, Refines, Overlay, ScanScripts, RelativeDepth, NetworkFee, NameNetFee, HasNameOutput,
         DecodeNameTx, SpendsBack;
    var a := MinerInputs(site, mem, s.txs, testPool, tx, |tx.vin|).value;
    if IsUpdate(tx) {
      var prev := ScanScripts(true, a.scripts, |a.scripts|);
      assert prev.found && !prev.multiple && LastEntryIs(History(s.names, name), a.prevPos[prev.index]);
      BackDepth(site, s, log, name, a.prevPos[prev.index], ExpirationDepth(site.Height()));
      PrevIsBack(site, mem, s, log, b, n, t, testPool, tx, name);
    }
  }

  lemma PrevIsBack(site: Site, mem: Pool, s: Indexes, log: seq<Logged>, b: StoredBlock, n: nat,
                   t: map<Hash, TxIndex>, testPool: map<Hash, TxIndex>, tx: Tx, name: Name)
    requires Charted(site, s, log)
    requires 0 < n <= |b.block.vtx| && Refines(s.txs, b, n, Overlay(s.txs, testPool), t)
    requires MinerInputs(site, mem, s.txs, testPool, tx, |tx.vin|).Ok?
    requires var a := MinerInputs(site, mem, s.txs, testPool, tx, |tx.vin|).value;
             var prev := ScanScripts(true, a.scripts, |a.scripts|);
             prev.found && !prev.multiple && LastEntryIs(History(s.names, name), a.prevPos[prev.index])
    ensures exists x :: SpendsBack(log, s.names, tx, x, name)
  {
    hide MinerInputs, Overlay, ScanScripts, ParseNameScript, DistinctPlaces, OneScriptEach, Known, Refines, FilesExact,
         LogInPlace;
    var a := MinerInputs(site, mem, s.txs, testPool, tx, |tx.vin|).value;
    StrictScanExact(a.scripts, |a.scripts|);
    var x := ScanScripts(true, a.scripts, |a.scripts|).index;
    MinerPrev(site, mem, s.txs, testPool, tx, |tx.vin|, x);
    var k := BackLogged(site, s, log, name);
    EntryHeight(site.env.testnet, log[k], Back(s.names, name));
    var pos, o := log[k].pos, tx.vin[x];
    assert pos != POOL_POS;
    EntryKept(s.txs, b, n, Overlay(s.txs, testPool), t, o.hash);
    OneAtPosition(site, s, log, o.hash, k);
    assert SpendsName(log[k].tx, o);
    assert SpendsBack(log, s.names, tx, x, name);
  }

  lemma OneAtPosition(site: Site, s: Indexes, log: seq<Logged>, h: Hash, k: nat)
    requires Charted(site, s, log) && h in s.txs && k < |log| && s.txs[h].pos == log[k].pos
    ensures h == log[k].tx.txid
    ensures log[k].pos in site.env.disk ==> site.env.disk[log[k].pos] == log[k].tx
  {
    hide Spends, DistinctPlaces, OneScriptEach, Known, LogInPlace;
    var i :| 0 <= i < |log| && log[i].tx.txid == h;
    SameEntry(log, i, k);
  }

  // ----- no two transactions on one name -----

  /** The pool knows which of its transactions register a name. */
  ghost predicate PendingTracked(mem: Pool) {
    forall h :: h in mem.txs && Registered(mem.txs[h]).Some? ==> h in mem.PendingOn(Registered(mem.txs[h]).value)
  }

  /** The last entry of an unexpired name is one of the new rules: its transaction has one name
      script. */
  ghost predicate LongPastFork(site: Site)
    requires site.Valid()
  {
    PostLibcoinFork(site.env.testnet, site.Height() - 36000)
  }

  lemma OneOutputSpent(site: Site, s: Indexes, log: seq<Logged>, name: Name, tx: Tx, x: nat, other: Tx, y: nat)
    requires Charted(site, s, log) && LongPastFork(site) && Unexpired(NameHeight(s.names, name), site.Height())
    requires SpendsBack(log, s.names, tx, x, name) && SpendsBack(log, s.names, other, y, name)
    ensures tx.vin[x] == other.vin[y]
  {
    hide IndexOf, FilesExact, DistinctPlaces, Known, LogInPlace, IsNameScript, IsEntryOf;
    var k := BackLogged(site, s, log, name);
    EntryHeight(site.env.testnet, log[k], Back(s.names, name));
    var i :| 0 <= i < |log| && log[i].pos == Back(s.names, name).txPos && SpendsName(log[i].tx, tx.vin[x]);
    var j :| 0 <= j < |log| && log[j].pos == Back(s.names, name).txPos && SpendsName(log[j].tx, other.vin[y]);
    SameEntry(log, i, k);
    SameEntry(log, j, k);
    BackIsRuled(site.env.testnet, log[k], Back(s.names, name), site);
    assert OneNameScript(log[k].tx);
  }

  lemma BackIsRuled(testnet: bool, l: Logged, e: NameIndex, site: Site)
    requires site.Valid() && testnet == site.env.testnet && IsEntryOf(testnet, l, e)
    requires LongPastFork(site) && Unexpired(l.height, site.Height())
    ensures Ruled(testnet, l.tx, l.height) && !l.tx.IsCoinBase()
  {
    hide DecodeNameTx;
  }

  /** Every transaction of an assembled block was taken after those before it. */
  lemma {:induction false} AssembledAt(site: Site, mem: Pool, s: Indexes, txs: seq<Tx>, c: Assembly, j: nat)
    returns (before: Assembly, after: Assembly)
    requires site.Valid() && Assembled(site, mem, s, txs, c) && j < |txs|
    ensures Assembled(site, mem, s, txs[..j], before) && TakenBy(site, mem, s, before, txs[j], after)
    decreases |txs|
  {
    hide TakenBy;
    var prev := AssembledSplit(site, mem, s, txs, c);
    if j == |txs| - 1 {
      before, after := prev, c;
    } else {
      before, after := AssembledAt(site, mem, s, Front(txs), prev, j);
      assert Front(txs)[..j] == txs[..j];
    }
  }

  lemma AssembledSplit(site: Site, mem: Pool, s: Indexes, txs: seq<Tx>, c: Assembly) returns (before: Assembly)
    requires site.Valid() && Assembled(site, mem, s, txs, c) && txs != []
    ensures Assembled(site, mem, s, Front(txs), before) && TakenBy(site, mem, s, before, Last(txs), c)
  {
    hide TakenBy;
    before :| Assembled(site, mem, s, Front(txs), before) && TakenBy(site, mem, s, before, Last(txs), c);
  }

  lemma {:induction false} AssembledEntered(site: Site, mem: Pool, s: Indexes, txs: seq<Tx>, c: Assembly)
    requires site.Valid() && Assembled(site, mem, s, txs, c)
    ensures forall i :: 0 <= i < |txs| ==> txs[i].txid in c.testPool
    decreases |txs|
  {
    hide TakenBy, Assembled;
    if txs != [] {
      var before := AssembledSplit(site, mem, s, txs, c);
      AssembledEntered(site, mem, s, Front(txs), before);
      TakenEnters(site, mem, s, before, Last(txs), c);
      forall i | 0 <= i < |txs| ensures txs[i].txid in c.testPool {
        if i < |txs| - 1 {
          assert Front(txs)[i] == txs[i];
        }
      }
    }
  }

  lemma TakenEnters(site: Site, mem: Pool, s: Indexes, before: Assembly, tx: Tx, c: Assembly)
    requires site.Valid() && TakenBy(site, mem, s, before, tx, c)
    ensures before.testPool.Keys <= c.testPool.Keys && tx.txid in c.testPool
    ensures var a := MinerInputs(site, mem, s.txs, before.testPool, tx, |tx.vin|);
            a.Ok? && MinerNameCheck(site, mem, s.names, tx, a.value) && before.testPool.Keys <= a.value.txs.Keys
  {
    hide MinerInputs, MinerNameCheck, OutputsInRange;
    var minFee :| MinerConnect(site, mem, s, minFee, before, tx) == Taken(c);
    SamePositions(site, mem, s.txs, before.testPool, tx, |tx.vin|);
  }

  /** A name_firstupdate is not taken when another transaction on its name is in the pool
      already. */
  lemma ClashRefused(site: Site, mem: Pool, names: map<Name, seq<NameIndex>>, tx: Tx, a: Inputs, name: Name,
                     other: Hash)
    requires site.Valid() && |a.scripts| == |a.prevPos| && MinerNameCheck(site, mem, names, tx, a)
    requires PostLibcoinFork(site.env.testnet, site.Height()) && Registered(tx) == Some(name) && !IsUpdate(tx)
    requires other in mem.PendingOn(name)
    ensures other !in a.txs
  {
    hide ScanScripts, RelativeDepth, NetworkFee, NameNetFee, HasNameOutput, DecodeNameTx;
    var d := DecodeNameTx(tx, true);
    assert d.op == OP_NAME_FIRSTUPDATE;
    assert other !in a.txs.Keys * mem.PendingOn(d.args[0]);
  }

  /** A transaction of the block, as it was taken. */
  lemma TakenInBlock(site: Site, mem: Pool, s: Indexes, next: Site, log: seq<Logged>, c: Assembly, j: nat, name: Name)
    returns (before: Assembly)
    requires Charted(site, s, log) && PostLibcoinFork(site.env.testnet, site.Height()) && Placed(site, mem, s.txs, next)
    requires Assembled(site, mem, s, Tip(next.path).block.vtx[1..], c) && 1 <= j < |Tip(next.path).block.vtx|
    requires Registered(Tip(next.path).block.vtx[j]) == Some(name)
    ensures var vtx := Tip(next.path).block.vtx;
            var a := MinerInputs(site, mem, s.txs, before.testPool, vtx[j], |vtx[j].vin|);
            && a.Ok? && MinerNameCheck(site, mem, s.names, vtx[j], a.value)
            && (forall i :: 1 <= i < j ==> vtx[i].txid in a.value.txs)
            && Fits(site, s, log, vtx[j], name)
  {
    hide Charted, Placed, Assembled, TakenBy, Refines, MinerInputs, MinerNameCheck, Fits, DecodeNameTx, Registered,
         CurrencyTxs, Overlay;
    SameVerify(site, mem, s.txs, next);
    var vtx := Tip(next.path).block.vtx;
    var after;
    before, after := AssembledAt(site, mem, s, vtx[1..], c, j - 1);
    assert vtx[1..][..j - 1] == vtx[1..j] && vtx[1..][j - 1] == vtx[j];
    TakenEnters(site, mem, s, before, vtx[j], after);
    AssembledEntered(site, mem, s, vtx[1..j], before);
    forall i | 1 <= i < j ensures vtx[i].txid in before.testPool {
      assert vtx[1..j][i - 1] == vtx[i];
    }
    AssembledConnects(site, mem, s, next, j, before);
    CheckedFits(site, mem, s, log, Tip(next.path), j, CurrencyTxs(next, s.txs, j).value.txs, before.testPool, vtx[j],
                name);
  }

  /** No two transactions of the block are recorded for one name. */
  lemma NoRivals(site: Site, mem: Pool, s: Indexes, next: Site, log: seq<Logged>, c: Assembly, i: nat, j: nat)
    requires Charted(site, s, log) && LongPastFork(site) && Placed(site, mem, s.txs, next) && PendingTracked(mem)
    requires Assembled(site, mem, s, Tip(next.path).block.vtx[1..], c) && 1 <= i < j < |Tip(next.path).block.vtx|
    requires NoOutputTwice(Tip(next.path).block.vtx, |Tip(next.path).block.vtx|)
    requires Registered(Tip(next.path).block.vtx[i]).Some?
    ensures Registered(Tip(next.path).block.vtx[i]) != Registered(Tip(next.path).block.vtx[j])
  {
    hide Charted, Placed, Assembled, MinerInputs, MinerNameCheck, DecodeNameTx, Registered, IsUpdate, SpendsBack,
         NoOutputTwice;
    SameVerify(site, mem, s.txs, next);
    var vtx := Tip(next.path).block.vtx;
    if Registered(vtx[i]) == Registered(vtx[j]) {
      var name := Registered(vtx[i]).value;
      EarlierFork(site);
      var p := TakenInBlock(site, mem, s, next, log, c, i, name);
      var q := TakenInBlock(site, mem, s, next, log, c, j, name);
      if !IsUpdate(vtx[j]) {
        PoolPending(site, mem, s.txs, next, i, name);
        ClashRefused(site, mem, s.names, vtx[j], MinerInputs(site, mem, s.txs, q.testPool, vtx[j], |vtx[j].vin|).value,
                     name, vtx[i].txid);
      } else if IsUpdate(vtx[i]) {
        var x :| SpendsBack(log, s.names, vtx[i], x, name);
        var y :| SpendsBack(log, s.names, vtx[j], y, name);
        OneOutputSpent(site, s, log, name, vtx[i], x, vtx[j], y);
        SpentTwice(log, s.names, name, vtx, i, x, j, y);
      } else {
        UpdatedIsRecorded(log, s.names, vtx[j], name);
      }
    }
  }

  lemma EarlierFork(site: Site)
    requires site.Valid() && LongPastFork(site)
    ensures PostLibcoinFork(site.env.testnet, site.Height())
  {
  }

  lemma UpdatedIsRecorded(log: seq<Logged>, names: map<Name, seq<NameIndex>>, tx: Tx, name: Name)
    requires exists x :: SpendsBack(log, names, tx, x, name)
    ensures NameHeight(names, name) >= 0
  {
  }

  lemma SpentTwice(log: seq<Logged>, names: map<Name, seq<NameIndex>>, name: Name, vtx: seq<Tx>, i: nat, x: nat, j: nat,
                   y: nat)
    requires 1 <= i < j < |vtx| && SpendsBack(log, names, vtx[i], x, name) && SpendsBack(log, names, vtx[j], y, name)
    requires vtx[i].vin[x] == vtx[j].vin[y]
    ensures !NoOutputTwice(vtx, |vtx|)
  {
    assert (i, x) != (j, y);
  }

  lemma PoolPending(site: Site, mem: Pool, txs: map<Hash, TxIndex>, next: Site, i: nat, name: Name)
    requires Placed(site, mem, txs, next) && PendingTracked(mem) && 1 <= i < |Tip(next.path).block.vtx|
    requires Registered(Tip(next.path).block.vtx[i]) == Some(name)
    ensures Tip(next.path).block.vtx[i].txid in mem.PendingOn(name)
  {
    hide Registered;
    assert FromPool(mem, Tip(next.path).block.vtx[i]);
  }

  // ----- the histories while the block is connected -----

  lemma RecordedIsRegistered(site: Site, c: Connected, tx: Tx)
    requires site.Valid() && PostLibcoinFork(site.env.testnet, site.Height()) && RecordedName(site, c, tx).Some?
    ensures RecordedName(site, c, tx) == Registered(tx)
  {
    RecordedIsUndone(site, c, tx);
    hide RecordedName, DecodeNameTx;
  }

  /** A name that no earlier transaction of the block registers has its old history. */
  lemma {:induction false} HistoryKept(site: Site, s: Indexes, n: nat, name: Name)
    requires site.Valid() && PostLibcoinFork(site.env.testnet, site.Height()) && n <= |Tip(site.path).block.vtx|
             && ConnectTxs(site, s, n).Ok?
    requires forall j ::
        0 <= j < n ==> Tip(site.path).block.vtx[j].IsCoinBase() || Registered(Tip(site.path).block.vtx[j]) != Some(name)
    ensures History(ConnectTxs(site, s, n).value.s.names, name) == History(s.names, name)
  {
    hide ConnectTx, Registered, RecordedName, TxPos, StoredValue;
    if n > 0 {
      HistoryKept(site, s, n - 1, name);
      var c, tx, pos := ConnectTxs(site, s, n - 1).value, Tip(site.path).block.vtx[n - 1], TxPos(Tip(site.path), n - 1);
      ConnectTxNames(site, c, tx, pos);
      if RecordedName(site, c, tx).Some? {
        RecordedIsRegistered(site, c, tx);
        NotCoinbase(site, c, tx);
      }
    }
  }

  lemma NotCoinbase(site: Site, c: Connected, tx: Tx)
    requires site.Valid() && RecordedName(site, c, tx).Some?
    ensures !tx.IsCoinBase()
  {
  }

  /** Once a transaction of the block has registered a name, its last entry is of this block. */
  lemma {:induction false} RegisteredHere(site: Site, s: Indexes, n: nat, i: nat)
    requires site.Valid() && PostLibcoinFork(site.env.testnet, site.Height())
    requires i < n <= |Tip(site.path).block.vtx| && ConnectTxs(site, s, n).Ok?
    requires !Tip(site.path).block.vtx[i].IsCoinBase() && Registered(Tip(site.path).block.vtx[i]).Some?
    ensures EntryHere(site, ConnectTxs(site, s, n).value.s.names, Registered(Tip(site.path).block.vtx[i]).value)
    decreases n
  {
    hide ConnectTx, Registered, RecordedName, TxPos, StoredValue;
    var c, tx, pos := ConnectTxs(site, s, n - 1).value, Tip(site.path).block.vtx[n - 1], TxPos(Tip(site.path), n - 1);
    ConnectTxNames(site, c, tx, pos);
    PositionHere(site, n - 1);
    if i < n - 1 {
      RegisteredHere(site, s, n - 1, i);
    } else {
      RegisteredIsRecorded(site, c, tx, pos);
    }
  }

  /** The last entry of the name points into the last block of the branch. */
  predicate EntryHere(site: Site, names: map<Name, seq<NameIndex>>, name: Name)
    requires site.Valid()
  {
    History(names, name) != [] && Back(names, name).nHeight == site.Height()
    && InBlock(Tip(site.path), Back(names, name).txPos)
  }

  lemma PositionHere(site: Site, i: nat)
    requires site.Valid() && i < |Tip(site.path).block.vtx|
    ensures InBlock(Tip(site.path), TxPos(Tip(site.path), i))
  {
  }

  lemma RegisteredIsRecorded(site: Site, c: Connected, tx: Tx, pos: DiskTxPos)
    requires site.Valid() && PostLibcoinFork(site.env.testnet, site.Height()) && ConnectTx(site, c, tx, pos).Ok?
    requires !tx.IsCoinBase() && Registered(tx).Some?
    ensures RecordedName(site, c, tx) == Registered(tx)
  {
    PastForkRecords(site, c, tx, pos);
    hide ConnectTx, RecordedName, DecodeNameTx;
  }

  /** A second transaction on such a name is refused: it cannot open the name, which has just been
      opened or updated, nor spend what the block itself added. */
  lemma RivalRefused(site: Site, names: map<Name, seq<NameIndex>>, tx: Tx, q: Inputs)
    requires site.Valid() && PostLibcoinFork(site.env.testnet, site.Height()) && |q.scripts| == |q.prevPos|
    requires Registered(tx).Some? && EntryHere(site, names, Registered(tx).value)
    requires var prev := ScanScripts(true, q.scripts, |q.scripts|);
             prev.found ==> !InBlock(Tip(site.path), q.prevPos[prev.index])
    ensures NameDecision(site, names, tx, q).Rejected?
  {
    hide ScanScripts, NetworkFee, NameNetFee, RelativeDepth, DecodeNameTx, HasNameOutput, CommitmentMatches;
  }

  // ----- the whole block -----

  /** The miner's depth test, one block later, is a comparison with the height in the index. */
  lemma UpdateInTime(site: Site, mem: Pool, s: Indexes, log: seq<Logged>, tx: Tx, a: Inputs)
    requires Charted(site, s, log) && PostLibcoinFork(site.env.testnet, site.Height())
    requires |a.scripts| == |a.prevPos| && MinerNameCheck(site, mem, s.names, tx, a)
    ensures (IsUpdate(tx) ==> PrevDepth(site, a) + 1 < ExpirationDepth(site.Height() + 1)) <==>
              InTime(s.names, tx, site.Height() + 1)
  {
    hide Charted, ScanScripts, RelativeDepth, NetworkFee, NameNetFee, HasNameOutput, DecodeNameTx;
    if IsUpdate(tx) {
      var d, prev := DecodeNameTx(tx, true), ScanScripts(true, a.scripts, |a.scripts|);
      assert d.good && prev.found && LastEntryIs(History(s.names, d.args[0]), a.prevPos[prev.index]);
      BackDepth(site, s, log, d.args[0], a.prevPos[prev.index], ExpirationDepth(site.Height()));
    }
  }

  predicate AllInTime(names: map<Name, seq<NameIndex>>, vtx: seq<Tx>, n: nat, height: nat)
    requires n <= |vtx|
  {
    forall j :: 1 <= j < n ==> InTime(names, vtx[j], height)
  }

  /** The j-th transaction registers no name that an earlier one of the block registers. */
  predicate NewName(vtx: seq<Tx>, j: nat)
    requires j < |vtx|
  {
    forall i :: 1 <= i < j && Registered(vtx[i]).Some? ==> Registered(vtx[i]) != Registered(vtx[j])
  }

  /** No two of the first `n` transactions register one name. */
  predicate NamesOnce(vtx: seq<Tx>, n: nat)
    requires n <= |vtx|
  {
    forall j :: 1 <= j < n ==> NewName(vtx, j)
  }

  /** A block in place, assembled past the fork on the best chain. */
  ghost predicate Mined(site: Site, mem: Pool, s: Indexes, next: Site, log: seq<Logged>, c: Assembly) {
    && Charted(site, s, log) && PostLibcoinFork(site.env.testnet, site.Height()) && Placed(site, mem, s.txs, next)
    && next.env.testnet == site.env.testnet && next.env.hash160 == site.env.hash160
    && Assembled(site, mem, s, Tip(next.path).block.vtx[1..], c)
  }

  lemma MinedFacts(site: Site, mem: Pool, s: Indexes, next: Site, log: seq<Logged>, c: Assembly)
    requires Mined(site, mem, s, next, log, c)
    ensures site.Valid() && next.Valid() && next.Height() == site.Height() + 1
    ensures PostLibcoinFork(site.env.testnet, site.Height()) && PostLibcoinFork(next.env.testnet, next.Height())
    ensures var vtx := Tip(next.path).block.vtx;
            vtx != [] && vtx[0].IsCoinBase() && forall j :: 1 <= j < |vtx| ==> !vtx[j].IsCoinBase()
    ensures forall b :: b in site.path ==> !InBlock(b, POOL_POS)
  {
    hide IndexOf, FilesExact, DistinctPlaces, Known, LogInPlace, OneScriptEach, Assembled, FreshTxids, DistinctTxids,
         OnFile, OldEntry, FromPool;
  }

  /** One transaction of the block: the hook accepts it exactly when it is in time and no earlier
      one registers its name. */
  lemma NextAccepted(site: Site, mem: Pool, s: Indexes, next: Site, log: seq<Logged>, c: Assembly, j: nat)
    requires Mined(site, mem, s, next, log, c) && 1 <= j < |Tip(next.path).block.vtx|
    requires next.Valid() && ConnectTxs(next, s, j).Ok?
    ensures var d, tx := ConnectTxs(next, s, j).value, Tip(next.path).block.vtx[j];
            var q := SpendInputs(next, d.s.txs, tx, |tx.vin|);
            q.Ok? && (NameDecision(next, d.s.names, tx, q.value).Ok? <==>
                        InTime(s.names, tx, next.Height()) && NewName(Tip(next.path).block.vtx, j))
  {
    hide Charted, Placed, Assembled, TakenBy, Refines, MinerInputs, MinerNameCheck, DecodeNameTx, Registered,
         CurrencyTxs, Overlay, ConnectTxs, SpendInputs, NameDecision, NamesAccepted, InTime, PrevDepth, ScanScripts,
         EntryHere;
    MinedFacts(site, mem, s, next, log, c);
    var vtx := Tip(next.path).block.vtx;
    var tx, d := vtx[j], ConnectTxs(next, s, j).value;
    var before, after := AssembledAt(site, mem, s, vtx[1..], c, j - 1);
    assert vtx[1..][..j - 1] == vtx[1..j] && vtx[1..][j - 1] == tx;
    TakenEnters(site, mem, s, before, tx, after);
    AssembledConnects(site, mem, s, next, j, before);
    NamesDecide(next, s, j);
    assert d.s.txs == CurrencyTxs(next, s.txs, j).value.txs;
    if NewName(vtx, j) {
      if Registered(tx).Some? {
        forall i | 0 <= i < j ensures vtx[i].IsCoinBase() || Registered(vtx[i]) != Registered(tx) {
        }
        HistoryKept(next, s, j, Registered(tx).value);
      }
      RegisteredHistory(tx, s.names, d.s.names);
      TakenNameAccepted(site, mem, s, next, j, before.testPool, tx, d.s.txs, d.s.names);
      UpdateInTime(site, mem, s, log, tx, MinerInputs(site, mem, s.txs, before.testPool, tx, |tx.vin|).value);
    } else {
      var i :| 1 <= i < j && Registered(vtx[i]).Some? && Registered(vtx[i]) == Registered(tx);
      RegisteredHere(next, s, j, i);
      TakenPrev(site, mem, s, next, j, before.testPool, tx, d.s.txs);
      RivalRefused(next, d.s.names, tx, SpendInputs(next, d.s.txs, tx, |tx.vin|).value);
    }
  }

  lemma RegisteredHistory(tx: Tx, names: map<Name, seq<NameIndex>>, now: map<Name, seq<NameIndex>>)
    requires Registered(tx).Some? ==> History(now, Registered(tx).value) == History(names, Registered(tx).value)
    ensures var d := DecodeNameTx(tx, true);
            tx.IsName() && d.good && Registers(d.op) ==> History(now, d.args[0]) == History(names, d.args[0])
  {
    hide DecodeNameTx;
  }

  lemma {:induction false} NamesDecided(site: Site, mem: Pool, s: Indexes, next: Site, log: seq<Logged>, c: Assembly,
                                        n: nat)
    requires Mined(site, mem, s, next, log, c) && next.Valid() && 0 < n <= |Tip(next.path).block.vtx|
    requires CurrencyTxs(next, s.txs, n).Ok?
    ensures var vtx := Tip(next.path).block.vtx;
            NamesAccepted(next, s, n) <==> AllInTime(s.names, vtx, n, next.Height()) && NamesOnce(vtx, n)
    decreases n
  {
    hide Mined, InTime, NewName, ConnectTxs, SpendInputs, NameDecision, CurrencyTx;
    MinedFacts(site, mem, s, next, log, c);
    if n > 1 {
      NamesDecided(site, mem, s, next, log, c, n - 1);
      NamesDecide(next, s, n - 1);
      if ConnectTxs(next, s, n - 1).Ok? {
        NextAccepted(site, mem, s, next, log, c, n - 1);
      }
    }
  }

  /** A block assembled past the fork from any pool: ConnectBlock accepts it exactly when CheckBlock
      does, every name it updates is still unexpired at its height, and no two of its transactions
      register one name. */
  lemma MinedBlockAccepted(site: Site, mem: Pool, s: Indexes, next: Site, c: Assembly, sites: seq<Site>)
    requires OnBestChain(site, s, sites) && forall k :: 0 <= k < |sites| ==> OwnBlockOnFile(sites[k])
    requires Placed(site, mem, s.txs, next) && PostLibcoinFork(site.env.testnet, site.Height())
    requires next.env.testnet == site.env.testnet && next.env.hash160 == site.env.hash160
    requires Assembled(site, mem, s, Tip(next.path).block.vtx[1..], c)
    requires SumOut(Tip(next.path).block.vtx[0].vout) == BlockValue(next.Height(), c.fees)
    ensures var vtx := Tip(next.path).block.vtx;
            ConnectBlock(next, s).Ok? <==>
              && CheckBlock(next.env, Tip(next.path).block, next.Height())
              && AllInTime(s.names, vtx, |vtx|, next.Height()) && NamesOnce(vtx, |vtx|)
  {
    hide *;
    SameVerify(site, mem, s.txs, next);
    PlacedBlock(site, mem, s.txs, next);
    ChartOf(site, s, sites);
    MinedBlockConnects(site, mem, s, next, c);
    assert Mined(site, mem, s, next, Log(site.path), c) by {
      MinedIf(site, mem, s, next, Log(site.path), c);
    }
    NamesDecided(site, mem, s, next, Log(site.path), c, |Tip(next.path).block.vtx|);
  }

  lemma PlacedBlock(site: Site, mem: Pool, txs: map<Hash, TxIndex>, next: Site)
    requires Placed(site, mem, txs, next)
    ensures next.Valid() && Tip(next.path).block.vtx != []
  {
  }

  lemma MinedIf(site: Site, mem: Pool, s: Indexes, next: Site, log: seq<Logged>, c: Assembly)
    requires Charted(site, s, log) && PostLibcoinFork(site.env.testnet, site.Height()) && Placed(site, mem, s.txs, next)
    requires next.env.testnet == site.env.testnet && next.env.hash160 == site.env.hash160
    requires Assembled(site, mem, s, Tip(next.path).block.vtx[1..], c)
    ensures Mined(site, mem, s, next, log, c)
  {
  }

  /** With complete pending names, and all unexpired names of the new rules, the second condition
      holds of itself. */
  lemma TrackedBlockAccepted(site: Site, mem: Pool, s: Indexes, next: Site, c: Assembly, sites: seq<Site>)
    requires OnBestChain(site, s, sites) && forall k :: 0 <= k < |sites| ==> OwnBlockOnFile(sites[k])
    requires Placed(site, mem, s.txs, next) && PendingTracked(mem) && LongPastFork(site)
    requires next.env.testnet == site.env.testnet && next.env.hash160 == site.env.hash160
    requires Assembled(site, mem, s, Tip(next.path).block.vtx[1..], c)
    requires SumOut(Tip(next.path).block.vtx[0].vout) == BlockValue(next.Height(), c.fees)
    ensures var vtx := Tip(next.path).block.vtx;
            && NamesOnce(vtx, |vtx|)
            && (ConnectBlock(next, s).Ok? <==>
                  CheckBlock(next.env, Tip(next.path).block, next.Height())
                  && AllInTime(s.names, vtx, |vtx|, next.Height()))
  {
    hide Placed, Assembled, OnBestChain, OwnBlockOnFile, LongPastFork, Registered, ConnectBlock, CheckBlock, InTime,
         PendingTracked, SumOut, BlockValue, Charted, NoOutputTwice, InputsAreEarlier, CurrencyTxs, NamesAccepted;
    SameVerify(site, mem, s.txs, next);
    PlacedBlock(site, mem, s.txs, next);
    ChartOf(site, s, sites);
    ChartedValid(site, s, Log(site.path));
    EarlierFork(site);
    MinedBlockAccepted(site, mem, s, next, c, sites);
    MinedBlockConnects(site, mem, s, next, c);
    var vtx := Tip(next.path).block.vtx;
    forall i, j | 1 <= i < j < |vtx| && Registered(vtx[i]).Some? ensures Registered(vtx[i]) != Registered(vtx[j]) {
      NoRivals(site, mem, s, next, Log(site.path), c, i, j);
    }
  }

  lemma ChartedValid(site: Site, s: Indexes, log: seq<Logged>)
    requires Charted(site, s, log)
    ensures site.Valid()
  {
  }
}
