/** Coins are conserved, and their total stays below MAX_MONEY (src/main.cpp, src/main.h). */
module Supply {
  import opened Common
  import opened ChainTypes
  import opened NameRules
  import opened Connect
  import opened Undo
  import opened ChainRun
  import opened TxLog
  import opened Owner

  // ----- the subsidy schedule -----

  /** Everything that blocks 1 to `height` may create. */
  function TotalSubsidy(height: nat): int {
    if height == 0 then 0 else TotalSubsidy(height - 1) + Subsidy(height)
  }

  lemma {:induction false} ShiftHalves(v: nat, k: nat)
    ensures ShiftRight(v, k) >= 2 * ShiftRight(v, k + 1) >= 0
    decreases k
  {
    if k > 0 {
      ShiftHalves(v / 2, k - 1);
    } else {
      assert ShiftRight(v, 1) == ShiftRight(v / 2, 0);
    }
  }

  /** Halving loses a fraction of a coin unit for the first time when era 10 begins. */
  lemma FirstLoss()
    ensures ShiftRight(50 * COIN, 9) == 9765625 && ShiftRight(50 * COIN, 10) == 4882812
  {
    assert ShiftRight(5000000000, 9) == 9765625;
    assert ShiftRight(5000000000, 10) == 4882812;
  }

  function Loss(era: nat): nat {
    if era >= 10 then 1 else 0
  }

  lemma EraLoss(k: nat)
    ensures ShiftRight(50 * COIN, k) >= 2 * ShiftRight(50 * COIN, k + 1) + Loss(k + 1) - Loss(k)
  {
    ShiftHalves(50 * COIN, k);
    FirstLoss();
  }

  /** What MAX_MONEY leaves when era `k` begins. */
  function EraCap(k: nat): int {
    210000 * (100 * COIN - 2 * ShiftRight(50 * COIN, k) - Loss(k))
  }

  lemma EraCapStep(k: nat)
    ensures EraCap(k) + 209999 * ShiftRight(50 * COIN, k) + ShiftRight(50 * COIN, k + 1) <= EraCap(k + 1)
  {
    EraLoss(k);
    hide ShiftRight;
  }

  lemma SubsidyOfEra(height: nat, k: nat, r: nat)
    requires height == 210000 * k + r && r < 210000
    ensures Subsidy(height) == ShiftRight(50 * COIN, k)
  {
    hide ShiftRight;
    assert height / 210000 == k;
  }

  /** After `r` blocks of era `k`, the total is short of MAX_MONEY by what the eras from `k` on
      could pay without rounding, and by the first rounding loss. */
  lemma {:induction false} EraBound(height: nat, k: nat, r: nat, s: int)
    requires height == 210000 * k + r && r < 210000 && s == ShiftRight(50 * COIN, k)
    ensures TotalSubsidy(height) <= EraCap(k) + r * s
    decreases height
  {
    hide ShiftRight, EraCap, Subsidy;
    SubsidyOfEra(height, k, r);
    if r > 0 {
      EraBound(height - 1, k, r - 1, s);
      assert (r - 1) * s + s == r * s;
    } else if height > 0 {
      var t := ShiftRight(50 * COIN, k - 1);
      EraBound(height - 1, k - 1, 209999, t);
      EraCapStep(k - 1);
    } else {
      NothingAtFirst();
    }
  }

  lemma NothingAtFirst()
    ensures EraCap(0) >= 0
  {
    assert ShiftRight(50 * COIN, 0) == 50 * COIN;
  }

  lemma {:induction false} EarlyErasPay(k: nat)
    requires k <= 9
    ensures ShiftRight(50 * COIN, k) > 0
    decreases 9 - k
  {
    if k == 9 {
      FirstLoss();
    } else {
      EarlyErasPay(k + 1);
      ShiftHalves(50 * COIN, k);
    }
  }

  /** The schedule never issues as much as MAX_MONEY, at any height. */
  lemma SupplyBound(height: nat)
    ensures 0 <= TotalSubsidy(height) < MAX_MONEY == 2100000000000000
  {
    hide ShiftRight, TotalSubsidy;
    var k, r := height / 210000, height % 210000;
    var s := ShiftRight(50 * COIN, k);
    EraBound(height, k, r, s);
    SubsidyNonnegative(height);
    Product(r, 210000, s);
    if k < 10 {
      EarlyErasPay(k);
    }
  }

  lemma {:induction false} SubsidyNonnegative(height: nat)
    ensures TotalSubsidy(height) >= 0
  {
    if height > 0 {
      SubsidyNonnegative(height - 1);
    }
  }

  lemma Doubled(v: nat, r: nat, p: nat)
    requires r * p <= v / 2 < (r + 1) * p
    ensures r * (2 * p) <= v < (r + 1) * (2 * p)
  {
    Twice(r, p);
    Twice(r + 1, p);
  }

  lemma Twice(a: nat, b: nat)
    ensures a * (2 * b) == 2 * (a * b)
  {
  }

  /** Shifting right by `k` divides by 2^k. */
  lemma {:induction false} ShiftExact(v: nat, k: nat)
    ensures ShiftRight(v, k) >= 0 && ShiftRight(v, k) * Pow2(k) <= v < (ShiftRight(v, k) + 1) * Pow2(k)
    decreases k
  {
    if k > 0 {
      ShiftExact(v / 2, k - 1);
      assert Pow2(k) == 2 * Pow2(k - 1) && ShiftRight(v, k) == ShiftRight(v / 2, k - 1);
      hide Pow2, ShiftRight;
      Doubled(v, ShiftRight(v / 2, k - 1), Pow2(k - 1));
    }
  }

  lemma Product(a: int, b: int, p: nat)
    requires a <= b
    ensures a * p <= b * p
  {
  }

  lemma AtMostShift(v: nat, k: nat, x: int)
    ensures x <= ShiftRight(v, k) <==> x * Pow2(k) <= v
  {
    ShiftExact(v, k);
    hide Pow2, ShiftRight;
    if x <= ShiftRight(v, k) {
      Product(x, ShiftRight(v, k), Pow2(k));
    } else {
      Product(ShiftRight(v, k) + 1, x, Pow2(k));
    }
  }

  /** The first transaction, and no other, is a coinbase; no two have one id; each has inputs and
      outputs, with amounts from zero to 21 million coins, also in total; and behind the coinbase
      every input names a previous output. */
  predicate Structured(vtx: seq<Tx>) {
    && vtx != []
    && (forall i :: 0 <= i < |vtx| ==> (vtx[i].IsCoinBase() <==> i == 0))
    && (forall i, j :: 0 <= i < j < |vtx| ==> vtx[i].txid != vtx[j].txid)
    && (forall i ::
          0 <= i < |vtx| ==> vtx[i].vin != [] && vtx[i].vout != [] && 0 <= SumOut(vtx[i].vout) <= 2100000000000000)
    && (forall i, k :: 0 <= i < |vtx| && 0 <= k < |vtx[i].vout| ==> 0 <= vtx[i].vout[k].nValue <= 2100000000000000)
    && (forall i, k :: 1 <= i < |vtx| && 0 <= k < |vtx[i].vin| ==> vtx[i].vin[k] != OutPoint(0, 0xffff_ffff))
  }

  lemma CheckBlockExact(env: Env, block: Block, height: nat)
    ensures CheckBlock(env, block, height) <==> Structured(block.vtx) && env.blockChecks(block, height)
  {
    hide SumOut;
    var vtx := block.vtx;
    if CheckBlock(env, block, height) {
      forall i | 0 <= i < |vtx| ensures CheckTransaction(vtx[i]) && (vtx[i].IsCoinBase() <==> i == 0) {
      }
    }
  }

  /** A block connects exactly when its structure is right, its transactions connect, and its coinbase
      claims, on top of their fees, at most 50 coins halved once per 210000 blocks. */
  lemma ConnectBlockExact(site: Site, s: Indexes)
    requires site.Valid()
    ensures ConnectBlock(site, s).Ok? <==>
              var vtx := Tip(site.path).block.vtx;
              && Structured(vtx) && site.env.blockChecks(Tip(site.path).block, site.Height())
              && ConnectTxs(site, s, |vtx|).Ok?
              && var fees := ConnectTxs(site, s, |vtx|).value.fees;
                 (SumOut(vtx[0].vout) - fees) * Pow2(site.Height() / 210000) <= 5000000000
  {
    CheckBlockExact(site.env, Tip(site.path).block, site.Height());
    hide ConnectTxs, SumOut, ShiftRight, Pow2, CheckBlock, Structured;
    var vtx := Tip(site.path).block.vtx;
    if CheckBlock(site.env, Tip(site.path).block, site.Height()) && ConnectTxs(site, s, |vtx|).Ok? {
      AtMostShift(50 * COIN, site.Height() / 210000, SumOut(vtx[0].vout) - ConnectTxs(site, s, |vtx|).value.fees);
    }
  }

  // ----- the value of the unspent outputs -----

  /** Value of those of the first `n` outputs of a transaction that the index has as unspent. */
  function UnspentOutputs(txs: map<Hash, TxIndex>, tx: Tx, n: nat): int
    requires n <= |tx.vout|
  {
    if n == 0 then 0
    else UnspentOutputs(txs, tx, n - 1) + if IsSpent(txs, OutPoint(tx.txid, n - 1)) then 0 else tx.vout[n - 1].nValue
  }

  /** Value of all unspent outputs of the branch. */
  function Unspent(txs: map<Hash, TxIndex>, log: seq<Logged>): int {
    if log == [] then 0
    else
      var e := log[|log| - 1];
      Unspent(txs, log[..|log| - 1]) + UnspentOutputs(txs, e.tx, |e.tx.vout|)
  }

  lemma {:induction false} UnspentOutputsAfter(a: map<Hash, TxIndex>, b: map<Hash, TxIndex>, tx: Tx, n: nat,
                                               o: OutPoint)
    requires n <= |tx.vout| && !IsSpent(a, o)
    requires forall p :: IsSpent(b, p) <==> IsSpent(a, p) || p == o
    ensures UnspentOutputs(b, tx, n)
              == UnspentOutputs(a, tx, n) - if o.hash == tx.txid && o.n < n then tx.vout[o.n].nValue else 0
  {
    if n > 0 {
      hide IsSpent;
      UnspentOutputsAfter(a, b, tx, n - 1, o);
    }
  }

  ghost predicate DistinctLogged(log: seq<Logged>) {
    forall i, j :: 0 <= i < j < |log| ==> log[i].tx.txid != log[j].tx.txid
  }

  /** Spending one output lowers the total by exactly its value. */
  lemma {:induction false} UnspentAfter(a: map<Hash, TxIndex>, b: map<Hash, TxIndex>, log: seq<Logged>, o: OutPoint,
                                        k: nat)
    requires DistinctLogged(log) && k < |log| && log[k].tx.txid == o.hash && o.n < |log[k].tx.vout| && !IsSpent(a, o)
    requires forall p :: IsSpent(b, p) <==> IsSpent(a, p) || p == o
    ensures Unspent(b, log) == Unspent(a, log) - log[k].tx.vout[o.n].nValue
    decreases |log|
  {
    hide IsSpent;
    var front, e := log[..|log| - 1], log[|log| - 1];
    UnspentOutputsAfter(a, b, e.tx, |e.tx.vout|, o);
    if k < |front| {
      UnspentAfter(a, b, front, o, k);
    } else {
      UnspentUntouched(a, b, front, o);
    }
  }

  lemma {:induction false} UnspentUntouched(a: map<Hash, TxIndex>, b: map<Hash, TxIndex>, log: seq<Logged>, o: OutPoint)
    requires !IsSpent(a, o) && forall k :: 0 <= k < |log| ==> log[k].tx.txid != o.hash
    requires forall p :: IsSpent(b, p) <==> IsSpent(a, p) || p == o
    ensures Unspent(b, log) == Unspent(a, log)
    decreases |log|
  {
    hide IsSpent;
    if log != [] {
      var e := log[|log| - 1];
      UnspentOutputsAfter(a, b, e.tx, |e.tx.vout|, o);
      UnspentUntouched(a, b, log[..|log| - 1], o);
    }
  }

  lemma {:induction false} SameBitsSameValue(a: map<Hash, TxIndex>, b: map<Hash, TxIndex>, log: seq<Logged>)
    requires forall k, n: nat ::
               0 <= k < |log| ==> (IsSpent(a, OutPoint(log[k].tx.txid, n)) <==> IsSpent(b, OutPoint(log[k].tx.txid, n)))
    ensures Unspent(a, log) == Unspent(b, log)
    decreases |log|
  {
    hide IsSpent;
    if log != [] {
      var front := log[..|log| - 1];
      assert forall k :: 0 <= k < |front| ==> front[k] == log[k];
      SameBitsSameValue(a, b, front);
      SameOutputs(a, b, log[|log| - 1].tx, |log[|log| - 1].tx.vout|);
    }
  }

  lemma {:induction false} SameOutputs(a: map<Hash, TxIndex>, b: map<Hash, TxIndex>, tx: Tx, n: nat)
    requires n <= |tx.vout|
    requires forall m: nat :: IsSpent(a, OutPoint(tx.txid, m)) <==> IsSpent(b, OutPoint(tx.txid, m))
    ensures UnspentOutputs(a, tx, n) == UnspentOutputs(b, tx, n)
  {
    hide IsSpent;
    if n > 0 {
      SameOutputs(a, b, tx, n - 1);
    }
  }

  // ----- one transaction -----

  /** nValueIn is exactly what the inputs take out of the unspent total. */
  lemma {:induction false} InputsTakeValue(site: Site, txs: map<Hash, TxIndex>, tx: Tx, i: nat, log: seq<Logged>)
    requires i <= |tx.vin| && SpendInputs(site, txs, tx, i).Ok?
    requires IndexOf(txs, log) && DistinctLogged(log) && FilesExact(site.env, log)
    ensures var a := SpendInputs(site, txs, tx, i).value;
            Unspent(a.txs, log) == Unspent(txs, log) - a.valueIn
  {
    if i > 0 {
      InputsTakeValue(site, txs, tx, i - 1, log);
      var a := SpendInputs(site, txs, tx, i - 1).value;
      var b := SpendInputs(site, txs, tx, i).value;
      var o := tx.vin[i - 1];
      SpendInputsEffect(site, txs, tx, i - 1);
      var k := InputSpends(site, txs, tx, i, log);
      SetSpentEffect(a.txs, o, true);
      hide SpendInputs, IsSpent, HasOutput, SetSpent, IndexOf, FilesExact, DistinctLogged;
      UnspentAfter(a.txs, b.txs, log, o, k);
    }
  }

  /** The last of the first `i` inputs: which logged output it spends, and what it adds. */
  lemma InputSpends(site: Site, txs: map<Hash, TxIndex>, tx: Tx, i: nat, log: seq<Logged>) returns (k: nat)
    requires 0 < i <= |tx.vin| && SpendInputs(site, txs, tx, i).Ok?
    requires IndexOf(txs, log) && FilesExact(site.env, log)
    ensures var a := SpendInputs(site, txs, tx, i - 1).value;
            var b := SpendInputs(site, txs, tx, i).value;
            var o := tx.vin[i - 1];
            && HasOutput(a.txs, o) && !IsSpent(a.txs, o) && b.txs == SetSpent(a.txs, o, true)
            && k < |log| && log[k].tx.txid == o.hash && o.n < |log[k].tx.vout|
            && b.valueIn == a.valueIn + log[k].tx.vout[o.n].nValue
  {
    SpendInputsEffect(site, txs, tx, i - 1);
    k :| 0 <= k < |log| && log[k].tx.txid == tx.vin[i - 1].hash;
    hide Spends;
    assert txs[log[k].tx.txid].pos == log[k].pos;
  }

  lemma {:induction false} NewOutputsUnspent(txs: map<Hash, TxIndex>, tx: Tx, n: nat)
    requires n <= |tx.vout| && forall m: nat :: !IsSpent(txs, OutPoint(tx.txid, m))
    ensures UnspentOutputs(txs, tx, n) == SumOut(tx.vout[..n])
  {
    hide IsSpent;
    if n > 0 {
      NewOutputsUnspent(txs, tx, n - 1);
      assert tx.vout[..n][..n - 1] == tx.vout[..n - 1];
    }
  }

  /** Adding the new transaction's entry adds the value of its outputs. */
  lemma AddTakesNothing(spent: map<Hash, TxIndex>, log: seq<Logged>, e: Logged)
    requires forall k :: 0 <= k < |log| ==> log[k].tx.txid != e.tx.txid
    ensures Unspent(AddTxIndex(spent, e.tx, e.pos), log + [e]) == Unspent(spent, log) + SumOut(e.tx.vout)
  {
    var after := AddTxIndex(spent, e.tx, e.pos);
    forall o: OutPoint | o.hash != e.tx.txid ensures IsSpent(after, o) == IsSpent(spent, o) {}
    forall m: nat ensures !IsSpent(after, OutPoint(e.tx.txid, m)) {}
    hide IsSpent, AddTxIndex;
    SameBitsSameValue(after, spent, log);
    NewOutputsUnspent(after, e.tx, |e.tx.vout|);
    assert e.tx.vout[..|e.tx.vout|] == e.tx.vout;
    assert (log + [e])[..|log|] == log;
  }

  /** What one transaction does to the unspent total: a fee leaves it, a coinbase enters it. */
  lemma TxConserves(site: Site, c: Connected, tx: Tx, pos: DiskTxPos, log: seq<Logged>, height: nat)
    requires site.Valid() && ConnectTx(site, c, tx, pos).Ok?
    requires IndexOf(c.s.txs, log) && DistinctLogged(log) && FilesExact(site.env, log) && tx.txid !in c.s.txs
    ensures var d := ConnectTx(site, c, tx, pos).value;
            Unspent(d.s.txs, log + [Logged(tx, pos, height)])
              == Unspent(c.s.txs, log) - (d.fees - c.fees) + if tx.IsCoinBase() then SumOut(tx.vout) else 0
  {
    forall k | 0 <= k < |log| ensures log[k].tx.txid != tx.txid {
      assert log[k].tx.txid in c.s.txs;
    }
    var e := Logged(tx, pos, height);
    if tx.IsCoinBase() {
      AddTakesNothing(c.s.txs, log, e);
    } else {
      var a := SpendInputs(site, c.s.txs, tx, |tx.vin|).value;
      hide IndexOf, DistinctLogged, FilesExact, NameDecision;
      InputsTakeValue(site, c.s.txs, tx, |tx.vin|, log);
      AddTakesNothing(a.txs, log, e);
    }
  }

  // ----- one block -----

  ghost predicate OnlyFirstIsCoinbase(vtx: seq<Tx>) {
    vtx != [] && forall i :: 0 <= i < |vtx| ==> (vtx[i].IsCoinBase() <==> i == 0)
  }

  lemma BlockPays(site: Site, before: Indexes)
    requires site.Valid() && ConnectBlock(site, before).Ok?
    ensures var vtx := Tip(site.path).block.vtx;
            && OnlyFirstIsCoinbase(vtx)
            && ConnectTxs(site, before, |vtx|).Ok?
            && SumOut(vtx[0].vout) <= Subsidy(site.Height()) + ConnectTxs(site, before, |vtx|).value.fees
  {
    hide ConnectTxs, Subsidy;
  }

  lemma DistinctLoggedStep(txs: map<Hash, TxIndex>, log: seq<Logged>, e: Logged)
    requires IndexOf(txs, log) && DistinctLogged(log) && e.tx.txid !in txs
    ensures DistinctLogged(log + [e])
  {
    hide Spends;
    forall k | 0 <= k < |log| ensures log[k].tx.txid != e.tx.txid {
      assert log[k].tx.txid in txs;
    }
  }

  lemma {:induction false} TxsConserve(site: Site, before: Indexes, prefix: Chain, i: nat)
    requires BlockStart(site, before, prefix) && i <= |Tip(site.path).block.vtx|
    requires OnlyFirstIsCoinbase(Tip(site.path).block.vtx) && DistinctLogged(Log(prefix))
    ensures ConnectTxs(site, before, i).Ok? && DistinctLogged(MidLog(prefix, site.path, i))
    ensures var c := ConnectTxs(site, before, i).value;
            Unspent(c.s.txs, MidLog(prefix, site.path, i))
              == Unspent(before.txs, Log(prefix)) - c.fees
                + if i == 0 then 0 else SumOut(Tip(site.path).block.vtx[0].vout)
  {
    hide BlockStart, ConnectTx, DistinctLogged, Unspent, SumOut;
    if i == 0 {
      assert MidLog(prefix, site.path, 0) == Log(prefix);
    } else {
      hide MidLog;
      TxsConserve(site, before, prefix, i - 1);
      MidFacts(site, before, prefix, i - 1);
      MidBookkeeping(site, before, prefix, i - 1);
      MidLogNext(prefix, site.path, i - 1);
      var c, done := ConnectTxs(site, before, i - 1).value, MidLog(prefix, site.path, i - 1);
      var tx, pos := Tip(site.path).block.vtx[i - 1], TxPos(Tip(site.path), i - 1);
      assert IndexOf(c.s.txs, done);
      hide IndexOf, Bookkeeping, FilesExact, ConnectTxs, Unrecorded;
      TxConserves(site, c, tx, pos, done, site.Height());
      DistinctLoggedStep(c.s.txs, done, Logged(tx, pos, site.Height()));
    }
  }

  // ----- the whole branch -----

  lemma {:induction false} BuiltConserves(sites: seq<Site>, testnet: bool, chain: Chain, s: Indexes)
    requires Built(sites, testnet, chain, s) && SitesExact(sites, Log(chain))
    ensures DistinctLogged(Log(chain)) && Unspent(s.txs, Log(chain)) <= TotalSubsidy(|chain| - 1)
    decreases |sites|
  {
    if sites == [] {
      assert Log(chain) == [];
    } else {
      hide ConnectBlock, ConnectTxs, Built, Build, FreshBlock, BlockStart, Bookkeeping, FilesExact, DistinctLogged,
           Unspent, SumOut, Subsidy;
      BuiltSplit(sites, testnet, chain, s);
      var front, prefix := sites[..|sites| - 1], chain[..|chain| - 1];
      var before, site := Build(front).value, sites[|sites| - 1];
      var n := |Tip(chain).block.vtx|;
      assert Log(chain) == MidLog(prefix, chain, n) && Log(prefix) <= Log(chain);
      assert FilesExact(site.env, Log(chain));
      SitesExactFront(sites, Log(prefix), Log(chain));
      hide MidLog, SitesExact, Log;
      BuiltConserves(front, testnet, prefix, before);
      BuiltBookkeeping(front, testnet, prefix, before);
      BuiltStart(sites, testnet, chain, s);
      BlockPays(site, before);
      TxsConserve(site, before, prefix, n);
    }
  }

  lemma BuiltBookkeeping(sites: seq<Site>, testnet: bool, chain: Chain, s: Indexes)
    requires Built(sites, testnet, chain, s) && SitesExact(sites, Log(chain))
    ensures Bookkeeping(testnet, Log(chain), s, |chain| - 1)
  {
    hide *;
    OwnersBuilt(sites, testnet, chain, s);
  }

  /** On every accepted branch the unspent outputs are worth no more than the subsidies of its
      blocks, hence less than MAX_MONEY: no fee, burnt or claimed, adds to them. */
  lemma Conservation(sites: seq<Site>, testnet: bool, chain: Chain, s: Indexes)
    requires Built(sites, testnet, chain, s) && SitesExact(sites, Log(chain))
    ensures Unspent(s.txs, Log(chain)) <= TotalSubsidy(|chain| - 1) < MAX_MONEY == 2100000000000000
  {
    assert |chain| >= 1;
    hide *;
    BuiltConserves(sites, testnet, chain, s);
    SupplyBound(|chain| - 1);
  }
}
