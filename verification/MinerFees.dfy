/** The fees of an assembled block come out of unspent outputs, so they stay in the money range
    (src/main.cpp). */
module MinerFees {
  import opened Common
  import opened ChainTypes
  import opened NameRules
  import opened Connect
  import opened Undo
  import opened ChainRun
  import opened TxLog
  import opened Owner
  import opened Supply
  import opened TestPool

  /** The node that assembles a block: its databases are those of its best chain, its files hold
      the transactions of that chain, and no block is stored at the pool's pseudo position. */
  ghost predicate OnBestChain(site: Site, s: Indexes, sites: seq<Site>) {
    && site.Valid()
    && (exists t :: Built(sites, site.env.testnet, site.path, t) && Same(s, t))
    && SitesExact(sites, Log(site.path)) && FilesExact(site.env, Log(site.path))
    && forall b :: b in site.path ==> !InBlock(b, POOL_POS)
  }

  lemma BestChainValid(site: Site, s: Indexes, sites: seq<Site>)
    requires OnBestChain(site, s, sites)
    ensures site.Valid()
  {
  }

  // ----- what the entries of the overlaid index stand for -----

  /** The transaction that an input finds under `h`: one of the pool or one of the files. */
  predicate Shows(site: Site, mem: Pool, h: Hash, pos: DiskTxPos, tx: Tx) {
    && tx.txid == h
    && if pos == POOL_POS then h in mem.txs ==> mem.txs[h] == tx else pos in site.env.disk ==> site.env.disk[pos] == tx
  }

  ghost predicate Shown(site: Site, mem: Pool, h: Hash, pos: DiskTxPos, ledger: seq<Logged>) {
    exists k :: 0 <= k < |ledger| && Shows(site, mem, h, pos, ledger[k].tx)
  }

  ghost predicate AllInRange(ledger: seq<Logged>) {
    forall k :: 0 <= k < |ledger| ==> OutputsInRange(ledger[k].tx.vout)
  }

  /** One transaction for every entry of the index. */
  ghost predicate Ledger(site: Site, mem: Pool, v: map<Hash, TxIndex>, ledger: seq<Logged>) {
    && DistinctLogged(ledger) && AllInRange(ledger)
    && forall h :: h in v ==> Shown(site, mem, h, v[h].pos, ledger)
  }

  lemma {:induction false} OutputsWorth(txs: map<Hash, TxIndex>, tx: Tx, n: nat)
    requires OutputsInRange(tx.vout) && n <= |tx.vout|
    ensures UnspentOutputs(txs, tx, n) >= 0
  {
    hide IsSpent;
    if n > 0 {
      OutputsWorth(txs, tx, n - 1);
    }
  }

  lemma {:induction false} LedgerWorth(txs: map<Hash, TxIndex>, ledger: seq<Logged>)
    requires AllInRange(ledger)
    ensures Unspent(txs, ledger) >= 0
    decreases |ledger|
  {
    if ledger != [] {
      var e := ledger[|ledger| - 1];
      LedgerWorth(txs, ledger[..|ledger| - 1]);
      OutputsWorth(txs, e.tx, |e.tx.vout|);
    }
  }

  // ----- spending -----

  lemma InputTakes(site: Site, mem: Pool, txs: map<Hash, TxIndex>, tx: Tx, i: nat, a: Inputs, ledger: seq<Logged>)
    requires i < |tx.vin| && MinerInput(site, mem, txs, tx, i, a).Ok? && Ledger(site, mem, Overlay(txs, a.txs), ledger)
    ensures var r := MinerInput(site, mem, txs, tx, i, a).value;
            && Ledger(site, mem, Overlay(txs, r.txs), ledger)
            && Unspent(Overlay(txs, r.txs), ledger) == Unspent(Overlay(txs, a.txs), ledger) - (r.valueIn - a.valueIn)
  {
    hide RelativeDepth, Overlay, DistinctLogged, AllInRange, Unspent, SetSpent;
    var o, v := tx.vin[i], Overlay(txs, a.txs);
    OverlayEntry(txs, a.txs, o);
    var r := MinerInput(site, mem, txs, tx, i, a).value;
    assert HasOutput(v, o) && !IsSpent(v, o) && Overlay(txs, r.txs) == SetSpent(v, o, true);
    var k :| 0 <= k < |ledger| && Shows(site, mem, o.hash, v[o.hash].pos, ledger[k].tx);
    assert o.n < |ledger[k].tx.vout| && r.valueIn == a.valueIn + ledger[k].tx.vout[o.n].nValue;
    SetSpentEffect(v, o, true);
    UnspentAfter(v, SetSpent(v, o, true), ledger, o, k);
    SpentStillShown(site, mem, v, o, ledger);
  }

  lemma SpentStillShown(site: Site, mem: Pool, v: map<Hash, TxIndex>, o: OutPoint, ledger: seq<Logged>)
    requires HasOutput(v, o) && Ledger(site, mem, v, ledger)
    ensures Ledger(site, mem, SetSpent(v, o, true), ledger)
  {
    hide Shown, DistinctLogged, AllInRange;
  }

  lemma {:induction false} InputsTake(site: Site, mem: Pool, txs: map<Hash, TxIndex>, testPool: map<Hash, TxIndex>,
                                      tx: Tx, i: nat, ledger: seq<Logged>)
    requires i <= |tx.vin| && MinerInputs(site, mem, txs, testPool, tx, i).Ok?
             && Ledger(site, mem, Overlay(txs, testPool), ledger)
    ensures var r := MinerInputs(site, mem, txs, testPool, tx, i).value;
            && Ledger(site, mem, Overlay(txs, r.txs), ledger)
            && Unspent(Overlay(txs, r.txs), ledger) == Unspent(Overlay(txs, testPool), ledger) - r.valueIn
  {
    hide MinerInput, Overlay, Ledger, Unspent;
    if i > 0 {
      InputsTake(site, mem, txs, testPool, tx, i - 1, ledger);
      InputTakes(site, mem, txs, tx, i - 1, MinerInputs(site, mem, txs, testPool, tx, i - 1).value, ledger);
    }
  }

  // ----- entering the test pool -----

  function Without(ledger: seq<Logged>, h: Hash): seq<Logged> {
    if ledger == [] then []
    else
      var e := ledger[|ledger| - 1];
      Without(ledger[..|ledger| - 1], h) + if e.tx.txid == h then [] else [e]
  }

  lemma {:induction false} WithoutKeeps(ledger: seq<Logged>, h: Hash)
    requires DistinctLogged(ledger) && AllInRange(ledger)
    ensures var w := Without(ledger, h);
            && DistinctLogged(w) && AllInRange(w)
            && (forall e :: e in w <==> e in ledger && e.tx.txid != h)
    decreases |ledger|
  {
    if ledger != [] {
      var front, e := ledger[..|ledger| - 1], ledger[|ledger| - 1];
      WithoutKeeps(front, h);
      var w := Without(front, h);
      assert ledger == front + [e];
      forall i | 0 <= i < |w| ensures w[i].tx.txid != e.tx.txid {
        assert w[i] in front;
      }
      forall i | 0 <= i < |w| ensures OutputsInRange(w[i].tx.vout) {
        assert w[i] in front;
      }
    }
  }

  lemma {:induction false} WithoutWorthLess(txs: map<Hash, TxIndex>, ledger: seq<Logged>, h: Hash)
    requires AllInRange(ledger)
    ensures Unspent(txs, Without(ledger, h)) <= Unspent(txs, ledger)
    decreases |ledger|
  {
    if ledger != [] {
      var front, e := ledger[..|ledger| - 1], ledger[|ledger| - 1];
      WithoutWorthLess(txs, front, h);
      OutputsWorth(txs, e.tx, |e.tx.vout|);
      var w := Without(front, h);
      assert (w + [e])[..|w|] == w && w + [] == w;
    }
  }

  /** A transaction that enters the test pool replaces whatever had its hash. */
  lemma EnterPool(site: Site, mem: Pool, v: map<Hash, TxIndex>, tx: Tx, ledger: seq<Logged>)
    returns (after: seq<Logged>)
    requires Ledger(site, mem, v, ledger) && FromPool(mem, tx) && OutputsInRange(tx.vout)
    ensures Ledger(site, mem, AddTxIndex(v, tx, POOL_POS), after)
    ensures Unspent(AddTxIndex(v, tx, POOL_POS), after) <= Unspent(v, ledger) + SumOut(tx.vout)
  {
    hide Unspent, OutputsInRange, Without;
    var w, e := Without(ledger, tx.txid), Logged(tx, POOL_POS, 0);
    WithoutKeeps(ledger, tx.txid);
    forall k | 0 <= k < |w| ensures w[k].tx.txid != tx.txid {
      assert w[k] in w;
    }
    AddTakesNothing(v, w, e);
    WithoutWorthLess(v, ledger, tx.txid);
    after := w + [e];
    var u := AddTxIndex(v, tx, POOL_POS);
    forall h | h in u ensures Shown(site, mem, h, u[h].pos, after) {
      if h == tx.txid {
        assert Shows(site, mem, h, POOL_POS, after[|w|].tx);
      } else {
        var k :| 0 <= k < |ledger| && Shows(site, mem, h, v[h].pos, ledger[k].tx);
        assert ledger[k] in w;
        var j :| 0 <= j < |w| && w[j] == ledger[k];
        assert after[j] == w[j];
      }
    }
  }

  // ----- the fees -----

  /** What has been paid in fees is missing from the unspent outputs, which were worth no more
      than `total`. */
  ghost predicate Solvent(site: Site, mem: Pool, s: Indexes, c: Assembly, total: int) {
    c.fees >= 0 && exists ledger :: Backs(site, mem, s, c, total, ledger)
  }

  ghost predicate Backs(site: Site, mem: Pool, s: Indexes, c: Assembly, total: int, ledger: seq<Logged>) {
    var v := Overlay(s.txs, c.testPool);
    Ledger(site, mem, v, ledger) && Unspent(v, ledger) + c.fees <= total
  }

  lemma SolventInRange(site: Site, mem: Pool, s: Indexes, c: Assembly, total: int)
    requires Solvent(site, mem, s, c, total) && total <= MAX_MONEY
    ensures MoneyRange(c.fees)
  {
    hide AllInRange, Unspent, Overlay;
    var ledger :| Backs(site, mem, s, c, total, ledger);
    LedgerWorth(Overlay(s.txs, c.testPool), ledger);
  }

  lemma TakenStaysSolvent(site: Site, mem: Pool, s: Indexes, c: Assembly, tx: Tx, a: Inputs, ledger: seq<Logged>,
                          total: int)
    requires MinerInputs(site, mem, s.txs, c.testPool, tx, |tx.vin|) == Ok(a) && c.fees >= 0 && total <= MAX_MONEY
    requires Backs(site, mem, s, c, total, ledger)
    requires FromPool(mem, tx) && OutputsInRange(tx.vout) && a.valueIn - SumOut(tx.vout) >= 0
    ensures var d :=
              Assembly(a.txs[tx.txid := TxIndex(POOL_POS, NoneSpent(|tx.vout|))], c.fees + a.valueIn - SumOut(tx.vout));
            Solvent(site, mem, s, d, total) && MoneyRange(d.fees)
  {
    hide MinerInputs, Overlay, Unspent, Ledger, OutputsInRange;
    InputsTake(site, mem, s.txs, c.testPool, tx, |tx.vin|, ledger);
    var entry := TxIndex(POOL_POS, NoneSpent(|tx.vout|));
    OverlayUpdate(s.txs, a.txs, tx.txid, entry);
    var after := EnterPool(site, mem, Overlay(s.txs, a.txs), tx, ledger);
    var d := Assembly(a.txs[tx.txid := entry], c.fees + a.valueIn - SumOut(tx.vout));
    assert Backs(site, mem, s, d, total, after);
    SolventInRange(site, mem, s, d, total);
  }

  /** The total of fees never leaves the money range: the test in ConnectInputs is never the
      reason to pass a transaction over. */
  lemma FeesNeverOverflow(site: Site, mem: Pool, s: Indexes, minFee: int, c: Assembly, tx: Tx, total: int)
    requires site.Valid() && Solvent(site, mem, s, c, total) && total <= MAX_MONEY && FromPool(mem, tx)
    ensures match MinerConnect(site, mem, s, minFee, c, tx)
            case Skipped => true
            case Overflowed(_) => false
            case Taken(d) => Solvent(site, mem, s, d, total)
  {
    hide MinerInputs, MinerNameCheck, OutputsInRange, Backs, Solvent;
    match MinerInputs(site, mem, s.txs, c.testPool, tx, |tx.vin|) {
      case Rejected =>
      case Ok(a) =>
        if OutputsInRange(tx.vout) && a.valueIn - SumOut(tx.vout) >= 0 {
          var ledger := BackingOf(site, mem, s, c, total);
          TakenStaysSolvent(site, mem, s, c, tx, a, ledger, total);
        }
    }
  }

  lemma BackingOf(site: Site, mem: Pool, s: Indexes, c: Assembly, total: int) returns (ledger: seq<Logged>)
    requires Solvent(site, mem, s, c, total)
    ensures c.fees >= 0 && Backs(site, mem, s, c, total, ledger)
  {
    ledger :| Backs(site, mem, s, c, total, ledger);
  }

  // ----- at the start -----

  lemma {:induction false} BuiltInRange(sites: seq<Site>, testnet: bool, chain: Chain, s: Indexes)
    requires Built(sites, testnet, chain, s)
    ensures AllInRange(Log(chain))
    decreases |sites|
  {
    if sites != [] {
      BuiltSplit(sites, testnet, chain, s);
      hide ConnectBlock, ConnectTxs, Built, Build, FreshBlock, OutputsInRange;
      var prefix, n := chain[..|chain| - 1], |Tip(chain).block.vtx|;
      BuiltInRange(sites[..|sites| - 1], testnet, prefix, Build(sites[..|sites| - 1]).value);
      ConnectBlockUnfolds(sites[|sites| - 1], Build(sites[..|sites| - 1]).value);
      forall k | 0 <= k < n ensures OutputsInRange(BlockLog(chain, n)[k].tx.vout) {
        BlockLogEntry(chain, n, k);
        assert CheckTransaction(Tip(chain).block.vtx[k]);
      }
    }
  }

  lemma LogShown(site: Site, mem: Pool, txs: map<Hash, TxIndex>, h: Hash)
    requires site.Valid() && IndexOf(txs, Log(site.path)) && FilesExact(site.env, Log(site.path)) && h in txs
    requires forall b :: b in site.path ==> !InBlock(b, POOL_POS)
    ensures Shown(site, mem, h, txs[h].pos, Log(site.path)) && txs[h].pos != POOL_POS
  {
    hide Spends, Log;
    var log := Log(site.path);
    var k :| 0 <= k < |log| && log[k].tx.txid == h;
    LogEntryOnBranch(site.path, k);
    assert txs[h].pos == log[k].pos != POOL_POS;
    assert Shows(site, mem, h, log[k].pos, log[k].tx);
  }

  /** Before any transaction is taken, the unspent outputs are worth at most all subsidies. */
  lemma StartsSolvent(site: Site, mem: Pool, s: Indexes, sites: seq<Site>) returns (total: int)
    requires OnBestChain(site, s, sites)
    ensures site.Valid() && total <= MAX_MONEY && Solvent(site, mem, s, Assembly(map[], 0), total)
  {
    hide Built, SitesExact, FilesExact, IndexOf, AllInRange, DistinctLogged, Unspent, Log, SameHistories;
    var t :| Built(sites, site.env.testnet, site.path, t) && Same(s, t);
    var log := Log(site.path);
    total := TotalSubsidy(|site.path| - 1);
    Conservation(sites, site.env.testnet, site.path, t);
    BuiltConserves(sites, site.env.testnet, site.path, t);
    BuiltInRange(sites, site.env.testnet, site.path, t);
    BuiltIndex(sites, site.env.testnet, site.path, t);
    forall h | h in s.txs ensures Shown(site, mem, h, s.txs[h].pos, log) {
      LogShown(site, mem, s.txs, h);
    }
    assert Overlay(s.txs, map[]) == s.txs;
    assert Backs(site, mem, s, Assembly(map[], 0), total, log);
  }
}
