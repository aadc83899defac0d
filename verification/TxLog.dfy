/** The transaction index as a closed form of the branch. */
module TxLog {
  import opened Common
  import opened ChainTypes
  import opened Connect
  import opened Undo
  import opened ChainRun

  /** A transaction of the branch with its recorded position and its height. */
  datatype Logged = Logged(tx: Tx, pos: DiskTxPos, height: nat)

  /** The first `n` transactions of the last block of the branch. */
  function BlockLog(chain: Chain, n: nat): (log: seq<Logged>)
    requires chain != [] && n <= |Tip(chain).block.vtx|
    ensures |log| == n
  {
    if n == 0 then []
    else BlockLog(chain, n - 1) + [Logged(Tip(chain).block.vtx[n - 1], TxPos(Tip(chain), n - 1), |chain| - 1)]
  }

  /** All transactions above genesis, in the order in which they are connected. */
  function Log(chain: Chain): seq<Logged> {
    if |chain| <= 1 then [] else Log(chain[..|chain| - 1]) + BlockLog(chain, |Tip(chain).block.vtx|)
  }

  lemma {:induction false} OffsetsIncrease(b: StoredBlock, i: nat, j: nat)
    requires i < j <= |b.block.vtx|
    ensures TxPos(b, i).nTxPos < TxPos(b, j).nTxPos
    decreases j
  {
    if i < j - 1 {
      OffsetsIncrease(b, i, j - 1);
    }
  }

  lemma {:induction false} BlockLogEntry(chain: Chain, n: nat, k: nat)
    requires chain != [] && k < n <= |Tip(chain).block.vtx|
    ensures BlockLog(chain, n)[k] == Logged(Tip(chain).block.vtx[k], TxPos(Tip(chain), k), |chain| - 1)
    decreases n
  {
    if k < n - 1 {
      BlockLogEntry(chain, n - 1, k);
    }
  }

  lemma {:induction false} LogEntryOnBranch(chain: Chain, k: nat)
    requires chain != [] && k < |Log(chain)|
    ensures OnBranch(chain, Log(chain)[k].pos)
    decreases |chain|
  {
    var prefix := chain[..|chain| - 1];
    if k < |Log(prefix)| {
      LogEntryOnBranch(prefix, k);
      var b :| b in prefix && InBlock(b, Log(prefix)[k].pos);
      assert b in chain;
    } else {
      BlockLogEntry(chain, |Tip(chain).block.vtx|, k - |Log(prefix)|);
      assert Tip(chain) in chain && InBlock(Tip(chain), Log(chain)[k].pos);
    }
  }

  /** Some transaction of the branch spends output `o`. */
  ghost predicate Spends(log: seq<Logged>, o: OutPoint) {
    exists k :: 0 <= k < |log| && !log[k].tx.IsCoinBase() && o in log[k].tx.vin
  }

  /** The transaction index said without reference to any order of updates: one entry per
      transaction of the branch, at its position, with a bit per output that is set iff some
      transaction of the branch spends that output. */
  ghost predicate IndexOf(txs: map<Hash, TxIndex>, log: seq<Logged>) {
    && (forall h :: h in txs <==> exists k :: 0 <= k < |log| && log[k].tx.txid == h)
    && (forall k :: 0 <= k < |log| ==>
          && log[k].tx.txid in txs
          && txs[log[k].tx.txid].pos == log[k].pos
          && |txs[log[k].tx.txid].isSpent| == |log[k].tx.vout|)
    && (forall o :: IsSpent(txs, o) <==> Spends(log, o))
  }

  /** The closed form determines the index. */
  lemma IndexUnique(a: map<Hash, TxIndex>, b: map<Hash, TxIndex>, log: seq<Logged>)
    requires IndexOf(a, log) && IndexOf(b, log)
    ensures a == b
  {
    assert a.Keys == b.Keys;
    IndexExtensional(a, b);
  }

  /** Which transactions follow which: nothing is spent before it exists. */
  lemma SpendsLonger(log: seq<Logged>, e: Logged, o: OutPoint)
    ensures Spends(log + [e], o) <==> Spends(log, o) || (!e.tx.IsCoinBase() && o in e.tx.vin)
  {
    var longer := log + [e];
    if Spends(log, o) {
      var k :| 0 <= k < |log| && !log[k].tx.IsCoinBase() && o in log[k].tx.vin;
      assert longer[k] == log[k];
    }
    if !e.tx.IsCoinBase() && o in e.tx.vin {
      assert longer[|log|] == e;
    }
  }

  /** Adding a transaction to an index in closed form, given which outputs it marks spent. */
  lemma AddToIndex(before: map<Hash, TxIndex>, spent: map<Hash, TxIndex>, log: seq<Logged>, e: Logged)
    requires IndexOf(before, log) && e.tx.txid !in before && SameShape(before, spent)
    requires forall o :: IsSpent(spent, o) <==> IsSpent(before, o) || (!e.tx.IsCoinBase() && o in e.tx.vin)
    requires !e.tx.IsCoinBase() ==> forall o :: o in e.tx.vin ==> HasOutput(before, o)
    ensures IndexOf(AddTxIndex(spent, e.tx, e.pos), log + [e])
  {
    var after, longer := AddTxIndex(spent, e.tx, e.pos), log + [e];
    assert longer[|log|] == e;
    AddToIndexBits(before, spent, log, e);
    forall h ensures h in after <==> exists k :: 0 <= k < |longer| && longer[k].tx.txid == h {
      if h in before {
        var k :| 0 <= k < |log| && log[k].tx.txid == h;
        assert longer[k].tx.txid == h;
      }
    }
    forall k | 0 <= k < |longer|
      ensures && longer[k].tx.txid in after
              && after[longer[k].tx.txid].pos == longer[k].pos
              && |after[longer[k].tx.txid].isSpent| == |longer[k].tx.vout|
    {
      if k < |log| {
        assert longer[k] == log[k];
      }
    }
  }

  lemma AddToIndexBits(before: map<Hash, TxIndex>, spent: map<Hash, TxIndex>, log: seq<Logged>, e: Logged)
    requires IndexOf(before, log) && e.tx.txid !in before && SameShape(before, spent)
    requires forall o :: IsSpent(spent, o) <==> IsSpent(before, o) || (!e.tx.IsCoinBase() && o in e.tx.vin)
    requires !e.tx.IsCoinBase() ==> forall o :: o in e.tx.vin ==> HasOutput(before, o)
    ensures forall o :: IsSpent(AddTxIndex(spent, e.tx, e.pos), o) <==> Spends(log + [e], o)
  {
    var after := AddTxIndex(spent, e.tx, e.pos);
    forall o ensures IsSpent(after, o) <==> Spends(log + [e], o) {
      SpendsLonger(log, e, o);
      if o.hash == e.tx.txid {
        assert !IsSpent(before, o) && !HasOutput(before, o);
      } else {
        assert IsSpent(after, o) == IsSpent(spent, o);
      }
    }
  }

  lemma ConnectTxIndex(site: Site, c: Connected, tx: Tx, pos: DiskTxPos, log: seq<Logged>, height: nat)
    requires site.Valid() && ConnectTx(site, c, tx, pos).Ok?
    requires IndexOf(c.s.txs, log) && tx.txid !in c.s.txs
    ensures IndexOf(ConnectTx(site, c, tx, pos).value.s.txs, log + [Logged(tx, pos, height)])
  {
    hide IndexOf, NameDecision, StoredValue, AppendEntry;
    var spent := c.s.txs;
    if !tx.IsCoinBase() {
      SpendInputsEffect(site, c.s.txs, tx, |tx.vin|);
      assert tx.vin[..|tx.vin|] == tx.vin;
      spent := SpendInputs(site, c.s.txs, tx, |tx.vin|).value.txs;
    }
    AddToIndex(c.s.txs, spent, log, Logged(tx, pos, height));
  }

  lemma {:induction false} ConnectTxsIndex(site: Site, s: Indexes, i: nat, log: seq<Logged>)
    requires site.Valid() && i <= |Tip(site.path).block.vtx| && ConnectTxs(site, s, i).Ok?
    requires IndexOf(s.txs, log)
    requires FreshTxids(s.txs, Tip(site.path).block.vtx) && DistinctTxids(Tip(site.path).block.vtx)
    requires NoEntryFrom(s.names, Tip(site.path), 0)
    ensures IndexOf(ConnectTxs(site, s, i).value.s.txs, log + BlockLog(site.path, i))
  {
    hide ConnectTx, IndexOf, NoEntryFrom;
    if i == 0 {
      assert log + BlockLog(site.path, 0) == log;
    } else {
      ConnectTxsIndex(site, s, i - 1, log);
      LastTxIsNew(site, s, i);
      var b := Tip(site.path);
      ConnectTxIndex(site, ConnectTxs(site, s, i - 1).value, b.block.vtx[i - 1], TxPos(b, i - 1),
                     log + BlockLog(site.path, i - 1), site.Height());
      assert log + BlockLog(site.path, i - 1) + [Logged(b.block.vtx[i - 1], TxPos(b, i - 1), site.Height())]
          == log + BlockLog(site.path, i);
    }
  }

  lemma {:induction false} BuiltIndex(sites: seq<Site>, testnet: bool, chain: Chain, s: Indexes)
    requires Built(sites, testnet, chain, s)
    ensures IndexOf(s.txs, Log(chain))
    decreases |sites|
  {
    if sites != [] {
      var front, prefix := sites[..|sites| - 1], chain[..|chain| - 1];
      var before := Build(front).value;
      var site := sites[|sites| - 1];
      assert site.path == chain;
      hide ConnectTxs, IndexOf, EntriesIn, NoEntryFrom, FreshTxids;
      BuiltIndex(front, testnet, prefix, before);
      BuiltEntries(front, testnet, prefix, before);
      EntriesElsewhere(before.names, prefix, Tip(chain));
      ConnectTxsIndex(site, before, |Tip(chain).block.vtx|, Log(prefix));
    }
  }

  /** After any run, the transaction index is the closed form of the branch reached. */
  lemma RunIndex(genesis: StoredBlock, testnet: bool, events: seq<Event>)
    requires Regular(genesis, testnet, events) && Play(genesis, testnet, events).Ok?
    ensures var n := Play(genesis, testnet, events).value; IndexOf(n.s.txs, Log(n.chain))
  {
    hide Play, IndexOf, Build;
    var sites := RunIsStraight(genesis, testnet, events);
    BuiltIndex(sites, testnet, Play(genesis, testnet, events).value.chain, Build(sites).value);
  }

  /** Two runs that reach the same branch, by whatever detours, have the same transaction
      index. */
  lemma BranchDeterminesIndex(genesis: StoredBlock, testnet: bool, a: seq<Event>, b: seq<Event>)
    requires Regular(genesis, testnet, a) && Play(genesis, testnet, a).Ok?
    requires Regular(genesis, testnet, b) && Play(genesis, testnet, b).Ok?
    requires Play(genesis, testnet, a).value.chain == Play(genesis, testnet, b).value.chain
    ensures Play(genesis, testnet, a).value.s.txs == Play(genesis, testnet, b).value.s.txs
  {
    hide Play, IndexOf;
    RunIndex(genesis, testnet, a);
    RunIndex(genesis, testnet, b);
    var chain := Play(genesis, testnet, a).value.chain;
    IndexUnique(Play(genesis, testnet, a).value.s.txs, Play(genesis, testnet, b).value.s.txs, Log(chain));
  }
}
