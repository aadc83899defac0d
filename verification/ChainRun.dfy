/** Runs of the node: blocks are attached to and detached from the end of the branch it
    follows.  The databases are a function of the branch, not of the way it was reached. */
module ChainRun {
  import opened Common
  import opened ChainTypes
  import opened NameScript
  import opened NameRules
  import opened Connect
  import opened Undo

  /** A step: connecting a block on top of the branch (with what the environment and the best
      height were at that moment), or disconnecting its last block. */
  datatype Event = Attach(env: Env, block: StoredBlock, best: int) | Detach

  datatype NodeDb = NodeDb(chain: Chain, s: Indexes)

  const EMPTY := Indexes(map[], map[])

  /** The node's databases after the events, starting with the genesis block, which is never
      connected: its coinbase is in no index. */
  function Play(genesis: StoredBlock, testnet: bool, events: seq<Event>): (r: Outcome<NodeDb>)
    ensures r.Ok? ==> r.value.chain != [] && r.value.chain[0] == genesis
  {
    if events == [] then Ok(NodeDb([genesis], EMPTY))
    else
      var n :- Play(genesis, testnet, events[..|events| - 1]);
      match events[|events| - 1]
      case Attach(env, block, best) =>
        var s :- ConnectBlock(Site(env, n.chain + [block], best), n.s);
        Ok(NodeDb(n.chain + [block], s))
      case Detach =>
        if |n.chain| == 1 then Rejected
        else
          var s :- DisconnectBlock(testnet, n.chain, n.s);
          Ok(NodeDb(n.chain[..|n.chain| - 1], s))
  }

  predicate SamePlace(a: StoredBlock, b: StoredBlock) {
    a.nFile == b.nFile && a.nBlockPos == b.nBlockPos
  }

  /** What the code takes for granted about an attached block: it is stored at a place of its
      own, and its transaction ids do not occur on the branch. */
  ghost predicate FreshBlock(chain: Chain, s: Indexes, block: StoredBlock) {
    && (forall b :: b in chain ==> !SamePlace(b, block))
    && FreshTxids(s.txs, block.block.vtx)
  }

  ghost predicate Regular(genesis: StoredBlock, testnet: bool, events: seq<Event>) {
    forall i :: 0 <= i < |events| && events[i].Attach? ==>
      && events[i].env.testnet == testnet
      && (Play(genesis, testnet, events[..i]).Ok? ==>
            var n := Play(genesis, testnet, events[..i]).value;
            FreshBlock(n.chain, n.s, events[i].block))
  }

  // ----- connecting straight from genesis -----

  /** One connection per block above genesis, along `chain`. */
  ghost predicate Along(sites: seq<Site>, testnet: bool, chain: Chain) {
    && |chain| == |sites| + 1
    && forall k :: 0 <= k < |sites| ==> sites[k].path == chain[..k + 2] && sites[k].env.testnet == testnet
  }

  function Build(sites: seq<Site>): Outcome<Indexes>
    requires forall k :: 0 <= k < |sites| ==> sites[k].Valid()
  {
    if sites == [] then Ok(EMPTY)
    else
      var s :- Build(sites[..|sites| - 1]);
      ConnectBlock(sites[|sites| - 1], s)
  }

  /** A successful straight construction of regular blocks. */
  ghost predicate Built(sites: seq<Site>, testnet: bool, chain: Chain, s: Indexes)
    decreases |sites|
  {
    && Along(sites, testnet, chain)
    && Build(sites) == Ok(s)
    && if sites == [] then true
       else
         var front, prefix := sites[..|sites| - 1], chain[..|chain| - 1];
         && Build(front).Ok?
         && Built(front, testnet, prefix, Build(front).value)
         && FreshBlock(prefix, Build(front).value, Tip(chain))
  }

  /** The last block of a straight construction. */
  lemma BuiltSplit(sites: seq<Site>, testnet: bool, chain: Chain, s: Indexes)
    requires Built(sites, testnet, chain, s) && sites != []
    ensures forall k :: 0 <= k < |sites| ==> sites[k].Valid()
    ensures var front, prefix, site := sites[..|sites| - 1], chain[..|chain| - 1], sites[|sites| - 1];
            && |chain| == |sites| + 1 && prefix != [] && chain == prefix + [Tip(chain)]
            && site.path == chain && site.env.testnet == testnet
            && Build(front).Ok? && Build(sites) == Ok(s)
            && ConnectBlock(site, Build(front).value) == Ok(s)
            && ConnectTxs(site, Build(front).value, |Tip(chain).block.vtx|).Ok?
            && ConnectTxs(site, Build(front).value, |Tip(chain).block.vtx|).value.s == s
            && DistinctTxids(Tip(chain).block.vtx)
            && Built(front, testnet, prefix, Build(front).value)
            && FreshBlock(prefix, Build(front).value, Tip(chain))
  {
    hide ConnectTxs, FreshBlock;
    var site := sites[|sites| - 1];
    assert site.path == chain;
    ConnectBlockUnfolds(site, Build(sites[..|sites| - 1]).value);
  }

  // ----- databases that differ only in empty name entries behave alike -----

  lemma DecisionCongruent(site: Site, a: map<Name, seq<NameIndex>>, b: map<Name, seq<NameIndex>>, tx: Tx,
                          inputs: Inputs)
    requires site.Valid() && |inputs.scripts| == |inputs.prevPos| && SameHistories(a, b)
    ensures NameDecision(site, a, tx, inputs) == NameDecision(site, b, tx, inputs)
  {
    hide ScanScripts;
    var d := DecodeNameTx(tx, PostLibcoinFork(site.env.testnet, site.Height()));
    if d.good {
      assert History(a, d.args[0]) == History(b, d.args[0]);
    }
  }

  lemma AppendCongruent(a: map<Name, seq<NameIndex>>, b: map<Name, seq<NameIndex>>, name: Name, e: NameIndex)
    requires SameHistories(a, b)
    ensures SameHistories(AppendEntry(a, name, e), AppendEntry(b, name, e))
  {
    forall n ensures History(AppendEntry(a, name, e), n) == History(AppendEntry(b, name, e), n) {
      assert History(a, n) == History(b, n);
    }
  }

  ghost predicate SameConnected(a: Outcome<Connected>, b: Outcome<Connected>) {
    && (a.Ok? <==> b.Ok?)
    && (a.Ok? ==> Same(a.value.s, b.value.s) && a.value.fees == b.value.fees)
  }

  lemma ConnectTxCongruent(site: Site, c: Connected, d: Connected, tx: Tx, pos: DiskTxPos)
    requires site.Valid() && Same(c.s, d.s) && c.fees == d.fees
    ensures SameConnected(ConnectTx(site, c, tx, pos), ConnectTx(site, d, tx, pos))
  {
    hide NameDecision, SpendInputs, StoredValue, AppendEntry, SameHistories;
    if !tx.IsCoinBase() && SpendInputs(site, c.s.txs, tx, |tx.vin|).Ok? {
      var a := SpendInputs(site, c.s.txs, tx, |tx.vin|).value;
      DecisionCongruent(site, c.s.names, d.s.names, tx, a);
      match NameDecision(site, c.s.names, tx, a) {
        case Ok(Some(name)) =>
          AppendCongruent(c.s.names, d.s.names, name, NameIndex(pos, site.Height(), StoredValue(site, pos)));
        case _ =>
      }
    }
  }

  lemma {:induction false} ConnectTxsCongruent(site: Site, s: Indexes, t: Indexes, i: nat)
    requires site.Valid() && i <= |Tip(site.path).block.vtx| && Same(s, t)
    ensures SameConnected(ConnectTxs(site, s, i), ConnectTxs(site, t, i))
  {
    hide ConnectTx, SameHistories;
    if i > 0 {
      ConnectTxsCongruent(site, s, t, i - 1);
      if ConnectTxs(site, s, i - 1).Ok? {
        ConnectTxCongruent(site, ConnectTxs(site, s, i - 1).value, ConnectTxs(site, t, i - 1).value,
                           Tip(site.path).block.vtx[i - 1], TxPos(Tip(site.path), i - 1));
      }
    }
  }

  lemma ConnectBlockCongruent(site: Site, s: Indexes, t: Indexes)
    requires site.Valid() && Same(s, t)
    ensures ConnectBlock(site, s).Ok? <==> ConnectBlock(site, t).Ok?
    ensures ConnectBlock(site, s).Ok? ==> Same(ConnectBlock(site, s).value, ConnectBlock(site, t).value)
  {
    hide ConnectTxs, CheckBlock, SameHistories;
    ConnectTxsCongruent(site, s, t, |Tip(site.path).block.vtx|);
  }

  // ----- entries point into the branch -----

  ghost predicate OnBranch(chain: Chain, pos: DiskTxPos) {
    exists b :: b in chain && InBlock(b, pos)
  }

  /** Every entry of the name index points into a block of the branch. */
  ghost predicate EntriesIn(names: map<Name, seq<NameIndex>>, chain: Chain) {
    forall name, k :: name in names && 0 <= k < |names[name]| ==> OnBranch(chain, names[name][k].txPos)
  }

  lemma EntriesInLonger(names: map<Name, seq<NameIndex>>, chain: Chain, longer: Chain)
    requires EntriesIn(names, chain) && chain <= longer
    ensures EntriesIn(names, longer)
  {
    forall name, k | name in names && 0 <= k < |names[name]| ensures OnBranch(longer, names[name][k].txPos) {
      assert OnBranch(chain, names[name][k].txPos);
      var b :| b in chain && InBlock(b, names[name][k].txPos);
      assert b in longer;
    }
  }

  lemma EntriesElsewhere(names: map<Name, seq<NameIndex>>, chain: Chain, block: StoredBlock)
    requires EntriesIn(names, chain) && forall b :: b in chain ==> !SamePlace(b, block)
    ensures NoEntryFrom(names, block, 0)
  {
    forall name, k | name in names && 0 <= k < |names[name]| ensures !InBlock(block, names[name][k].txPos) {
      assert OnBranch(chain, names[name][k].txPos);
      var b :| b in chain && InBlock(b, names[name][k].txPos);
      assert !SamePlace(b, block);
    }
  }

  lemma {:induction false} ConnectTxsEntries(site: Site, s: Indexes, i: nat)
    requires site.Valid() && i <= |Tip(site.path).block.vtx| && ConnectTxs(site, s, i).Ok?
    requires EntriesIn(s.names, site.path)
    ensures EntriesIn(ConnectTxs(site, s, i).value.s.names, site.path)
  {
    hide ConnectTx;
    if i > 0 {
      ConnectTxsEntries(site, s, i - 1);
      var b := Tip(site.path);
      assert b in site.path && InBlock(b, TxPos(b, i - 1));
      assert OnBranch(site.path, TxPos(b, i - 1));
      ConnectTxNames(site, ConnectTxs(site, s, i - 1).value, b.block.vtx[i - 1], TxPos(b, i - 1));
    }
  }

  lemma {:induction false} BuiltEntries(sites: seq<Site>, testnet: bool, chain: Chain, s: Indexes)
    requires Built(sites, testnet, chain, s)
    ensures EntriesIn(s.names, chain)
    decreases |sites|
  {
    hide ConnectTxs, CheckBlock;
    if sites != [] {
      var front, prefix := sites[..|sites| - 1], chain[..|chain| - 1];
      var before := Build(front).value;
      BuiltEntries(front, testnet, prefix, before);
      var site := sites[|sites| - 1];
      assert site.path == chain && chain == prefix + [Tip(chain)];
      EntriesInLonger(before.names, prefix, chain);
      ConnectTxsEntries(site, before, |Tip(chain).block.vtx|);
    }
  }

  // ----- the main theorem -----

  lemma NoSitesFrom(events: seq<Event>)
    ensures SitesFrom([], events)
  {
  }

  lemma SameReflexive(s: Indexes)
    ensures Same(s, s)
  {
  }

  /** Every connection is one that the run made: the same block, environment and best height. */
  ghost predicate SitesFrom(sites: seq<Site>, events: seq<Event>) {
    forall k :: 0 <= k < |sites| ==> AttachedIn(sites[k], events)
  }

  ghost predicate AttachedIn(site: Site, events: seq<Event>) {
    site.Valid() && exists i :: 0 <= i < |events| && events[i] == Attach(site.env, Tip(site.path), site.best)
  }

  lemma AttachedInLonger(site: Site, events: seq<Event>, e: Event)
    requires AttachedIn(site, events)
    ensures AttachedIn(site, events + [e])
  {
    var i :| 0 <= i < |events| && events[i] == Attach(site.env, Tip(site.path), site.best);
    assert (events + [e])[i] == events[i];
  }

  lemma SitesFromLonger(sites: seq<Site>, events: seq<Event>, e: Event)
    requires SitesFrom(sites, events)
    ensures SitesFrom(sites, events + [e])
    ensures sites != [] ==> SitesFrom(sites[..|sites| - 1], events + [e])
    ensures forall site: Site ::
        site.Valid() && e == Attach(site.env, Tip(site.path), site.best) ==> SitesFrom(sites + [site], events + [e])
  {
    forall k | 0 <= k < |sites| ensures AttachedIn(sites[k], events + [e]) {
      AttachedInLonger(sites[k], events, e);
    }
    forall site: Site | site.Valid() && e == Attach(site.env, Tip(site.path), site.best)
      ensures AttachedIn(site, events + [e])
    {
      assert (events + [e])[|events|] == e;
    }
  }

  /** Whatever was attached and detached on the way, the databases equal, up to empty name
      entries, those obtained by connecting just the blocks of the final branch to empty
      databases. */
  lemma {:induction false} RunIsStraight(genesis: StoredBlock, testnet: bool, events: seq<Event>)
    returns (sites: seq<Site>)
    requires Regular(genesis, testnet, events) && Play(genesis, testnet, events).Ok?
    ensures var n := Play(genesis, testnet, events).value;
            && (forall k :: 0 <= k < |sites| ==> sites[k].Valid())
            && Build(sites).Ok?
            && Built(sites, testnet, n.chain, Build(sites).value)
            && Same(n.s, Build(sites).value)
    ensures SitesFrom(sites, events)
    decreases |events|
  {
    hide ConnectBlock, DisconnectBlock, SameHistories, SitesFrom;
    if events == [] {
      sites := [];
      SameReflexive(EMPTY);
      NoSitesFrom(events);
    } else {
      var front := events[..|events| - 1];
      assert forall i :: 0 <= i < |front| ==> events[..i] == front[..i];
      var n := Play(genesis, testnet, front).value;
      sites := RunIsStraight(genesis, testnet, front);
      assert events == front + [events[|events| - 1]];
      SitesFromLonger(sites, front, events[|events| - 1]);
      match events[|events| - 1] {
        case Attach(env, block, best) =>
          assert Tip(n.chain + [block]) == block;
          sites := AttachStraight(sites, testnet, n, env, block, best);
        case Detach =>
          sites := DetachStraight(sites, testnet, n);
      }
    }
  }

  lemma AttachStraight(sites: seq<Site>, testnet: bool, n: NodeDb, env: Env, block: StoredBlock, best: int)
    returns (longer: seq<Site>)
    requires forall k :: 0 <= k < |sites| ==> sites[k].Valid()
    requires Build(sites).Ok? && Built(sites, testnet, n.chain, Build(sites).value) && Same(n.s, Build(sites).value)
    requires FreshBlock(n.chain, n.s, block) && env.testnet == testnet
    requires ConnectBlock(Site(env, n.chain + [block], best), n.s).Ok?
    ensures (forall k :: 0 <= k < |longer| ==> longer[k].Valid()) && Build(longer).Ok?
    ensures Built(longer, testnet, n.chain + [block], Build(longer).value)
    ensures Same(ConnectBlock(Site(env, n.chain + [block], best), n.s).value, Build(longer).value)
    ensures longer == sites + [Site(env, n.chain + [block], best)]
  {
    var site := Site(env, n.chain + [block], best);
    longer := sites + [site];
    assert longer[..|longer| - 1] == sites;
    AlongLonger(sites, testnet, n.chain, site);
    ConnectBlockCongruent(site, n.s, Build(sites).value);
    hide ConnectBlock, SameHistories, Play, Along, CheckBlock, ConnectTxs;
    assert Tip(site.path) == block && site.path[..|n.chain|] == n.chain;
    assert Build(longer) == ConnectBlock(site, Build(sites).value);
  }

  lemma AlongLonger(sites: seq<Site>, testnet: bool, chain: Chain, site: Site)
    requires Along(sites, testnet, chain)
    requires |site.path| == |chain| + 1 && chain <= site.path && site.env.testnet == testnet
    ensures Along(sites + [site], testnet, site.path)
  {
    var longer := sites + [site];
    forall k | 0 <= k < |longer| ensures longer[k].path == site.path[..k + 2] && longer[k].env.testnet == testnet {
      if k < |sites| {
        assert longer[k] == sites[k];
        assert chain[..k + 2] == site.path[..k + 2];
      }
    }
  }

  lemma DetachStraight(sites: seq<Site>, testnet: bool, n: NodeDb) returns (shorter: seq<Site>)
    requires forall k :: 0 <= k < |sites| ==> sites[k].Valid()
    requires Build(sites).Ok? && Built(sites, testnet, n.chain, Build(sites).value) && Same(n.s, Build(sites).value)
    requires |n.chain| > 1 && DisconnectBlock(testnet, n.chain, n.s).Ok?
    ensures (forall k :: 0 <= k < |shorter| ==> shorter[k].Valid()) && Build(shorter).Ok?
    ensures Built(shorter, testnet, n.chain[..|n.chain| - 1], Build(shorter).value)
    ensures Same(DisconnectBlock(testnet, n.chain, n.s).value, Build(shorter).value)
    ensures sites != [] && shorter == sites[..|sites| - 1]
  {
    hide ConnectBlock, DisconnectBlock, SameHistories;
    shorter := sites[..|sites| - 1];
    var prefix := n.chain[..|n.chain| - 1];
    var before := Build(shorter).value;
    BuiltEntries(shorter, testnet, prefix, before);
    EntriesElsewhere(before.names, prefix, Tip(n.chain));
    assert sites[|sites| - 1].path == n.chain;
    UndoBlock(sites[|sites| - 1], before, n.s);
  }
}
