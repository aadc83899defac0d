/** The values stored in the name index, and what the index depends on (src/namecoin.cpp). */
module NameValues {
  import opened Common
  import opened NameScript
  import opened ChainTypes
  import opened NameRules
  import opened Connect
  import opened Undo
  import opened ChainRun
  import opened TxLog
  import opened Owner
  import opened Rescan

  // ----- what the hook writes -----

  /** A transaction that the rule reads as the registration of a name. */
  predicate Readable(tx: Tx, strict: bool) {
    tx.IsName() && var d := DecodeNameTx(tx, strict); d.good && Registers(d.op) && ArgsCover(d)
  }

  /** The rule by which the value of a transaction was read when it was connected: that of the
      best height at that moment. */
  predicate RuleUsed(testnet: bool, sites: seq<Site>, height: nat) {
    1 <= height <= |sites| && PostLibcoinFork(testnet, sites[height - 1].best)
  }

  /** The entry is the one that connecting the logged transaction wrote. */
  predicate WrittenFor(testnet: bool, sites: seq<Site>, l: Logged, e: NameIndex) {
    && e == NameIndex(l.pos, l.height, ReadValue(l.tx, RuleUsed(testnet, sites, l.height)))
    && Readable(l.tx, PostLibcoinFork(testnet, l.height)) && !l.tx.IsCoinBase()
  }

  ghost predicate Written(testnet: bool, sites: seq<Site>, log: seq<Logged>, e: NameIndex) {
    exists k :: 0 <= k < |log| && log[k].height <= |sites| && WrittenFor(testnet, sites, log[k], e)
  }

  ghost predicate AllWritten(testnet: bool, sites: seq<Site>, log: seq<Logged>, names: map<Name, seq<NameIndex>>) {
    forall name, j: nat :: name in names && j < |names[name]| ==> Written(testnet, sites, log, names[name][j])
  }

  lemma WrittenLater(testnet: bool, sites: seq<Site>, log: seq<Logged>, moreSites: seq<Site>, more: seq<Logged>,
                     e: NameIndex)
    requires Written(testnet, sites, log, e) && log <= more && sites <= moreSites
    ensures Written(testnet, moreSites, more, e)
  {
    hide ReadValue, Readable, PostLibcoinFork;
    var k :| 0 <= k < |log| && log[k].height <= |sites| && WrittenFor(testnet, sites, log[k], e);
    assert more[k] == log[k];
    if 1 <= log[k].height {
      assert moreSites[log[k].height - 1] == sites[log[k].height - 1];
    }
    assert WrittenFor(testnet, moreSites, more[k], e);
  }

  lemma AllWrittenLater(testnet: bool, sites: seq<Site>, log: seq<Logged>, moreSites: seq<Site>, more: seq<Logged>,
                        names: map<Name, seq<NameIndex>>)
    requires AllWritten(testnet, sites, log, names) && log <= more && sites <= moreSites
    ensures AllWritten(testnet, moreSites, more, names)
  {
    hide Written;
    forall name, j: nat | name in names && j < |names[name]| ensures Written(testnet, moreSites, more, names[name][j]) {
      WrittenLater(testnet, sites, log, moreSites, more, names[name][j]);
    }
  }

  /** The block being connected is in the block files. */
  ghost predicate OwnBlockOnFile(site: Site) {
    site.Valid()
    && forall i ::
         0 <= i < |Tip(site.path).block.vtx| ==> OnFile(site.env, TxPos(Tip(site.path), i), Tip(site.path).block.vtx[i])
  }

  lemma RecordedReadable(site: Site, c: Connected, tx: Tx)
    requires site.Valid() && RecordedName(site, c, tx).Some?
    ensures Readable(tx, PostLibcoinFork(site.env.testnet, site.Height())) && !tx.IsCoinBase()
  {
    hide ScanScripts, FirstUpdateCheck, UpdateCheck, SpendInputs;
  }

  lemma NewEntryWritten(site: Site, sites: seq<Site>, c: Connected, tx: Tx, pos: DiskTxPos, log: seq<Logged>)
    requires site.Valid() && 1 <= site.Height() <= |sites| && sites[site.Height() - 1] == site
    requires RecordedName(site, c, tx).Some? && OnFile(site.env, pos, tx)
    ensures Written(site.env.testnet, sites, log + [Logged(tx, pos, site.Height())],
                    NameIndex(pos, site.Height(), StoredValue(site, pos)))
  {
    RecordedReadable(site, c, tx);
    hide ReadValue, Readable, RecordedName, PostLibcoinFork;
    var l := Logged(tx, pos, site.Height());
    assert (log + [l])[|log|] == l;
    assert WrittenFor(site.env.testnet, sites, l, NameIndex(pos, site.Height(), StoredValue(site, pos)));
  }

  lemma AppendWritten(testnet: bool, sites: seq<Site>, log: seq<Logged>, names: map<Name, seq<NameIndex>>, name: Name,
                      e: NameIndex)
    requires AllWritten(testnet, sites, log, names) && Written(testnet, sites, log, e)
    ensures AllWritten(testnet, sites, log, AppendEntry(names, name, e))
  {
    hide Written;
    var after := AppendEntry(names, name, e);
    forall n, j: nat | n in after && j < |after[n]| ensures Written(testnet, sites, log, after[n][j]) {
      if j < |History(names, n)| {
        assert after[n][j] == names[n][j];
      }
    }
  }

  lemma TxWrites(site: Site, sites: seq<Site>, c: Connected, tx: Tx, pos: DiskTxPos, log: seq<Logged>)
    requires site.Valid() && 1 <= site.Height() <= |sites| && sites[site.Height() - 1] == site
    requires ConnectTx(site, c, tx, pos).Ok? && OnFile(site.env, pos, tx)
    requires AllWritten(site.env.testnet, sites, log, c.s.names)
    ensures AllWritten(site.env.testnet, sites, log + [Logged(tx, pos, site.Height())],
                       ConnectTx(site, c, tx, pos).value.s.names)
  {
    ConnectTxNames(site, c, tx, pos);
    hide ConnectTx, RecordedName, StoredValue, Written, OnFile, AllWritten, AppendEntry;
    var longer := log + [Logged(tx, pos, site.Height())];
    AllWrittenLater(site.env.testnet, sites, log, sites, longer, c.s.names);
    match RecordedName(site, c, tx) {
      case None =>
      case Some(name) =>
        NewEntryWritten(site, sites, c, tx, pos, log);
        AppendWritten(site.env.testnet, sites, longer, c.s.names, name,
                      NameIndex(pos, site.Height(), StoredValue(site, pos)));
    }
  }

  lemma {:induction false} TxsWrite(site: Site, sites: seq<Site>, s: Indexes, i: nat, log: seq<Logged>)
    requires OwnBlockOnFile(site) && 1 <= site.Height() <= |sites| && sites[site.Height() - 1] == site
    requires i <= |Tip(site.path).block.vtx| && ConnectTxs(site, s, i).Ok?
    requires AllWritten(site.env.testnet, sites, log, s.names)
    ensures AllWritten(site.env.testnet, sites, log + BlockLog(site.path, i), ConnectTxs(site, s, i).value.s.names)
  {
    hide ConnectTx, AllWritten, OnFile, TxPos;
    if i == 0 {
      assert log + BlockLog(site.path, 0) == log;
    } else {
      var b := Tip(site.path);
      TxsWrite(site, sites, s, i - 1, log);
      TxWrites(site, sites, ConnectTxs(site, s, i - 1).value, b.block.vtx[i - 1], TxPos(b, i - 1),
               log + BlockLog(site.path, i - 1));
      assert log + BlockLog(site.path, i - 1) + [Logged(b.block.vtx[i - 1], TxPos(b, i - 1), site.Height())]
               == log + BlockLog(site.path, i);
    }
  }

  /** On every accepted branch each entry of the name index is that of a transaction of the
      branch, with the value that the rule of the best height at the time read from it. */
  lemma {:induction false} BuiltWritten(sites: seq<Site>, testnet: bool, chain: Chain, s: Indexes)
    requires Built(sites, testnet, chain, s) && forall k :: 0 <= k < |sites| ==> OwnBlockOnFile(sites[k])
    ensures AllWritten(testnet, sites, Log(chain), s.names)
    decreases |sites|
  {
    if sites != [] {
      BuiltSplit(sites, testnet, chain, s);
      hide ConnectBlock, ConnectTxs, Built, Build, FreshBlock, AllWritten, OwnBlockOnFile;
      var front, prefix, site := sites[..|sites| - 1], chain[..|chain| - 1], sites[|sites| - 1];
      var before := Build(front).value;
      BuiltWritten(front, testnet, prefix, before);
      AllWrittenLater(testnet, front, Log(prefix), sites, Log(prefix), before.names);
      TxsWrite(site, sites, before, |Tip(chain).block.vtx|, Log(prefix));
    }
  }

  // ----- when two indexes with the same places have the same values -----

  /** Each entry belongs to a logged transaction and has the value listed for it. */
  ghost predicate Valued(log: seq<Logged>, values: seq<Bytes>, names: map<Name, seq<NameIndex>>)
    requires |values| == |log|
  {
    forall name, j: nat :: name in names && j < |names[name]| ==> ValuedAt(log, values, names[name][j])
  }

  ghost predicate ValuedAt(log: seq<Logged>, values: seq<Bytes>, e: NameIndex)
    requires |values| == |log|
  {
    exists k :: 0 <= k < |log| && e == NameIndex(log[k].pos, log[k].height, values[k])
  }

  lemma ValueOf(log: seq<Logged>, values: seq<Bytes>, e: NameIndex, k: nat)
    requires |values| == |log| && DistinctPositions(log) && ValuedAt(log, values, e)
    requires k < |log| && log[k].pos == e.txPos
    ensures e.vValue == values[k]
  {
    var i :| 0 <= i < |log| && e == NameIndex(log[i].pos, log[i].height, values[i]);
    SameEntry(log, i, k);
  }

  lemma SamePlacesAt(values: bool, a: map<Name, seq<NameIndex>>, b: map<Name, seq<NameIndex>>, name: Name)
    requires SamePlaces(values, a, b)
    ensures |History(a, name)| == |History(b, name)|
    ensures forall j ::
              0 <= j < |History(a, name)| ==> Seen(values, History(a, name)[j]) == Seen(values, History(b, name)[j])
  {
    var x, y := History(a, name), History(b, name);
    assert Places(values, x) == Places(values, y);
    assert |Places(values, x)| == |x| && |Places(values, y)| == |y|;
    forall j | 0 <= j < |x| ensures Seen(values, x[j]) == Seen(values, y[j]) {
      assert Places(values, x)[j] == Places(values, y)[j];
    }
  }

  /** Values agree on every transaction that the index records. */
  ghost predicate AgreeOnRecorded(log: seq<Logged>, names: map<Name, seq<NameIndex>>, v: seq<Bytes>, w: seq<Bytes>)
    requires |v| == |log| == |w|
  {
    forall k :: 0 <= k < |log| && !Unrecorded(names, log[k].pos) ==> v[k] == w[k]
  }

  lemma ValuesDecide(log: seq<Logged>, a: map<Name, seq<NameIndex>>, b: map<Name, seq<NameIndex>>, v: seq<Bytes>,
                     w: seq<Bytes>)
    requires DistinctPositions(log) && |v| == |log| == |w|
    requires Valued(log, v, a) && Valued(log, w, b) && SamePlaces(false, a, b)
    ensures SamePlaces(true, a, b) <==> AgreeOnRecorded(log, a, v, w)
  {
    hide ValuedAt, DistinctPositions, SamePlaces;
    if SamePlaces(true, a, b) {
      forall k | 0 <= k < |log| && !Unrecorded(a, log[k].pos) ensures v[k] == w[k] {
        var name, j: nat :| name in a && j < |a[name]| && a[name][j].txPos == log[k].pos;
        SamePlacesAt(true, a, b, name);
        assert a[name][j] == History(b, name)[j];
        ValueOf(log, v, a[name][j], k);
        ValueOf(log, w, b[name][j], k);
      }
    }
    if AgreeOnRecorded(log, a, v, w) {
      forall name ensures Places(true, History(a, name)) == Places(true, History(b, name)) {
        SamePlacesAt(false, a, b, name);
        SameHistory(log, a, b, v, w, name);
      }
      SamePlacesByName(true, a, b);
    }
  }

  lemma SamePlacesByName(values: bool, a: map<Name, seq<NameIndex>>, b: map<Name, seq<NameIndex>>)
    requires forall name :: Places(values, History(a, name)) == Places(values, History(b, name))
    ensures SamePlaces(values, a, b)
  {
  }

  lemma SameHistory(log: seq<Logged>, a: map<Name, seq<NameIndex>>, b: map<Name, seq<NameIndex>>, v: seq<Bytes>,
                    w: seq<Bytes>, name: Name)
    requires DistinctPositions(log) && |v| == |log| == |w| && Valued(log, v, a) && Valued(log, w, b)
    requires |History(a, name)| == |History(b, name)| && AgreeOnRecorded(log, a, v, w)
    requires forall j ::
               0 <= j < |History(a, name)| ==> Seen(false, History(a, name)[j]) == Seen(false, History(b, name)[j])
    ensures History(a, name) == History(b, name)
  {
    var x, y := History(a, name), History(b, name);
    forall j | 0 <= j < |x| ensures x[j] == y[j] {
      assert x == a[name] && y == b[name];
      assert ValuedAt(log, v, x[j]) && ValuedAt(log, w, y[j]);
      var k :| 0 <= k < |log| && x[j] == NameIndex(log[k].pos, log[k].height, v[k]);
      assert Seen(false, x[j]) == Seen(false, y[j]);
      assert x[j].txPos == y[j].txPos && x[j].nHeight == y[j].nHeight;
      assert !Unrecorded(a, log[k].pos);
      hide Valued, DistinctPositions, ValuedAt;
      ValueOf(log, w, y[j], k);
    }
  }

  // ----- the rescan -----

  function HookValues(testnet: bool, sites: seq<Site>, log: seq<Logged>): (v: seq<Bytes>)
    ensures |v| == |log|
  {
    seq(|log|, k requires 0 <= k < |log| => ReadValue(log[k].tx, RuleUsed(testnet, sites, log[k].height)))
  }

  lemma WrittenIsValued(testnet: bool, sites: seq<Site>, log: seq<Logged>, names: map<Name, seq<NameIndex>>)
    requires AllWritten(testnet, sites, log, names)
    ensures Valued(log, HookValues(testnet, sites, log), names)
  {
    hide ReadValue, Readable, RuleUsed;
    var v := HookValues(testnet, sites, log);
    forall name, j: nat | name in names && j < |names[name]| ensures ValuedAt(log, v, names[name][j]) {
      assert Written(testnet, sites, log, names[name][j]);
      var k :| 0 <= k < |log| && log[k].height <= |sites| && WrittenFor(testnet, sites, log[k], names[name][j]);
      assert v[k] == ReadValue(log[k].tx, RuleUsed(testnet, sites, log[k].height));
    }
  }

  /** Every logged transaction is indexed at its position. */
  ghost predicate IndexedAt(src: Source, log: seq<Logged>) {
    forall k :: 0 <= k < |log| ==> log[k].tx.txid in src.txs && src.txs[log[k].tx.txid].pos == log[k].pos
  }

  function RescanValues(src: Source, log: seq<Logged>): (v: seq<Bytes>)
    requires forall k :: 0 <= k < |log| ==> log[k].tx.txid in src.txs
    ensures |v| == |log|
  {
    seq(|log|, k requires 0 <= k < |log| => RescanEntry(src, log[k]).vValue)
  }

  lemma {:induction false} RescanIsValued(src: Source, log: seq<Logged>)
    requires IndexedAt(src, log)
    ensures Valued(log, RescanValues(src, log), Reconstruct(src, log))
    decreases |log|
  {
    if log != [] {
      var front, e := log[..|log| - 1], log[|log| - 1];
      RescanIsValued(src, front);
      hide RescanName;
      var v, w, names := RescanValues(src, front), RescanValues(src, log), Reconstruct(src, front);
      forall name, j: nat | name in names && j < |names[name]| ensures ValuedAt(log, w, names[name][j]) {
        assert ValuedAt(front, v, names[name][j]);
        var k :| 0 <= k < |front| && names[name][j] == NameIndex(front[k].pos, front[k].height, v[k]);
        assert log[k] == front[k] && w[k] == v[k];
      }
      assert RescanEntry(src, e) == NameIndex(e.pos, e.height, w[|front|]);
      assert ValuedAt(log, w, RescanEntry(src, e));
      hide Valued, ValuedAt, RescanEntry;
      RescanStepValued(src, names, e, log, w);
    }
  }

  lemma RescanStepValued(src: Source, names: map<Name, seq<NameIndex>>, e: Logged, log: seq<Logged>, w: seq<Bytes>)
    requires e.tx.txid in src.txs && |w| == |log| && Valued(log, w, names) && ValuedAt(log, w, RescanEntry(src, e))
    ensures Valued(log, w, RescanStep(src, names, e))
  {
    hide RescanName, ValuedAt, RescanEntry;
  }

  /** For a transaction that the hook recorded, the rescan reads the value by the rule of its
      own height. */
  lemma RescanReads(src: Source, e: Logged)
    requires e.tx.txid in src.txs && Readable(e.tx, PostLibcoinFork(src.testnet, e.height))
    ensures RescanEntry(src, e).vValue == ReadValue(e.tx, PostLibcoinFork(src.testnet, e.height))
  {
    hide ScanScripts;
  }

  /** What one can test of a recorded transaction: the rule of the best height at the time and
      the rule of its own height read the same value.  On one side of the fork they are one
      rule. */
  ghost predicate SameValueByBothRules(testnet: bool, sites: seq<Site>, log: seq<Logged>,
                                       names: map<Name, seq<NameIndex>>)
  {
    forall k :: 0 <= k < |log| && !Unrecorded(names, log[k].pos) ==>
      ReadValue(log[k].tx, RuleUsed(testnet, sites, log[k].height))
        == ReadValue(log[k].tx, PostLibcoinFork(testnet, log[k].height))
  }

  lemma RecordedIsReadable(testnet: bool, sites: seq<Site>, log: seq<Logged>, names: map<Name, seq<NameIndex>>, k: nat)
    requires AllWritten(testnet, sites, log, names) && DistinctPositions(log)
    requires k < |log| && !Unrecorded(names, log[k].pos)
    ensures Readable(log[k].tx, PostLibcoinFork(testnet, log[k].height))
  {
    hide ReadValue, Readable, RuleUsed;
    var name, j: nat :| name in names && j < |names[name]| && names[name][j].txPos == log[k].pos;
    assert Written(testnet, sites, log, names[name][j]);
    var i :| 0 <= i < |log| && log[i].height <= |sites| && WrittenFor(testnet, sites, log[i], names[name][j]);
    SameEntry(log, i, k);
  }

  lemma RulesAreValues(src: Source, sites: seq<Site>, log: seq<Logged>, names: map<Name, seq<NameIndex>>)
    requires AllWritten(src.testnet, sites, log, names) && DistinctPositions(log) && IndexedAt(src, log)
    ensures AgreeOnRecorded(log, names, HookValues(src.testnet, sites, log), RescanValues(src, log))
            <==> SameValueByBothRules(src.testnet, sites, log, names)
  {
    hide ReadValue, Readable, RuleUsed, AllWritten, DistinctPositions, Unrecorded, RescanEntry, PostLibcoinFork;
    forall k | 0 <= k < |log| && !Unrecorded(names, log[k].pos)
      ensures RescanValues(src, log)[k] == ReadValue(log[k].tx, PostLibcoinFork(src.testnet, log[k].height))
    {
      RecordedIsReadable(src.testnet, sites, log, names, k);
      RescanReads(src, log[k]);
    }
  }

  /** The block files hold the transactions of the log at their positions. */
  ghost predicate Holds(src: Source, log: seq<Logged>) {
    forall k :: 0 <= k < |log| ==> log[k].pos in src.disk && src.disk[log[k].pos] == log[k].tx
  }

  lemma HoldsExact(src: Source, sites: seq<Site>, log: seq<Logged>)
    requires Holds(src, log) && SitesAgree(src, sites)
    ensures SitesExact(sites, log) && OnDisk(src, log)
  {
    forall k | 0 <= k < |sites| ensures FilesExact(sites[k].env, log) {
      assert Agrees(src, sites[k], map[]);
    }
  }

  lemma BuiltDistinct(sites: seq<Site>, testnet: bool, chain: Chain, s: Indexes)
    requires Built(sites, testnet, chain, s) && SitesExact(sites, Log(chain))
    ensures DistinctPositions(Log(chain)) && IndexOf(s.txs, Log(chain))
  {
    hide Built, SitesExact, OwnersThroughout, IndexOf, DistinctPositions;
    OwnersBuilt(sites, testnet, chain, s);
  }

  lemma IndexedByLog(src: Source, log: seq<Logged>)
    requires IndexOf(src.txs, log)
    ensures IndexedAt(src, log)
  {
    hide Spends;
  }

  /** The rescan rebuilds the index with all its values exactly when no coinbase past the fork
      registers a name and every recorded transaction has the same value by the rule of the best
      height at its connection as by the rule of its own height. */
  lemma RescanValuesExact(src: Source, sites: seq<Site>, testnet: bool, chain: Chain, s: Indexes)
    requires Built(sites, testnet, chain, s) && testnet == src.testnet
    requires src.txs == s.txs && SitesAgree(src, sites) && Holds(src, Log(chain)) && 0 !in s.txs
    requires forall k :: 0 <= k < |sites| ==> OwnBlockOnFile(sites[k])
    ensures SamePlaces(true, s.names, Reconstruct(src, Log(chain)))
            <==> CoinbasesSilent(src.testnet, Log(chain))
                 && SameValueByBothRules(src.testnet, sites, Log(chain), s.names)
  {
    hide *;
    var log := Log(chain);
    HoldsExact(src, sites, log);
    RescanExact(src, sites, testnet, chain, s);
    var rescanned := Reconstruct(src, log);
    if SamePlaces(true, s.names, rescanned) {
      FewerPlaces(s.names, rescanned);
    }
    if SamePlaces(false, s.names, rescanned) {
      BuiltDistinct(sites, testnet, chain, s);
      BuiltWritten(sites, testnet, chain, s);
      WrittenIsValued(testnet, sites, log, s.names);
      IndexedByLog(src, log);
      RescanIsValued(src, log);
      assert forall k :: 0 <= k < |log| ==> log[k].tx.txid in src.txs by {
        AllIndexed(src, log);
      }
      ValuesDecide(log, s.names, rescanned, HookValues(testnet, sites, log), RescanValues(src, log));
      RulesAreValues(src, sites, log, s.names);
    }
  }

  lemma AllIndexed(src: Source, log: seq<Logged>)
    requires IndexedAt(src, log)
    ensures forall k :: 0 <= k < |log| ==> log[k].tx.txid in src.txs
  {
  }

  lemma FewerPlaces(a: map<Name, seq<NameIndex>>, b: map<Name, seq<NameIndex>>)
    requires SamePlaces(true, a, b)
    ensures SamePlaces(false, a, b)
  {
    forall name ensures Places(false, History(a, name)) == Places(false, History(b, name)) {
      SamePlacesAt(true, a, b, name);
      var x, y := History(a, name), History(b, name);
      forall j | 0 <= j < |x| ensures x[j] == y[j] {
        assert Seen(true, x[j]) == Seen(true, y[j]);
      }
      assert x == y;
    }
  }

  // ----- the index as a function of the branch -----

  lemma SamePlacesBoth(values: bool, a: map<Name, seq<NameIndex>>, b: map<Name, seq<NameIndex>>,
                       c: map<Name, seq<NameIndex>>)
    requires SamePlaces(values, a, c) && SamePlaces(values, b, c)
    ensures SamePlaces(values, a, b)
  {
    forall name ensures Places(values, History(a, name)) == Places(values, History(b, name)) {
      assert Places(values, History(a, name)) == Places(values, History(c, name)) == Places(values, History(b, name));
    }
  }

  /** The rules by which two constructions of one branch read values agree on what it records. */
  ghost predicate RulesAgree(testnet: bool, sa: seq<Site>, sb: seq<Site>, log: seq<Logged>,
                             names: map<Name, seq<NameIndex>>)
  {
    forall k :: 0 <= k < |log| && !Unrecorded(names, log[k].pos) ==>
      ReadValue(log[k].tx, RuleUsed(testnet, sa, log[k].height))
        == ReadValue(log[k].tx, RuleUsed(testnet, sb, log[k].height))
  }

  /** Two ways to connect one branch, in whatever environments over the same block files and at
      whatever best heights, record the same names at the same positions and heights; and the
      same values exactly when the rules of their best heights read the same values. */
  lemma StraightDeterminesNames(src: Source, sa: seq<Site>, sb: seq<Site>, chain: Chain, s: Indexes, t: Indexes)
    requires Built(sa, src.testnet, chain, s) && Built(sb, src.testnet, chain, t)
    requires SitesAgree(src, sa) && SitesAgree(src, sb) && Holds(src, Log(chain))
    requires forall k :: 0 <= k < |sa| ==> OwnBlockOnFile(sa[k])
    requires forall k :: 0 <= k < |sb| ==> OwnBlockOnFile(sb[k])
    ensures s.txs == t.txs && SamePlaces(false, s.names, t.names)
    ensures SamePlaces(true, s.names, t.names) <==> RulesAgree(src.testnet, sa, sb, Log(chain), s.names)
  {
    hide *;
    var log, testnet := Log(chain), src.testnet;
    HoldsExact(src, sa, log);
    HoldsExact(src, sb, log);
    BuiltDistinct(sa, testnet, chain, s);
    BuiltDistinct(sb, testnet, chain, t);
    IndexUnique(s.txs, t.txs, log);
    var world := src.(txs := s.txs);
    SameFiles(src, world, sa, log);
    SameFiles(src, world, sb, log);
    BuiltNames(world, sa, testnet, chain, s, log);
    BuiltNames(world, sb, testnet, chain, t, log);
    SamePlacesBoth(false, s.names, t.names, Replay(world, log));
    BuiltWritten(sa, testnet, chain, s);
    BuiltWritten(sb, testnet, chain, t);
    WrittenIsValued(testnet, sa, log, s.names);
    WrittenIsValued(testnet, sb, log, t.names);
    ValuesDecide(log, s.names, t.names, HookValues(testnet, sa, log), HookValues(testnet, sb, log));
    RulesAreHookValues(testnet, sa, sb, log, s.names);
  }

  /** Which index a rescan would read makes no difference to what the files hold. */
  lemma SameFiles(src: Source, world: Source, sites: seq<Site>, log: seq<Logged>)
    requires SitesAgree(src, sites) && OnDisk(src, log)
    requires world.testnet == src.testnet && world.disk == src.disk && world.hash160 == src.hash160
    ensures SitesAgree(world, sites) && OnDisk(world, log)
  {
    forall k | 0 <= k < |sites| ensures Agrees(world, sites[k], map[]) {
      assert Agrees(src, sites[k], map[]);
    }
  }

  lemma RulesAreHookValues(testnet: bool, sa: seq<Site>, sb: seq<Site>, log: seq<Logged>,
                           names: map<Name, seq<NameIndex>>)
    ensures AgreeOnRecorded(log, names, HookValues(testnet, sa, log), HookValues(testnet, sb, log)) <==>
              RulesAgree(testnet, sa, sb, log, names)
  {
    hide ReadValue, RuleUsed, Unrecorded;
  }

  // ----- every run -----

  /** Every block that a run attaches is in the block files at that time, at its place. */
  ghost predicate BlocksOnFile(events: seq<Event>) {
    forall i :: 0 <= i < |events| && events[i].Attach? ==> BlockOnFile(events[i].env, events[i].block)
  }

  ghost predicate BlockOnFile(env: Env, b: StoredBlock) {
    forall i :: 0 <= i < |b.block.vtx| ==> OnFile(env, TxPos(b, i), b.block.vtx[i])
  }

  lemma SitesOnFile(sites: seq<Site>, events: seq<Event>)
    requires SitesFrom(sites, events) && BlocksOnFile(events)
    ensures forall k :: 0 <= k < |sites| ==> OwnBlockOnFile(sites[k])
  {
    hide OnFile, TxPos;
    forall k | 0 <= k < |sites| ensures OwnBlockOnFile(sites[k]) {
      assert AttachedIn(sites[k], events);
      var i :| 0 <= i < |events| && events[i] == Attach(sites[k].env, Tip(sites[k].path), sites[k].best);
      assert BlockOnFile(events[i].env, events[i].block);
    }
  }

  /** One world for a run: the block files its environments read, and blocks written before they
      are connected. */
  ghost predicate InWorld(src: Source, events: seq<Event>) {
    EnvsAgree(src, events) && BlocksOnFile(events)
  }

  lemma UnrecordedSame(a: map<Name, seq<NameIndex>>, b: map<Name, seq<NameIndex>>, pos: DiskTxPos)
    requires SameHistories(a, b)
    ensures Unrecorded(a, pos) ==> Unrecorded(b, pos)
  {
    forall name, k | name in b && 0 <= k < |b[name]| && Unrecorded(a, pos) ensures b[name][k].txPos != pos {
      assert History(a, name) == History(b, name);
    }
  }

  lemma SameHistoriesBack(a: map<Name, seq<NameIndex>>, b: map<Name, seq<NameIndex>>)
    requires SameHistories(a, b)
    ensures SameHistories(b, a)
  {
  }

  lemma AllUnrecordedSame(a: map<Name, seq<NameIndex>>, b: map<Name, seq<NameIndex>>)
    requires SameHistories(a, b)
    ensures forall pos :: Unrecorded(a, pos) <==> Unrecorded(b, pos)
  {
    SameHistoriesBack(a, b);
    forall pos ensures Unrecorded(a, pos) <==> Unrecorded(b, pos) {
      UnrecordedSame(a, b, pos);
      UnrecordedSame(b, a, pos);
    }
  }

  /** What a run leaves, as connected straight along its branch with its own best heights. */
  lemma RunInWorld(src: Source, genesis: StoredBlock, events: seq<Event>) returns (sites: seq<Site>, s: Indexes)
    requires Regular(genesis, src.testnet, events) && Play(genesis, src.testnet, events).Ok? && InWorld(src, events)
    ensures var n := Play(genesis, src.testnet, events).value;
            && Built(sites, src.testnet, n.chain, s) && n.s.txs == s.txs && SameHistories(n.s.names, s.names)
    ensures SitesFrom(sites, events) && SitesAgree(src, sites)
            && forall k :: 0 <= k < |sites| ==> OwnBlockOnFile(sites[k])
  {
    hide Regular, Play, Built, SitesFrom, EnvsAgree, SitesAgree, Build, SameHistories, BlocksOnFile, OwnBlockOnFile;
    sites := RunIsStraight(genesis, src.testnet, events);
    s := Build(sites).value;
    SitesAgreeFrom(src, sites, events);
    SitesOnFile(sites, events);
  }

  /** Two runs that reach the same branch, by whatever detours, record the same names at the
      same positions and heights.  They store the same values exactly when the rules of the best
      heights at which they connected the blocks of the branch read the same values, and so
      whenever both only ever had best heights past the fork. */
  lemma BranchDeterminesNames(src: Source, genesis: StoredBlock, a: seq<Event>, b: seq<Event>)
    returns (sa: seq<Site>, sb: seq<Site>)
    requires Regular(genesis, src.testnet, a) && Play(genesis, src.testnet, a).Ok? && InWorld(src, a)
    requires Regular(genesis, src.testnet, b) && Play(genesis, src.testnet, b).Ok? && InWorld(src, b)
    requires Play(genesis, src.testnet, a).value.chain == Play(genesis, src.testnet, b).value.chain
    requires Holds(src, Log(Play(genesis, src.testnet, a).value.chain))
    ensures SitesFrom(sa, a) && SitesFrom(sb, b)
    ensures var m, n := Play(genesis, src.testnet, a).value, Play(genesis, src.testnet, b).value;
            && m.s.txs == n.s.txs && SamePlaces(false, m.s.names, n.s.names)
            && |sa| == |sb| == |m.chain| - 1
            && (SamePlaces(true, m.s.names, n.s.names) <==> RulesAgree(src.testnet, sa, sb, Log(m.chain), m.s.names))
            && (BestPastFork(src.testnet, a) && BestPastFork(src.testnet, b) ==> SamePlaces(true, m.s.names, n.s.names))
  {
    hide *;
    var m, n := Play(genesis, src.testnet, a).value, Play(genesis, src.testnet, b).value;
    var s, t;
    sa, s := RunInWorld(src, genesis, a);
    sb, t := RunInWorld(src, genesis, b);
    StraightDeterminesNames(src, sa, sb, m.chain, s, t);
    SameHistoriesCompare(m.s.names, s.names, n.s.names, t.names);
    AllUnrecordedSame(m.s.names, s.names);
    RulesAgreeSame(src.testnet, sa, sb, Log(m.chain), m.s.names, s.names);
    BuiltLength(sa, src.testnet, m.chain, s);
    BuiltLength(sb, src.testnet, m.chain, t);
    if BestPastFork(src.testnet, a) && BestPastFork(src.testnet, b) {
      LogHeights(m.chain);
      PastForkRulesAgree(src.testnet, sa, a, sb, b, Log(m.chain), m.s.names);
    }
  }

  lemma BuiltLength(sites: seq<Site>, testnet: bool, chain: Chain, s: Indexes)
    requires Built(sites, testnet, chain, s)
    ensures |sites| == |chain| - 1
  {
  }

  ghost predicate BestPastFork(testnet: bool, events: seq<Event>) {
    forall i :: 0 <= i < |events| && events[i].Attach? ==> PostLibcoinFork(testnet, events[i].best)
  }

  lemma {:induction false} LogHeights(chain: Chain)
    ensures forall k :: 0 <= k < |Log(chain)| ==> 1 <= Log(chain)[k].height < |chain|
    decreases |chain|
  {
    if |chain| > 1 {
      LogHeights(chain[..|chain| - 1]);
      var n := |Tip(chain).block.vtx|;
      forall j | 0 <= j < n ensures BlockLog(chain, n)[j].height == |chain| - 1 {
        BlockLogEntry(chain, n, j);
      }
    }
  }

  lemma PastForkRulesAgree(testnet: bool, sa: seq<Site>, a: seq<Event>, sb: seq<Site>, b: seq<Event>, log: seq<Logged>,
                           names: map<Name, seq<NameIndex>>)
    requires SitesFrom(sa, a) && BestPastFork(testnet, a) && SitesFrom(sb, b) && BestPastFork(testnet, b)
    requires |sa| == |sb| && forall k :: 0 <= k < |log| ==> 1 <= log[k].height <= |sa|
    ensures RulesAgree(testnet, sa, sb, log, names)
  {
    hide ReadValue, Unrecorded, PostLibcoinFork;
    forall h: nat | 1 <= h <= |sa| ensures RuleUsed(testnet, sa, h) && RuleUsed(testnet, sb, h) {
      assert AttachedIn(sa[h - 1], a) && AttachedIn(sb[h - 1], b);
      var i :| 0 <= i < |a| && a[i] == Attach(sa[h - 1].env, Tip(sa[h - 1].path), sa[h - 1].best);
      var j :| 0 <= j < |b| && b[j] == Attach(sb[h - 1].env, Tip(sb[h - 1].path), sb[h - 1].best);
    }
  }

  lemma SameHistoriesCompare(a: map<Name, seq<NameIndex>>, a': map<Name, seq<NameIndex>>, b: map<Name, seq<NameIndex>>,
                             b': map<Name, seq<NameIndex>>)
    requires SameHistories(a, a') && SameHistories(b, b')
    ensures SamePlaces(false, a, b) <==> SamePlaces(false, a', b')
    ensures SamePlaces(true, a, b) <==> SamePlaces(true, a', b')
  {
    hide SamePlaces, SameHistories;
    SamePlacesReflexive(b);
    SamePlacesReflexive(b');
    forall values: bool ensures SamePlaces(values, a, b) <==> SamePlaces(values, a', b') {
      SameHistoriesSamePlaces(values, a, a', b);
      SameHistoriesSamePlaces(values, b, b', b');
      SameHistoriesSamePlaces(values, b, b', b);
      if SamePlaces(values, a', b) {
        SamePlacesChain(values, a', b, b');
      }
      if SamePlaces(values, a', b') {
        SamePlacesChain(values, a', b', b);
      }
    }
  }

  lemma SamePlacesReflexive(a: map<Name, seq<NameIndex>>)
    ensures SamePlaces(false, a, a) && SamePlaces(true, a, a)
  {
  }

  lemma SamePlacesChain(values: bool, a: map<Name, seq<NameIndex>>, b: map<Name, seq<NameIndex>>,
                        c: map<Name, seq<NameIndex>>)
    requires SamePlaces(values, a, b) && SamePlaces(values, b, c)
    ensures SamePlaces(values, a, c)
  {
    forall name ensures Places(values, History(a, name)) == Places(values, History(c, name)) {
      assert Places(values, History(a, name)) == Places(values, History(b, name)) == Places(values, History(c, name));
    }
  }

  lemma RulesAgreeSame(testnet: bool, sa: seq<Site>, sb: seq<Site>, log: seq<Logged>, names: map<Name, seq<NameIndex>>,
                       others: map<Name, seq<NameIndex>>)
    requires forall pos :: Unrecorded(names, pos) <==> Unrecorded(others, pos)
    ensures RulesAgree(testnet, sa, sb, log, names) <==> RulesAgree(testnet, sa, sb, log, others)
  {
    hide ReadValue, RuleUsed, Unrecorded;
  }

  /** After any run, reorganizations included: the name index, values included, is what a rescan
      of the branch reached would build exactly when no coinbase past the fork registers a name
      and each recorded transaction has one value by both rules. */
  lemma RunValues(src: Source, genesis: StoredBlock, events: seq<Event>) returns (sites: seq<Site>)
    requires Regular(genesis, src.testnet, events) && Play(genesis, src.testnet, events).Ok? && InWorld(src, events)
    requires var n := Play(genesis, src.testnet, events).value;
             src.txs == n.s.txs && Holds(src, Log(n.chain)) && 0 !in n.s.txs
    ensures SitesFrom(sites, events)
    ensures var n := Play(genesis, src.testnet, events).value;
            && |sites| == |n.chain| - 1
            && (SamePlaces(true, n.s.names, Reconstruct(src, Log(n.chain)))
                <==> CoinbasesSilent(src.testnet, Log(n.chain))
                     && SameValueByBothRules(src.testnet, sites, Log(n.chain), n.s.names))
  {
    hide *;
    var n := Play(genesis, src.testnet, events).value;
    var s;
    sites, s := RunInWorld(src, genesis, events);
    BuiltLength(sites, src.testnet, n.chain, s);
    RescanValuesExact(src, sites, src.testnet, n.chain, s);
    SameHistoriesSamePlaces(true, n.s.names, s.names, Reconstruct(src, Log(n.chain)));
    AllUnrecordedSame(n.s.names, s.names);
    BothRulesSame(src.testnet, sites, Log(n.chain), n.s.names, s.names);
  }

  lemma BothRulesSame(testnet: bool, sites: seq<Site>, log: seq<Logged>, names: map<Name, seq<NameIndex>>,
                      others: map<Name, seq<NameIndex>>)
    requires forall pos :: Unrecorded(names, pos) <==> Unrecorded(others, pos)
    ensures SameValueByBothRules(testnet, sites, log, names) <==> SameValueByBothRules(testnet, sites, log, others)
  {
    hide ReadValue, RuleUsed, Unrecorded, PostLibcoinFork;
  }
}
