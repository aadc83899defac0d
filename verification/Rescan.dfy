/** ReconstructNameIndex, the from-scratch computation of the name index, and its agreement
    with what the connection hook wrote step by step (src/namecoin.cpp). */
module Rescan {
  import opened Common
  import opened ScriptCode
  import opened NameScript
  import opened ChainTypes
  import opened NameRules
  import opened Connect
  import opened Undo
  import opened ChainRun
  import opened TxLog

  /** What a rescan reads: the final transaction index and the block files. */
  datatype Source = Source(testnet: bool, txs: map<Hash, TxIndex>, disk: map<DiskTxPos, Tx>, hash160: Bytes -> Bytes)

  predicate Readable(src: Source, o: OutPoint) {
    o.hash in src.txs && src.txs[o.hash].pos in src.disk && o.n < |src.disk[src.txs[o.hash].pos].vout|
  }

  /** Spent scripts and positions of the inputs that NameBugWorkaround manages to read; it
      skips the others with a warning. */
  datatype PrevOutputs = PrevOutputs(scripts: seq<Script>, positions: seq<DiskTxPos>)

  function ReadPrevOutputs(src: Source, tx: Tx, i: nat): (r: PrevOutputs)
    requires i <= |tx.vin|
    ensures |r.scripts| == |r.positions|
  {
    if i == 0 then PrevOutputs([], [])
    else
      var r := ReadPrevOutputs(src, tx, i - 1);
      var o := tx.vin[i - 1];
      if !Readable(src, o) then r
      else
        var pos := src.txs[o.hash].pos;
        PrevOutputs(r.scripts + [src.disk[pos].vout[o.n].scriptPubKey], r.positions + [pos])
  }

  /** How many of the first `i` inputs can be read. */
  function CountReadable(src: Source, tx: Tx, i: nat): (n: nat)
    requires i <= |tx.vin|
    ensures n <= i
  {
    if i == 0 then 0 else CountReadable(src, tx, i - 1) + if Readable(src, tx.vin[i - 1]) then 1 else 0
  }

  /** The outputs of the inputs that can be read, and no others, in the order of the inputs. */
  lemma {:induction false} PrevOutputsExact(src: Source, tx: Tx, i: nat)
    requires i <= |tx.vin|
    ensures var r := ReadPrevOutputs(src, tx, i);
            && |r.scripts| == CountReadable(src, tx, i)
            && forall j :: 0 <= j < i && Readable(src, tx.vin[j]) ==>
                 var k, o := CountReadable(src, tx, j), tx.vin[j];
                 && k < |r.scripts| && r.positions[k] == src.txs[o.hash].pos
                 && r.scripts[k] == src.disk[src.txs[o.hash].pos].vout[o.n].scriptPubKey
  {
    hide Readable;
    if i > 0 {
      PrevOutputsExact(src, tx, i - 1);
    }
  }

  /** NameBugWorkaround: None when it rejects, otherwise the position of the previous name
      transaction. */
  function NameBugWorkaround(src: Source, tx: Tx): Option<DiskTxPos> {
    var prevs := ReadPrevOutputs(src, tx, |tx.vin|);
    var prev := ScanScripts(false, prevs.scripts, |prevs.scripts|);
    var d := DecodeNameTx(tx, false);
    if prev.multiple || !prev.found || !d.good || !ArgsCover(d) then None
    else if d.op == OP_NAME_FIRSTUPDATE && !CommitmentMatches(src.hash160, prev.args[0], d.args[1], d.args[0]) then None
    else if d.op == OP_NAME_UPDATE && prev.args[0] != d.args[0] then None
    else Some(prevs.positions[prev.index])
  }

  /** The vector reads of the rescan stay in bounds; unlike the hook it lets operations other
      than the three name operations pass. */
  predicate RescanArgsCover(d: NameTx) {
    |d.args| >= if d.op == OP_NAME_FIRSTUPDATE then 3 else 2
  }

  /** The name for which the rescan adds an entry when it visits a transaction. */
  function RescanName(src: Source, names: map<Name, seq<NameIndex>>, e: Logged): Option<Name> {
    if !e.tx.IsName() then None
    else
      var d := DecodeNameTx(e.tx, PostLibcoinFork(src.testnet, e.height));
      if !d.good || d.op == OP_NAME_NEW || !RescanArgsCover(d) then None
      else if e.tx.txid !in src.txs || src.txs[e.tx.txid].pos !in src.disk then None
      else if PostLibcoinFork(src.testnet, e.height) then Some(d.args[0])
      else
        match NameBugWorkaround(src, e.tx)
        case None => None
        case Some(prevTxPos) =>
          if d.op == OP_NAME_UPDATE && !LastEntryIs(History(names, d.args[0]), prevTxPos) then None
          else Some(d.args[0])
  }

  function RescanEntry(src: Source, e: Logged): NameIndex
    requires e.tx.txid in src.txs
  {
    var d := DecodeNameTx(e.tx, PostLibcoinFork(src.testnet, e.height));
    NameIndex(src.txs[e.tx.txid].pos, e.height,
              if !RescanArgsCover(d) then [] else if d.op == OP_NAME_FIRSTUPDATE then d.args[2] else d.args[1])
  }

  function RescanStep(src: Source, names: map<Name, seq<NameIndex>>, e: Logged): map<Name, seq<NameIndex>> {
    match RescanName(src, names, e)
    case None => names
    case Some(name) => AppendEntry(names, name, RescanEntry(src, e))
  }

  /** The name index after the rescan has visited the log, starting from an empty database. */
  function Reconstruct(src: Source, log: seq<Logged>): map<Name, seq<NameIndex>> {
    if log == [] then map[]
    else RescanStep(src, Reconstruct(src, log[..|log| - 1]), log[|log| - 1])
  }

  lemma ReconstructLonger(src: Source, log: seq<Logged>, e: Logged)
    ensures Reconstruct(src, log + [e]) == RescanStep(src, Reconstruct(src, log), e)
  {
    assert (log + [e])[..|log|] == log;
  }

  /** The rescan with the coinbases left out. */
  function Replay(src: Source, log: seq<Logged>): map<Name, seq<NameIndex>> {
    if log == [] then map[]
    else
      var names, e := Replay(src, log[..|log| - 1]), log[|log| - 1];
      if e.tx.IsCoinBase() then names else RescanStep(src, names, e)
  }

  // ----- comparing histories by position and height, and optionally value -----

  function Seen(values: bool, e: NameIndex): NameIndex {
    if values then e else e.(vValue := [])
  }

  function Places(values: bool, history: seq<NameIndex>): seq<NameIndex> {
    seq(|history|, i requires 0 <= i < |history| => Seen(values, history[i]))
  }

  ghost predicate SamePlaces(values: bool, a: map<Name, seq<NameIndex>>, b: map<Name, seq<NameIndex>>) {
    forall name :: Places(values, History(a, name)) == Places(values, History(b, name))
  }

  lemma AppendSamePlaces(values: bool, a: map<Name, seq<NameIndex>>, b: map<Name, seq<NameIndex>>, name: Name,
                         e: NameIndex, f: NameIndex)
    requires SamePlaces(values, a, b) && Seen(values, e) == Seen(values, f)
    ensures SamePlaces(values, AppendEntry(a, name, e), AppendEntry(b, name, f))
  {
    forall n
      ensures Places(values, History(AppendEntry(a, name, e), n)) == Places(values, History(AppendEntry(b, name, f), n))
    {
      assert Places(values, History(a, n)) == Places(values, History(b, n));
      if n == name {
        assert Places(values, History(a, n) + [e]) == Places(values, History(a, n)) + [Seen(values, e)];
        assert Places(values, History(b, n) + [f]) == Places(values, History(b, n)) + [Seen(values, f)];
      }
    }
  }

  lemma LastEntrySamePlaces(a: map<Name, seq<NameIndex>>, b: map<Name, seq<NameIndex>>, name: Name, pos: DiskTxPos)
    requires SamePlaces(false, a, b)
    ensures LastEntryIs(History(a, name), pos) <==> LastEntryIs(History(b, name), pos)
  {
    var x, y := History(a, name), History(b, name);
    assert Places(false, x) == Places(false, y);
    assert |Places(false, x)| == |x| && |Places(false, y)| == |y|;
    if x != [] {
      assert Places(false, x)[|x| - 1] == Places(false, y)[|y| - 1];
    }
  }

  // ----- one transaction -----

  /** The block files hold what the connection saw, and the final index still has every
      transaction at the position it had then. */
  ghost predicate Agrees(src: Source, site: Site, txs: map<Hash, TxIndex>) {
    && site.env.testnet == src.testnet
    && site.env.hash160 == src.hash160
    && (forall pos :: pos in site.env.disk ==> pos in src.disk && src.disk[pos] == site.env.disk[pos])
    && (forall h :: h in txs ==> h in src.txs && src.txs[h].pos == txs[h].pos)
  }

  /** The rescan reads the same spent outputs as the connection did. */
  lemma {:induction false} SamePrevOutputs(src: Source, site: Site, txs: map<Hash, TxIndex>, tx: Tx, i: nat)
    requires i <= |tx.vin| && SpendInputs(site, txs, tx, i).Ok? && Agrees(src, site, txs)
    ensures var a := SpendInputs(site, txs, tx, i).value;
            var r := ReadPrevOutputs(src, tx, i);
            r.scripts == a.scripts && r.positions == a.prevPos
  {
    if i > 0 {
      SamePrevOutputs(src, site, txs, tx, i - 1);
      SpendInputsEffect(site, txs, tx, i - 1);
    }
  }

  /** Before the fork: the hook's tolerance decisions are those of NameBugWorkaround. */
  lemma OldRuleAgrees(src: Source, site: Site, names: map<Name, seq<NameIndex>>, rescanned: map<Name, seq<NameIndex>>,
                      tx: Tx, a: Inputs, e: Logged)
    requires site.Valid() && |a.scripts| == |a.prevPos|
    requires ReadPrevOutputs(src, tx, |tx.vin|) == PrevOutputs(a.scripts, a.prevPos)
    requires site.env.testnet == src.testnet && site.env.hash160 == src.hash160
    requires !PostLibcoinFork(src.testnet, site.Height()) && SamePlaces(false, names, rescanned)
    requires NameDecision(site, names, tx, a).Ok?
    requires e.tx == tx && e.height == site.Height()
    requires tx.txid in src.txs && src.txs[tx.txid].pos in src.disk
    ensures RescanName(src, rescanned, e) == NameDecision(site, names, tx, a).value
  {
    hide ScanScripts, ReadPrevOutputs, SamePlaces, RelativeDepth, NetworkFee, NameNetFee, HasNameOutput, History;
    if tx.IsName() {
      var d := DecodeNameTx(tx, false);
      var prev := ScanScripts(false, a.scripts, |a.scripts|);
      if prev.found {
        LastEntrySamePlaces(names, rescanned, d.args[0], a.prevPos[prev.index]);
      }
    }
  }

  /** A coinbase that the rescan will not index.  The connection hook never sees coinbases. */
  predicate CoinbaseSilent(testnet: bool, height: nat, tx: Tx) {
    var d := DecodeNameTx(tx, true);
    !(PostLibcoinFork(testnet, height) && tx.IsName() && d.good && d.op != OP_NAME_NEW && RescanArgsCover(d))
  }

  lemma CoinbaseNotIndexed(src: Source, names: map<Name, seq<NameIndex>>, e: Logged)
    requires e.tx.IsCoinBase() && 0 !in src.txs
    ensures RescanName(src, names, e).Some? ==> !CoinbaseSilent(src.testnet, e.height, e.tx)
    ensures e.tx.txid in src.txs && src.txs[e.tx.txid].pos in src.disk ==>
              (RescanName(src, names, e).None? <==> CoinbaseSilent(src.testnet, e.height, e.tx))
  {
    assert ReadPrevOutputs(src, e.tx, 0).scripts == [];
    assert ReadPrevOutputs(src, e.tx, 1) == ReadPrevOutputs(src, e.tx, 0);
  }

  /** Connecting a transaction does to the name index what the replay does, up to values. */
  lemma ReplayAgrees(src: Source, site: Site, c: Connected, e: Logged, done: seq<Logged>)
    requires site.Valid() && ConnectTx(site, c, e.tx, e.pos).Ok? && e.height == site.Height()
    requires Agrees(src, site, c.s.txs)
    requires e.tx.txid in src.txs && src.txs[e.tx.txid].pos == e.pos && e.pos in src.disk
    requires SamePlaces(false, c.s.names, Replay(src, done))
    ensures SamePlaces(false, ConnectTx(site, c, e.tx, e.pos).value.s.names, Replay(src, done + [e]))
  {
    var rescanned := Replay(src, done);
    assert (done + [e])[..|done|] == done;
    ConnectTxNames(site, c, e.tx, e.pos);
    if e.tx.IsCoinBase() {
      assert RecordedName(site, c, e.tx) == None;
    } else {
      NonCoinbaseAgrees(src, site, c, e.tx, e.pos, rescanned);
    }
    hide ConnectTx, RescanName, SamePlaces, StoredValue, AppendEntry, RecordedName;
    match RecordedName(site, c, e.tx) {
      case None =>
      case Some(name) =>
        AppendSamePlaces(false, c.s.names, rescanned, name, NameIndex(e.pos, site.Height(), StoredValue(site, e.pos)),
                         RescanEntry(src, e));
    }
  }

  lemma NonCoinbaseAgrees(src: Source, site: Site, c: Connected, tx: Tx, pos: DiskTxPos,
                          rescanned: map<Name, seq<NameIndex>>)
    requires site.Valid() && ConnectTx(site, c, tx, pos).Ok? && !tx.IsCoinBase()
    requires Agrees(src, site, c.s.txs)
    requires tx.txid in src.txs && src.txs[tx.txid].pos == pos && pos in src.disk
    requires SamePlaces(false, c.s.names, rescanned)
    ensures RescanName(src, rescanned, Logged(tx, pos, site.Height())) == RecordedName(site, c, tx)
  {
    var e := Logged(tx, pos, site.Height());
    var a := SpendInputs(site, c.s.txs, tx, |tx.vin|).value;
    if PostLibcoinFork(src.testnet, site.Height()) {
      NewRuleAgrees(src, site, c.s.names, tx, a, e, rescanned);
    } else {
      SamePrevOutputs(src, site, c.s.txs, tx, |tx.vin|);
      OldRuleAgrees(src, site, c.s.names, rescanned, tx, a, e);
    }
  }

  lemma NewRuleAgrees(src: Source, site: Site, names: map<Name, seq<NameIndex>>, tx: Tx, a: Inputs, e: Logged,
                      rescanned: map<Name, seq<NameIndex>>)
    requires site.Valid() && |a.scripts| == |a.prevPos| && site.env.testnet == src.testnet
    requires PostLibcoinFork(src.testnet, site.Height()) && NameDecision(site, names, tx, a).Ok?
    requires e.tx == tx && e.height == site.Height()
    requires tx.txid in src.txs && src.txs[tx.txid].pos in src.disk
    ensures RescanName(src, rescanned, e) == NameDecision(site, names, tx, a).value
  {
    hide ScanScripts, RelativeDepth, NetworkFee, NameNetFee, HasNameOutput, History;
  }

  // ----- the whole branch -----

  /** Everything on the branch is in the block files, at its recorded position. */
  ghost predicate OnDisk(src: Source, log: seq<Logged>) {
    forall k :: 0 <= k < |log| ==> log[k].pos in src.disk
  }

  ghost predicate SitesAgree(src: Source, sites: seq<Site>) {
    forall k :: 0 <= k < |sites| ==> Agrees(src, sites[k], map[])
  }

  ghost predicate CoinbasesSilent(testnet: bool, log: seq<Logged>) {
    forall k :: 0 <= k < |log| && log[k].tx.IsCoinBase() ==> CoinbaseSilent(testnet, log[k].height, log[k].tx)
  }

  /** Positions never change once assigned: an index over a prefix of the log agrees with the
      index over the whole log. */
  lemma PrefixAgrees(src: Source, site: Site, txs: map<Hash, TxIndex>, log: seq<Logged>, full: seq<Logged>)
    requires IndexOf(txs, log) && IndexOf(src.txs, full) && log <= full && Agrees(src, site, map[])
    ensures Agrees(src, site, txs)
  {
    forall h | h in txs ensures h in src.txs && src.txs[h].pos == txs[h].pos {
      var k :| 0 <= k < |log| && log[k].tx.txid == h;
      assert full[k] == log[k];
    }
  }

  lemma ReplayOneTx(src: Source, site: Site, c: Connected, e: Logged, done: seq<Logged>, full: seq<Logged>)
    requires site.Valid() && ConnectTx(site, c, e.tx, e.pos).Ok? && e.height == site.Height()
    requires IndexOf(c.s.txs, done) && IndexOf(src.txs, full) && done + [e] <= full
    requires Agrees(src, site, map[]) && OnDisk(src, full)
    requires SamePlaces(false, c.s.names, Replay(src, done))
    ensures SamePlaces(false, ConnectTx(site, c, e.tx, e.pos).value.s.names, Replay(src, done + [e]))
  {
    assert full[|done|] == e;
    assert e.tx.txid in src.txs && src.txs[e.tx.txid].pos == e.pos && e.pos in src.disk;
    hide ConnectTx, SamePlaces, OnDisk, Replay, IndexOf, Agrees;
    PrefixAgrees(src, site, c.s.txs, done, full);
    ReplayAgrees(src, site, c, e, done);
  }

  lemma {:induction false} ReplayTxs(src: Source, site: Site, s: Indexes, i: nat, log: seq<Logged>, full: seq<Logged>)
    requires site.Valid() && i <= |Tip(site.path).block.vtx| && ConnectTxs(site, s, i).Ok?
    requires FreshTxids(s.txs, Tip(site.path).block.vtx) && DistinctTxids(Tip(site.path).block.vtx)
    requires NoEntryFrom(s.names, Tip(site.path), 0)
    requires IndexOf(s.txs, log) && IndexOf(src.txs, full) && log + BlockLog(site.path, i) <= full
    requires Agrees(src, site, map[]) && OnDisk(src, full)
    requires SamePlaces(false, s.names, Replay(src, log))
    ensures SamePlaces(false, ConnectTxs(site, s, i).value.s.names, Replay(src, log + BlockLog(site.path, i)))
  {
    hide ConnectTx, SamePlaces, IndexOf, NoEntryFrom, Agrees, Replay, FreshTxids, DistinctTxids, OnDisk;
    if i == 0 {
      assert log + BlockLog(site.path, 0) == log;
    } else {
      var b, done := Tip(site.path), log + BlockLog(site.path, i - 1);
      var e := Logged(b.block.vtx[i - 1], TxPos(b, i - 1), site.Height());
      assert done + [e] == log + BlockLog(site.path, i);
      ReplayTxs(src, site, s, i - 1, log, full);
      ConnectTxsIndex(site, s, i - 1, log);
      ReplayOneTx(src, site, ConnectTxs(site, s, i - 1).value, e, done, full);
    }
  }

  /** The name index, up to values, as a closed form of the branch: on every accepted branch,
      tolerated pre-fork transactions included, the replay finds for each name the positions and
      heights that the hook recorded step by step. */
  lemma {:induction false} BuiltNames(src: Source, sites: seq<Site>, testnet: bool, chain: Chain, s: Indexes,
                                      full: seq<Logged>)
    requires Built(sites, testnet, chain, s) && Log(chain) <= full
    requires IndexOf(src.txs, full) && SitesAgree(src, sites) && OnDisk(src, full)
    ensures SamePlaces(false, s.names, Replay(src, Log(chain)))
    decreases |sites|
  {
    if sites != [] {
      var front, prefix := sites[..|sites| - 1], chain[..|chain| - 1];
      var before := Build(front).value;
      var site := sites[|sites| - 1];
      assert site.path == chain;
      assert Log(prefix) <= Log(chain);
      hide ConnectTxs, IndexOf, EntriesIn, NoEntryFrom, FreshTxids, Agrees, SamePlaces, Replay, OnDisk;
      BuiltNames(src, front, testnet, prefix, before, full);
      BuiltEntries(front, testnet, prefix, before);
      EntriesElsewhere(before.names, prefix, Tip(chain));
      BuiltIndex(front, testnet, prefix, before);
      ReplayTxs(src, site, before, |Tip(chain).block.vtx|, Log(prefix), full);
    }
  }

  /** Silent coinbases make no difference to the rescan. */
  lemma {:induction false} SilentReplay(src: Source, log: seq<Logged>)
    requires CoinbasesSilent(src.testnet, log) && 0 !in src.txs
    ensures Reconstruct(src, log) == Replay(src, log)
    decreases |log|
  {
    hide CoinbaseSilent, RescanName;
    if log != [] {
      var front, e := log[..|log| - 1], log[|log| - 1];
      SilentReplay(src, front);
      if e.tx.IsCoinBase() {
        CoinbaseNotIndexed(src, Replay(src, front), e);
      }
    }
  }

  /** For every branch the node accepts: a rescan finds for each name the positions and heights
      that the hook recorded step by step, provided that no coinbase past the fork registers a
      name. */
  lemma RescanMatches(src: Source, sites: seq<Site>, testnet: bool, chain: Chain, s: Indexes)
    requires Built(sites, testnet, chain, s)
    requires src.txs == s.txs && SitesAgree(src, sites) && OnDisk(src, Log(chain)) && 0 !in s.txs
    requires CoinbasesSilent(src.testnet, Log(chain))
    ensures SamePlaces(false, s.names, Reconstruct(src, Log(chain)))
  {
    hide IndexOf, SamePlaces, Reconstruct, Replay, OnDisk, CoinbasesSilent, SitesAgree;
    BuiltIndex(sites, testnet, chain, s);
    BuiltNames(src, sites, testnet, chain, s, Log(chain));
    SilentReplay(src, Log(chain));
  }

  // ----- the coinbase condition is exact -----

  lemma TxStaysUnrecorded(site: Site, c: Connected, tx: Tx, at: DiskTxPos, pos: DiskTxPos)
    requires site.Valid() && ConnectTx(site, c, tx, at).Ok?
    requires Unrecorded(c.s.names, pos) && (at != pos || tx.IsCoinBase())
    ensures Unrecorded(ConnectTx(site, c, tx, at).value.s.names, pos)
  {
    ConnectTxNames(site, c, tx, at);
    hide ConnectTx, StoredValue;
    if tx.IsCoinBase() {
      assert RecordedName(site, c, tx) == None;
    }
    hide RecordedName;
  }

  /** A position stays unrecorded while transactions at other positions, and coinbases, are
      connected. */
  lemma {:induction false} StaysUnrecorded(site: Site, s: Indexes, i: nat, pos: DiskTxPos)
    requires site.Valid() && i <= |Tip(site.path).block.vtx| && ConnectTxs(site, s, i).Ok?
    requires Unrecorded(s.names, pos)
    requires forall j :: 0 <= j < i ==> TxPos(Tip(site.path), j) != pos || Tip(site.path).block.vtx[j].IsCoinBase()
    ensures Unrecorded(ConnectTxs(site, s, i).value.s.names, pos)
  {
    hide ConnectTx, Unrecorded, TxPos;
    if i > 0 {
      StaysUnrecorded(site, s, i - 1, pos);
      TxStaysUnrecorded(site, ConnectTxs(site, s, i - 1).value, Tip(site.path).block.vtx[i - 1],
                        TxPos(Tip(site.path), i - 1), pos);
    }
  }

  lemma NewCoinbaseUnrecorded(site: Site, before: Indexes, j: nat)
    requires site.Valid() && j < |Tip(site.path).block.vtx| && Tip(site.path).block.vtx[j].IsCoinBase()
    requires ConnectTxs(site, before, |Tip(site.path).block.vtx|).Ok? && NoEntryFrom(before.names, Tip(site.path), 0)
    ensures Unrecorded(ConnectTxs(site, before, |Tip(site.path).block.vtx|).value.s.names, TxPos(Tip(site.path), j))
  {
    hide ConnectTxs;
    var b := Tip(site.path);
    forall i | 0 <= i < |b.block.vtx| && i != j ensures TxPos(b, i) != TxPos(b, j) {
      OffsetsIncrease(b, if i < j then i else j, if i < j then j else i);
    }
    StaysUnrecorded(site, before, |b.block.vtx|, TxPos(b, j));
  }

  lemma OldPositionUnrecorded(site: Site, before: Indexes, pos: DiskTxPos)
    requires site.Valid() && Unrecorded(before.names, pos) && !InBlock(Tip(site.path), pos)
    requires ConnectTxs(site, before, |Tip(site.path).block.vtx|).Ok?
    ensures Unrecorded(ConnectTxs(site, before, |Tip(site.path).block.vtx|).value.s.names, pos)
  {
    hide ConnectTxs;
    StaysUnrecorded(site, before, |Tip(site.path).block.vtx|, pos);
  }

  /** The hook never records the position of a coinbase. */
  lemma {:induction false} CoinbasesUnrecorded(sites: seq<Site>, testnet: bool, chain: Chain, s: Indexes, k: nat)
    requires Built(sites, testnet, chain, s)
    requires k < |Log(chain)| && Log(chain)[k].tx.IsCoinBase()
    ensures Unrecorded(s.names, Log(chain)[k].pos)
    decreases |sites|
  {
    var front, prefix := sites[..|sites| - 1], chain[..|chain| - 1];
    var before, site, b := Build(front).value, sites[|sites| - 1], Tip(chain);
    var pos, n := Log(chain)[k].pos, |Tip(chain).block.vtx|;
    assert site.path == chain;
    assert Build(sites) == ConnectBlock(site, before);
    assert Built(front, testnet, prefix, before);
    assert FreshBlock(prefix, before, b);
    assert Log(chain) == Log(prefix) + BlockLog(chain, n);
    hide ConnectTxs, ConnectBlock, Built, Build, Along, Unrecorded, FreshTxids, Log, BlockLog, TxPos, CheckBlock;
    ConnectBlockUnfolds(site, before);
    if k < |Log(prefix)| {
      CoinbasesUnrecorded(front, testnet, prefix, before, k);
      LogEntryOnBranch(prefix, k);
      var a :| a in prefix && InBlock(a, pos);
      assert !SamePlace(a, b);
      OldPositionUnrecorded(site, before, pos);
    } else {
      var j := k - |Log(prefix)|;
      BlockLogEntry(chain, n, j);
      BuiltEntries(front, testnet, prefix, before);
      EntriesElsewhere(before.names, prefix, b);
      NewCoinbaseUnrecorded(site, before, j);
    }
  }

  /** The rescan never removes an entry. */
  lemma {:induction false} RescanKeeps(src: Source, log: seq<Logged>, k: nat, name: Name)
    requires k < |log| && log[k].tx.txid in src.txs
    requires RescanName(src, Reconstruct(src, log[..k]), log[k]) == Some(name)
    ensures exists i :: 0 <= i < |History(Reconstruct(src, log), name)|
                     && History(Reconstruct(src, log), name)[i].txPos == src.txs[log[k].tx.txid].pos
    decreases |log|
  {
    hide RescanName;
    var front := log[..|log| - 1];
    if k == |log| - 1 {
      var h := History(Reconstruct(src, log), name);
      assert h[|h| - 1].txPos == src.txs[log[k].tx.txid].pos;
    } else {
      assert front[..k] == log[..k];
      RescanKeeps(src, front, k, name);
      var h, g := History(Reconstruct(src, front), name), History(Reconstruct(src, log), name);
      var i :| 0 <= i < |h| && h[i].txPos == src.txs[log[k].tx.txid].pos;
      assert g[i] == h[i];
    }
  }

  /** The rescan and the hook agree on a branch exactly when no coinbase past the fork
      registers a name. */
  lemma RescanExact(src: Source, sites: seq<Site>, testnet: bool, chain: Chain, s: Indexes)
    requires Built(sites, testnet, chain, s)
    requires src.txs == s.txs && SitesAgree(src, sites) && OnDisk(src, Log(chain)) && 0 !in s.txs
    ensures SamePlaces(false, s.names, Reconstruct(src, Log(chain))) <==> CoinbasesSilent(src.testnet, Log(chain))
  {
    var log := Log(chain);
    if CoinbasesSilent(src.testnet, log) {
      RescanMatches(src, sites, testnet, chain, s);
    } else {
      var k :| 0 <= k < |log| && log[k].tx.IsCoinBase() && !CoinbaseSilent(src.testnet, log[k].height, log[k].tx);
      BuiltIndex(sites, testnet, chain, s);
      assert src.txs[log[k].tx.txid].pos == log[k].pos;
      CoinbaseNotIndexed(src, Reconstruct(src, log[..k]), log[k]);
      CoinbasesUnrecorded(sites, testnet, chain, s, k);
      hide RescanName, Reconstruct, Build, CoinbaseSilent, IndexOf;
      var name := RescanName(src, Reconstruct(src, log[..k]), log[k]).value;
      RescanKeeps(src, log, k, name);
      var theirs := History(Reconstruct(src, log), name);
      var i :| 0 <= i < |theirs| && theirs[i].txPos == log[k].pos;
      if SamePlaces(false, s.names, Reconstruct(src, log)) {
        SamePlaceAt(false, s.names, Reconstruct(src, log), name, i);
        assert false;
      }
    }
  }

  lemma SamePlaceAt(values: bool, a: map<Name, seq<NameIndex>>, b: map<Name, seq<NameIndex>>, name: Name, i: nat)
    requires SamePlaces(values, a, b) && i < |History(b, name)|
    ensures i < |History(a, name)| && History(a, name)[i].txPos == History(b, name)[i].txPos
  {
    var x, y := History(a, name), History(b, name);
    assert Places(values, x) == Places(values, y);
    assert |Places(values, x)| == |x| && |Places(values, y)| == |y|;
    assert Places(values, x)[i] == Places(values, y)[i];
  }

  // ----- every run -----

  /** All environments of the run read the same block files, which `src` holds. */
  ghost predicate EnvsAgree(src: Source, events: seq<Event>) {
    forall i :: 0 <= i < |events| && events[i].Attach? ==> Agrees(src, Site(events[i].env, [], 0), map[])
  }

  lemma SitesAgreeFrom(src: Source, sites: seq<Site>, events: seq<Event>)
    requires SitesFrom(sites, events) && EnvsAgree(src, events)
    ensures SitesAgree(src, sites)
  {
    forall k | 0 <= k < |sites| ensures Agrees(src, sites[k], map[]) {
      assert AttachedIn(sites[k], events);
      var i :| 0 <= i < |events| && events[i] == Attach(sites[k].env, Tip(sites[k].path), sites[k].best);
      assert Agrees(src, Site(events[i].env, [], 0), map[]);
    }
  }

  lemma SameHistoriesSamePlaces(values: bool, a: map<Name, seq<NameIndex>>, b: map<Name, seq<NameIndex>>,
                                c: map<Name, seq<NameIndex>>)
    requires SameHistories(a, b)
    ensures SamePlaces(values, a, c) <==> SamePlaces(values, b, c)
  {
    forall name ensures History(a, name) == History(b, name) {}
    if SamePlaces(values, a, c) {
      forall name ensures Places(values, History(b, name)) == Places(values, History(c, name)) {
        assert Places(values, History(a, name)) == Places(values, History(c, name));
      }
    }
    if SamePlaces(values, b, c) {
      forall name ensures Places(values, History(a, name)) == Places(values, History(c, name)) {
        assert Places(values, History(b, name)) == Places(values, History(c, name));
      }
    }
  }

  /** After any run, reorganizations included, the incrementally maintained name index is what
      a rescan of the branch reached would build, exactly when no coinbase past the fork
      registers a name. */
  lemma RunNames(src: Source, genesis: StoredBlock, events: seq<Event>)
    requires Regular(genesis, src.testnet, events) && Play(genesis, src.testnet, events).Ok?
    requires EnvsAgree(src, events)
    requires var n := Play(genesis, src.testnet, events).value;
             src.txs == n.s.txs && OnDisk(src, Log(n.chain)) && 0 !in n.s.txs
    ensures var n := Play(genesis, src.testnet, events).value;
            SamePlaces(false, n.s.names, Reconstruct(src, Log(n.chain))) <==> CoinbasesSilent(src.testnet, Log(n.chain))
  {
    hide Play, SamePlaces, Reconstruct, OnDisk, CoinbasesSilent, Built, SitesFrom, EnvsAgree, SitesAgree, Build,
         SameHistories;
    var n := Play(genesis, src.testnet, events).value;
    var sites := RunIsStraight(genesis, src.testnet, events);
    SitesAgreeFrom(src, sites, events);
    var s := Build(sites).value;
    RescanExact(src, sites, src.testnet, n.chain, s);
    SameHistoriesSamePlaces(false, n.s.names, s.names, Reconstruct(src, Log(n.chain)));
  }
}
