/** Past the libcoin fork a name has at most one live owner (src/namecoin.cpp). */
module Owner {
  import opened Common
  import opened ScriptCode
  import opened NameScript
  import opened ChainTypes
  import opened NameRules
  import opened Connect
  import opened Undo
  import opened ChainRun
  import opened TxLog

  // ----- expiry -----

  predicate Unexpired(height: int, at: int) {
    at - height < ExpirationDepth(at)
  }

  /** `h - ExpirationDepth(h)` never decreases: what has expired stays expired. */
  lemma ExpiredForever(height: int, at: int, later: int)
    requires at <= later && !Unexpired(height, at)
    ensures !Unexpired(height, later)
  {
  }

  /** Where the walk back over the branch stops. */
  lemma {:induction false} DepthFromSpec(path: Chain, pos: DiskTxPos, maxDepth: int, d: nat)
    ensures var r := DepthFrom(path, pos, maxDepth, d);
            && r >= -1
            && (r >= 0 ==> d <= r < |path| && r < maxDepth && InBlock(path[|path| - 1 - r], pos))
            && (r < 0 ==> forall j :: 0 <= j < |path| - d && |path| - 1 - j < maxDepth ==> !InBlock(path[j], pos))
    decreases |path| - d
  {
    if d < |path| && d < maxDepth && !InBlock(path[|path| - 1 - d], pos) {
      DepthFromSpec(path, pos, maxDepth, d + 1);
    }
  }

  ghost predicate DistinctPlaces(path: Chain) {
    forall i, j :: 0 <= i < j < |path| ==> !SamePlace(path[i], path[j])
  }

  /** The expiry tests of name_update (a walk over the branch) and of name_firstupdate
      (a comparison with the height stored in the index) are exact complements. */
  lemma ExpiryTestsComplementary(site: Site, e: NameIndex)
    requires site.Valid() && DistinctPlaces(site.path)
    requires e.nHeight < |site.path| && InBlock(site.path[e.nHeight], e.txPos)
    ensures RelativeDepth(site.path, e.txPos, ExpirationDepth(site.Height())) >= 0 <==>
              Unexpired(e.nHeight, site.Height())
  {
    var path, m := site.path, ExpirationDepth(site.Height());
    DepthFromSpec(path, e.txPos, m, 0);
    hide DepthFrom, ExpirationDepth;
    var r := RelativeDepth(path, e.txPos, m);
    if r >= 0 {
      OnePlace(path, |path| - 1 - r, e.nHeight, e.txPos);
    }
  }

  lemma OnePlace(path: Chain, i: nat, j: nat, pos: DiskTxPos)
    requires DistinctPlaces(path) && i < |path| && j < |path|
    requires InBlock(path[i], pos) && InBlock(path[j], pos)
    ensures i == j
  {
    assert SamePlace(path[i], path[j]) && SamePlace(path[j], path[i]);
  }

  /** Every logged transaction is in the block of its height. */
  ghost predicate LogInPlace(path: Chain, log: seq<Logged>) {
    forall k :: 0 <= k < |log| ==> log[k].height < |path| && InBlock(path[log[k].height], log[k].pos)
  }

  lemma {:induction false} LogPlaced(chain: Chain)
    requires chain != []
    ensures LogInPlace(chain, Log(chain))
    decreases |chain|
  {
    if |chain| > 1 {
      var prefix, n := chain[..|chain| - 1], |Tip(chain).block.vtx|;
      LogPlaced(prefix);
      forall k | 0 <= k < |Log(chain)|
        ensures Log(chain)[k].height < |chain| && InBlock(chain[Log(chain)[k].height], Log(chain)[k].pos)
      {
        if k < |Log(prefix)| {
          assert Log(chain)[k] == Log(prefix)[k];
        } else {
          BlockLogEntry(chain, n, k - |Log(prefix)|);
        }
      }
    }
  }

  lemma {:induction false} PlacesDistinct(sites: seq<Site>, testnet: bool, chain: Chain, s: Indexes)
    requires Built(sites, testnet, chain, s)
    ensures DistinctPlaces(chain)
    decreases |sites|
  {
    if sites != [] {
      BuiltSplit(sites, testnet, chain, s);
      hide ConnectBlock, ConnectTxs, Build, Built;
      var prefix := chain[..|chain| - 1];
      PlacesDistinct(sites[..|sites| - 1], testnet, prefix, Build(sites[..|sites| - 1]).value);
      assert chain == prefix + [Tip(chain)];
      forall i | 0 <= i < |prefix| ensures !SamePlace(chain[i], Tip(chain)) {
        assert prefix[i] in prefix;
      }
    }
  }

  /** The walk over the last `maxDepth` blocks finds a logged transaction exactly when it is less than
      `maxDepth` blocks deep. */
  lemma DepthExact(site: Site, log: seq<Logged>, m: nat, maxDepth: nat)
    requires site.Valid() && DistinctPlaces(site.path) && LogInPlace(site.path, log) && m < |log|
    ensures RelativeDepth(site.path, log[m].pos, maxDepth) >= 0 <==> site.Height() - log[m].height < maxDepth
  {
    DepthFromSpec(site.path, log[m].pos, maxDepth, 0);
    hide DepthFrom;
    var r := RelativeDepth(site.path, log[m].pos, maxDepth);
    assert InBlock(site.path[log[m].height], log[m].pos);
    if r >= 0 {
      OnePlace(site.path, |site.path| - 1 - r, log[m].height, log[m].pos);
    }
  }

  // ----- live name outputs -----

  /** Output `i` of the transaction carries a name_firstupdate or name_update of `name`. */
  predicate NameOutput(tx: Tx, i: nat, name: Name) {
    && i < |tx.vout|
    && IsNameScript(tx.vout[i].scriptPubKey)
    && var p := ParseNameScript(tx.vout[i].scriptPubKey);
       Registers(p.op.GetOr(0)) && p.args[0] == name
  }

  /** Transactions that may have only one name script: name transactions past the libcoin fork,
      and any others under the strict checks. */
  predicate Ruled(testnet: bool, tx: Tx, height: int) {
    PostLibcoinFork(testnet, height) && (tx.IsName() || StrictChecks(testnet, height))
  }

  /** An unspent, unexpired name output created under these rules. */
  predicate Live(testnet: bool, log: seq<Logged>, txs: map<Hash, TxIndex>, at: nat, k: nat, i: nat, name: Name) {
    && k < |log|
    && Ruled(testnet, log[k].tx, log[k].height)
    && NameOutput(log[k].tx, i, name)
    && !IsSpent(txs, OutPoint(log[k].tx.txid, i))
    && Unexpired(log[k].height, at)
  }

  /** Every live output of a name belongs to the transaction at the back of its history. */
  ghost predicate OwnersAtBack(testnet: bool, log: seq<Logged>, s: Indexes, at: nat) {
    forall k: nat, i: nat, name: Name ::
      Live(testnet, log, s.txs, at, k, i, name) ==> LastEntryIs(History(s.names, name), log[k].pos)
  }

  /** What a caller can check about a transaction: its name outputs are read as what they are.
      It fails for a coinbase with a name output, and for a transaction whose operation was
      overwritten, by an output behind its name output, with one that is not recorded. */
  ghost predicate ReadAsRecorded(tx: Tx) {
    forall i: nat, name: Name :: NameOutput(tx, i, name) ==> !tx.IsCoinBase() && Registers(DecodeNameTx(tx, true).op)
  }

  ghost predicate DistinctPositions(log: seq<Logged>) {
    forall i, j :: 0 <= i < j < |log| ==> log[i].pos != log[j].pos
  }

  /** Every entry of the name index is that of a transaction of the log. */
  ghost predicate EntriesLogged(names: map<Name, seq<NameIndex>>, log: seq<Logged>) {
    forall name, j ::
      name in names && 0 <= j < |names[name]| ==> LoggedAt(log, names[name][j].txPos, names[name][j].nHeight)
  }

  ghost predicate LoggedAt(log: seq<Logged>, pos: DiskTxPos, height: nat) {
    exists k :: 0 <= k < |log| && log[k].pos == pos && log[k].height == height
  }

  /** The transaction has at most one name script. */
  ghost predicate OneNameScript(tx: Tx) {
    forall i, j ::
      0 <= i < |tx.vout| && 0 <= j < |tx.vout| && IsNameScript(tx.vout[i].scriptPubKey)
      && IsNameScript(tx.vout[j].scriptPubKey) ==>
        i == j
  }

  /** The block files hold the transactions of the log. */
  ghost predicate FilesExact(env: Env, log: seq<Logged>) {
    forall k :: 0 <= k < |log| && log[k].pos in env.disk ==> env.disk[log[k].pos] == log[k].tx
  }

  ghost predicate Bookkeeping(testnet: bool, log: seq<Logged>, s: Indexes, at: nat) {
    && IndexOf(s.txs, log)
    && DistinctPositions(log)
    && EntriesLogged(s.names, log)
    && (forall k :: 0 <= k < |log| ==> log[k].height <= at)
    && (forall k ::
          0 <= k < |log| && Ruled(testnet, log[k].tx, log[k].height) && !log[k].tx.IsCoinBase() ==>
            OneNameScript(log[k].tx))
  }

  // ----- what acceptance past the fork means -----

  lemma ScriptsAt(tx: Tx, i: nat)
    requires i < |tx.vout|
    ensures Scripts(tx.vout)[i] == tx.vout[i].scriptPubKey
  {
  }

  /** An accepted transaction with a name output is a name transaction with exactly one name
      script, and that is the one its decoding reports. */
  lemma AcceptedOutputs(site: Site, names: map<Name, seq<NameIndex>>, tx: Tx, a: Inputs)
    requires site.Valid() && |a.scripts| == |a.prevPos| && NameDecision(site, names, tx, a).Ok?
    requires Ruled(site.env.testnet, tx, site.Height())
    ensures OneNameScript(tx)
    ensures forall i: nat, name: Name :: NameOutput(tx, i, name) ==>
              tx.IsName() && DecodeNameTx(tx, true).good && name == DecodeNameTx(tx, true).args[0]
  {
    hide ScanScripts, FirstUpdateCheck, UpdateCheck, ParseNameScript;
    var scripts := Scripts(tx.vout);
    StrictScanExact(scripts, |scripts|);
    forall i | 0 <= i < |tx.vout| ensures scripts[i] == tx.vout[i].scriptPubKey {
      ScriptsAt(tx, i);
    }
    forall i: nat, name: Name | NameOutput(tx, i, name)
      ensures tx.IsName() && DecodeNameTx(tx, true).good && name == DecodeNameTx(tx, true).args[0]
    {
      assert IsNameScript(tx.vout[i].scriptPubKey);
      assert HasNameOutput(tx);
    }
    if tx.IsName() {
      assert DecodeNameTx(tx, true).good;
    } else {
      assert !HasNameOutput(tx);
    }
  }

  /** An entry is recorded by a name_firstupdate only if the previous one has expired, and by a
      name_update only if it spends, through a name script, the transaction at the back. */
  lemma RecordingReplaces(site: Site, names: map<Name, seq<NameIndex>>, tx: Tx, a: Inputs, name: Name)
    requires site.Valid() && |a.scripts| == |a.prevPos| && NameDecision(site, names, tx, a) == Ok(Some(name))
    requires PostLibcoinFork(site.env.testnet, site.Height())
    ensures (NameHeight(names, name) >= 0 ==> !Unexpired(NameHeight(names, name), site.Height()))
            || exists j ::
                 0 <= j < |a.scripts| && IsNameScript(a.scripts[j]) && LastEntryIs(History(names, name), a.prevPos[j])
  {
    hide ScanScripts, ParseNameScript, RelativeDepth, NetworkFee, NameNetFee, HasNameOutput, CommitmentMatches;
    StrictScanExact(a.scripts, |a.scripts|);
    var prev := ScanScripts(true, a.scripts, |a.scripts|);
    var d := DecodeNameTx(tx, true);
    if d.op == OP_NAME_UPDATE {
      assert prev.found && !prev.multiple;
      assert IsNameScript(a.scripts[prev.index]) && LastEntryIs(History(names, name), a.prevPos[prev.index]);
    }
  }

  lemma InputsGrow(site: Site, txs: map<Hash, TxIndex>, tx: Tx, i: nat)
    requires 0 < i <= |tx.vin| && SpendInputs(site, txs, tx, i).Ok?
    ensures SpendInputs(site, txs, tx, i - 1).Ok?
    ensures var a, b := SpendInputs(site, txs, tx, i - 1).value, SpendInputs(site, txs, tx, i).value;
            a.scripts == b.scripts[..i - 1] && a.prevPos == b.prevPos[..i - 1]
  {
    hide RelativeDepth;
  }

  /** What the last of the first `i` inputs spends. */
  lemma LastSpent(site: Site, txs: map<Hash, TxIndex>, tx: Tx, i: nat, log: seq<Logged>) returns (k: nat)
    requires 0 < i <= |tx.vin| && SpendInputs(site, txs, tx, i).Ok?
    requires IndexOf(txs, log) && FilesExact(site.env, log)
    ensures var a, o := SpendInputs(site, txs, tx, i).value, tx.vin[i - 1];
            && k < |log| && log[k].tx.txid == o.hash && log[k].pos == a.prevPos[i - 1]
            && o.n < |log[k].tx.vout| && a.scripts[i - 1] == log[k].tx.vout[o.n].scriptPubKey
  {
    hide Spends, RelativeDepth;
    SpendInputsEffect(site, txs, tx, i - 1);
    k :| 0 <= k < |log| && log[k].tx.txid == tx.vin[i - 1].hash;
    assert txs[log[k].tx.txid].pos == log[k].pos;
  }

  /** Input `j` spends output `vin[j].n` of the logged transaction at `prevPos[j]`. */
  lemma {:induction false} SpentScript(site: Site, txs: map<Hash, TxIndex>, tx: Tx, i: nat, j: nat, log: seq<Logged>)
    returns (k: nat)
    requires j < i <= |tx.vin| && SpendInputs(site, txs, tx, i).Ok?
    requires IndexOf(txs, log) && FilesExact(site.env, log)
    ensures var a := SpendInputs(site, txs, tx, i).value;
            && k < |log| && log[k].tx.txid == tx.vin[j].hash && log[k].pos == a.prevPos[j]
            && tx.vin[j].n < |log[k].tx.vout| && a.scripts[j] == log[k].tx.vout[tx.vin[j].n].scriptPubKey
    decreases i
  {
    hide SpendInputs, IndexOf, FilesExact;
    if j < i - 1 {
      InputsGrow(site, txs, tx, i);
      k := SpentScript(site, txs, tx, i - 1, j, log);
    } else {
      k := LastSpent(site, txs, tx, i, log);
    }
  }

  // ----- one transaction -----

  lemma LiveBefore(testnet: bool, log: seq<Logged>, e: Logged, before: map<Hash, TxIndex>, after: map<Hash, TxIndex>,
                   at: nat, earlier: nat, k: nat, i: nat, name: Name)
    requires Live(testnet, log + [e], after, at, k, i, name) && k < |log| && earlier <= at
    requires forall o :: IsSpent(before, o) ==> IsSpent(after, o)
    ensures Live(testnet, log, before, earlier, k, i, name)
  {
    assert (log + [e])[k] == log[k];
    var o := OutPoint(log[k].tx.txid, i);
    assert IsSpent(before, o) ==> IsSpent(after, o);
    if !Unexpired(log[k].height, earlier) {
      ExpiredForever(log[k].height, earlier, at);
    }
  }

  /** The entry at the back of a history has the height of the transaction it points to. */
  lemma BackHeight(names: map<Name, seq<NameIndex>>, log: seq<Logged>, name: Name, k: nat)
    requires EntriesLogged(names, log) && DistinctPositions(log)
    requires k < |log| && LastEntryIs(History(names, name), log[k].pos)
    ensures NameHeight(names, name) == log[k].height
  {
    var h := names[name];
    assert LoggedAt(log, h[|h| - 1].txPos, h[|h| - 1].nHeight);
    var j :| 0 <= j < |log| && log[j].pos == log[k].pos && log[j].height == h[|h| - 1].nHeight;
    SameEntry(log, j, k);
  }

  lemma SameEntry(log: seq<Logged>, j: nat, k: nat)
    requires DistinctPositions(log) && j < |log| && k < |log| && log[j].pos == log[k].pos
    ensures j == k
  {
  }

  /** The index, before the new transaction is added to it, in which its inputs are marked. */
  lemma InputsMarked(site: Site, c: Connected, tx: Tx, pos: DiskTxPos) returns (spent: map<Hash, TxIndex>)
    requires site.Valid() && ConnectTx(site, c, tx, pos).Ok?
    ensures ConnectTx(site, c, tx, pos).value.s.txs == AddTxIndex(spent, tx, pos)
    ensures forall o :: IsSpent(c.s.txs, o) ==> IsSpent(spent, o)
    ensures !tx.IsCoinBase() ==>
              forall j :: 0 <= j < |tx.vin| ==> IsSpent(spent, tx.vin[j]) && tx.vin[j].hash in c.s.txs
  {
    spent := c.s.txs;
    if !tx.IsCoinBase() {
      SpendInputsEffect(site, c.s.txs, tx, |tx.vin|);
      assert tx.vin[..|tx.vin|] == tx.vin;
      spent := SpendInputs(site, c.s.txs, tx, |tx.vin|).value.txs;
      hide ConnectTx, SpendInputs;
      forall j | 0 <= j < |tx.vin| ensures IsSpent(spent, tx.vin[j]) && tx.vin[j].hash in c.s.txs {
        assert tx.vin[j] in tx.vin;
        assert HasOutput(c.s.txs, tx.vin[j]);
      }
    }
  }

  /** Connecting a transaction marks its inputs spent, and nothing becomes unspent. */
  lemma ConnectTxSpends(site: Site, c: Connected, tx: Tx, pos: DiskTxPos)
    requires site.Valid() && ConnectTx(site, c, tx, pos).Ok? && tx.txid !in c.s.txs
    ensures var after := ConnectTx(site, c, tx, pos).value.s.txs;
            && (forall o :: IsSpent(c.s.txs, o) ==> IsSpent(after, o))
            && (!tx.IsCoinBase() ==> forall j :: 0 <= j < |tx.vin| ==> IsSpent(after, tx.vin[j]))
            && (forall n: nat :: !IsSpent(after, OutPoint(tx.txid, n)))
  {
    hide ConnectTx;
    var spent := InputsMarked(site, c, tx, pos);
    forall o: OutPoint | o.hash != tx.txid ensures IsSpent(AddTxIndex(spent, tx, pos), o) == IsSpent(spent, o) {}
  }

  /** A live owner that stays live keeps its name from being recorded by anyone else. */
  lemma OwnerKeepsName(site: Site, c: Connected, tx: Tx, pos: DiskTxPos, log: seq<Logged>, k: nat, i: nat, name: Name)
    requires site.Valid() && ConnectTx(site, c, tx, pos).Ok? && !tx.IsCoinBase()
    requires Bookkeeping(site.env.testnet, log, c.s, site.Height()) && FilesExact(site.env, log)
    requires Live(site.env.testnet, log, c.s.txs, site.Height(), k, i, name) && !log[k].tx.IsCoinBase()
    requires LastEntryIs(History(c.s.names, name), log[k].pos)
    requires PostLibcoinFork(site.env.testnet, site.Height())
    requires !IsSpent(ConnectTx(site, c, tx, pos).value.s.txs, OutPoint(log[k].tx.txid, i))
    requires tx.txid !in c.s.txs
    ensures RecordedName(site, c, tx) != Some(name)
  {
    if RecordedName(site, c, tx) == Some(name) {
      var a := SpendInputs(site, c.s.txs, tx, |tx.vin|).value;
      RecordingReplaces(site, c.s.names, tx, a, name);
      BackHeight(c.s.names, log, name, k);
      assert Unexpired(NameHeight(c.s.names, name), site.Height());
      var j :|
        0 <= j < |a.scripts| && IsNameScript(a.scripts[j]) && LastEntryIs(History(c.s.names, name), a.prevPos[j]);
      SpendsOwner(site, c, tx, pos, log, k, i, j);
      assert false;
    }
  }

  lemma SpendsOwner(site: Site, c: Connected, tx: Tx, pos: DiskTxPos, log: seq<Logged>, k: nat, i: nat, j: nat)
    requires site.Valid() && ConnectTx(site, c, tx, pos).Ok? && !tx.IsCoinBase() && tx.txid !in c.s.txs
    requires IndexOf(c.s.txs, log) && DistinctPositions(log) && FilesExact(site.env, log)
    requires k < |log| && i < |log[k].tx.vout| && IsNameScript(log[k].tx.vout[i].scriptPubKey)
             && OneNameScript(log[k].tx)
    requires j < |tx.vin|
    requires var a := SpendInputs(site, c.s.txs, tx, |tx.vin|).value;
             IsNameScript(a.scripts[j]) && a.prevPos[j] == log[k].pos
    ensures IsSpent(ConnectTx(site, c, tx, pos).value.s.txs, OutPoint(log[k].tx.txid, i))
  {
    ConnectTxSpends(site, c, tx, pos);
    assert SpendInputs(site, c.s.txs, tx, |tx.vin|).Ok?;
    hide ConnectTx, SpendInputs, ParseNameScript, IsNameScript, IndexOf, FilesExact, DistinctPositions, IsSpent;
    var m := SpentScript(site, c.s.txs, tx, |tx.vin|, j, log);
    SameEntry(log, m, k);
    assert tx.vin[j] == OutPoint(log[k].tx.txid, i);
  }

  ghost predicate AllReadAsRecorded(testnet: bool, log: seq<Logged>) {
    forall k :: 0 <= k < |log| && Ruled(testnet, log[k].tx, log[k].height) ==> ReadAsRecorded(log[k].tx)
  }

  lemma EntriesLoggedStep(site: Site, c: Connected, tx: Tx, pos: DiskTxPos, log: seq<Logged>)
    requires site.Valid() && ConnectTx(site, c, tx, pos).Ok? && EntriesLogged(c.s.names, log)
    ensures EntriesLogged(ConnectTx(site, c, tx, pos).value.s.names, log + [Logged(tx, pos, site.Height())])
  {
    var longer := log + [Logged(tx, pos, site.Height())];
    var after: map<Name, seq<NameIndex>> := ConnectTx(site, c, tx, pos).value.s.names;
    ConnectTxNames(site, c, tx, pos);
    hide ConnectTx, RecordedName, StoredValue;
    assert longer[|log|].pos == pos;
    forall name: Name, j: nat | name in after && j < |after[name]|
      ensures LoggedAt(longer, after[name][j].txPos, after[name][j].nHeight)
    {
      if j < |History(c.s.names, name)| {
        assert after[name][j] == c.s.names[name][j];
        assert LoggedAt(log, after[name][j].txPos, after[name][j].nHeight);
        var k :| 0 <= k < |log| && log[k].pos == after[name][j].txPos && log[k].height == after[name][j].nHeight;
        assert longer[k] == log[k];
      }
    }
  }

  lemma AcceptedOneScript(site: Site, c: Connected, tx: Tx, pos: DiskTxPos)
    requires site.Valid() && ConnectTx(site, c, tx, pos).Ok?
    ensures !tx.IsCoinBase() && Ruled(site.env.testnet, tx, site.Height()) ==> OneNameScript(tx)
  {
    hide OneNameScript, Ruled, OutputsInRange, AddTxIndex, StoredValue, NameDecision, SpendInputs;
    if !tx.IsCoinBase() && Ruled(site.env.testnet, tx, site.Height()) {
      AcceptedOutputs(site, c.s.names, tx, SpendInputs(site, c.s.txs, tx, |tx.vin|).value);
    }
  }

  lemma BookkeepingStep(site: Site, c: Connected, tx: Tx, pos: DiskTxPos, log: seq<Logged>)
    requires site.Valid() && ConnectTx(site, c, tx, pos).Ok? && tx.txid !in c.s.txs
    requires Bookkeeping(site.env.testnet, log, c.s, site.Height())
    requires forall k :: 0 <= k < |log| ==> log[k].pos != pos
    ensures Bookkeeping(site.env.testnet, log + [Logged(tx, pos, site.Height())], ConnectTx(site, c, tx, pos).value.s,
                        site.Height())
  {
    hide ConnectTx, IndexOf, EntriesLogged, OneNameScript, Ruled;
    EntriesLoggedStep(site, c, tx, pos, log);
    ConnectTxIndex(site, c, tx, pos, log, site.Height());
    AcceptedOneScript(site, c, tx, pos);
  }

  /** A live output of the new transaction is at the back of its name's history. */
  lemma NewOwnerAtBack(site: Site, c: Connected, tx: Tx, pos: DiskTxPos, i: nat, name: Name)
    requires site.Valid() && ConnectTx(site, c, tx, pos).Ok? && Ruled(site.env.testnet, tx, site.Height())
    requires NameOutput(tx, i, name) && ReadAsRecorded(tx)
    ensures LastEntryIs(History(ConnectTx(site, c, tx, pos).value.s.names, name), pos)
  {
    var a := SpendInputs(site, c.s.txs, tx, |tx.vin|).value;
    AcceptedOutputs(site, c.s.names, tx, a);
    PastForkRecords(site, c, tx, pos);
    ConnectTxNames(site, c, tx, pos);
    hide ConnectTx, RecordedName, StoredValue, DecodeNameTx, NameOutput;
    assert UndoneName(site.env.testnet, site.Height(), tx) == Ok(Some(name));
  }

  /** One transaction keeps the live outputs at the back of their histories. */
  lemma TxKeepsOwners(site: Site, c: Connected, tx: Tx, pos: DiskTxPos, log: seq<Logged>, earlier: nat)
    requires site.Valid() && ConnectTx(site, c, tx, pos).Ok? && tx.txid !in c.s.txs && earlier <= site.Height()
    requires Bookkeeping(site.env.testnet, log, c.s, site.Height()) && FilesExact(site.env, log)
    requires OwnersAtBack(site.env.testnet, log, c.s, earlier) && AllReadAsRecorded(site.env.testnet, log)
    requires Ruled(site.env.testnet, tx, site.Height()) ==> ReadAsRecorded(tx)
    ensures OwnersAtBack(site.env.testnet, log + [Logged(tx, pos, site.Height())], ConnectTx(site, c, tx, pos).value.s,
                         site.Height())
  {
    var testnet, h := site.env.testnet, site.Height();
    var e := Logged(tx, pos, h);
    var after := ConnectTx(site, c, tx, pos).value.s;
    ConnectTxSpends(site, c, tx, pos);
    forall k: nat, i: nat, name: Name | Live(testnet, log + [e], after.txs, h, k, i, name)
      ensures LastEntryIs(History(after.names, name), (log + [e])[k].pos)
    {
      hide ConnectTx, IsSpent, NameOutput, IndexOf, FilesExact, DistinctPositions, EntriesLogged, ReadAsRecorded,
           Unexpired, OneNameScript;
      if k == |log| {
        NewOwnerAtBack(site, c, tx, pos, i, name);
      } else {
        assert (log + [e])[k] == log[k];
        OldOwnerAtBack(site, c, tx, pos, log, earlier, k, i, name);
      }
    }
  }

  lemma OldOwnerAtBack(site: Site, c: Connected, tx: Tx, pos: DiskTxPos, log: seq<Logged>, earlier: nat, k: nat, i: nat,
                       name: Name)
    requires site.Valid() && ConnectTx(site, c, tx, pos).Ok? && tx.txid !in c.s.txs && earlier <= site.Height()
    requires Bookkeeping(site.env.testnet, log, c.s, site.Height()) && FilesExact(site.env, log)
    requires OwnersAtBack(site.env.testnet, log, c.s, earlier) && AllReadAsRecorded(site.env.testnet, log)
    requires k < |log|
    requires Live(site.env.testnet, log + [Logged(tx, pos, site.Height())], ConnectTx(site, c, tx, pos).value.s.txs,
                  site.Height(), k, i, name)
    ensures LastEntryIs(History(ConnectTx(site, c, tx, pos).value.s.names, name), log[k].pos)
  {
    var testnet, h := site.env.testnet, site.Height();
    var e := Logged(tx, pos, h);
    var after := ConnectTx(site, c, tx, pos).value.s;
    ConnectTxSpends(site, c, tx, pos);
    ConnectTxNames(site, c, tx, pos);
    assert (log + [e])[k] == log[k];
    assert PostLibcoinFork(testnet, h);
    assert !IsSpent(after.txs, OutPoint(log[k].tx.txid, i));
    assert ReadAsRecorded(log[k].tx) && !log[k].tx.IsCoinBase();
    LiveBefore(testnet, log, e, c.s.txs, after.txs, h, earlier, k, i, name);
    LiveBefore(testnet, log, e, c.s.txs, after.txs, h, h, k, i, name);
    hide ConnectTx, IsSpent, NameOutput, IndexOf, FilesExact, DistinctPositions, EntriesLogged, ReadAsRecorded,
         Unexpired, OneNameScript, Live, Bookkeeping, Ruled, RecordedName, StoredValue;
    if !tx.IsCoinBase() {
      OwnerKeepsName(site, c, tx, pos, log, k, i, name);
    } else {
      CoinbaseRecordsNothing(site, c, tx);
    }
  }

  lemma CoinbaseRecordsNothing(site: Site, c: Connected, tx: Tx)
    requires site.Valid() && tx.IsCoinBase()
    ensures RecordedName(site, c, tx) == None
  {
  }

  /** A transaction that is not read as recorded breaks the property at once. */
  lemma MisreadBreaks(site: Site, c: Connected, tx: Tx, pos: DiskTxPos, log: seq<Logged>)
    requires site.Valid() && ConnectTx(site, c, tx, pos).Ok? && tx.txid !in c.s.txs
    requires Ruled(site.env.testnet, tx, site.Height()) && !ReadAsRecorded(tx)
    requires Unrecorded(c.s.names, pos)
    ensures !OwnersAtBack(site.env.testnet, log + [Logged(tx, pos, site.Height())], ConnectTx(site, c, tx, pos).value.s,
                          site.Height())
  {
    var testnet, h := site.env.testnet, site.Height();
    var e := Logged(tx, pos, h);
    var after := ConnectTx(site, c, tx, pos).value.s;
    var i: nat, name: Name :| NameOutput(tx, i, name) && !(!tx.IsCoinBase() && Registers(DecodeNameTx(tx, true).op));
    ConnectTxSpends(site, c, tx, pos);
    MisreadRecordsNothing(site, c, tx, pos);
    ConnectTxNames(site, c, tx, pos);
    hide ConnectTx, NameOutput, RecordedName, StoredValue, DecodeNameTx, ReadAsRecorded;
    assert (log + [e])[|log|] == e;
    assert Live(testnet, log + [e], after.txs, h, |log|, i, name);
    assert !LastEntryIs(History(c.s.names, name), pos);
  }

  lemma MisreadRecordsNothing(site: Site, c: Connected, tx: Tx, pos: DiskTxPos)
    requires site.Valid() && ConnectTx(site, c, tx, pos).Ok?
    requires PostLibcoinFork(site.env.testnet, site.Height())
    requires tx.IsCoinBase() || !Registers(DecodeNameTx(tx, true).op)
    ensures RecordedName(site, c, tx) == None
  {
    hide ScanScripts, FirstUpdateCheck, UpdateCheck;
  }

  // ----- one block -----

  lemma OwnersLater(testnet: bool, log: seq<Logged>, s: Indexes, at: nat, later: nat)
    requires OwnersAtBack(testnet, log, s, at) && at <= later
    ensures OwnersAtBack(testnet, log, s, later)
  {
    forall k: nat, i: nat, name: Name | Live(testnet, log, s.txs, later, k, i, name)
      ensures LastEntryIs(History(s.names, name), log[k].pos)
    {
      hide NameOutput, IsSpent;
      if !Unexpired(log[k].height, at) {
        ExpiredForever(log[k].height, at, later);
      }
      assert Live(testnet, log, s.txs, at, k, i, name);
    }
  }

  /** The position of the next transaction is not that of any earlier one. */
  lemma NextPositionNew(prefix: Chain, chain: Chain, i: nat)
    requires prefix != [] && |chain| == |prefix| + 1 && prefix <= chain && i < |Tip(chain).block.vtx|
    requires forall b :: b in prefix ==> !SamePlace(b, Tip(chain))
    ensures forall k :: 0 <= k < |MidLog(prefix, chain, i)| ==> MidLog(prefix, chain, i)[k].pos != TxPos(Tip(chain), i)
  {
    var log := MidLog(prefix, chain, i);
    forall k | 0 <= k < |log| ensures log[k].pos != TxPos(Tip(chain), i) {
      if k < |Log(prefix)| {
        LogEntryOnBranch(prefix, k);
        var b :| b in prefix && InBlock(b, Log(prefix)[k].pos);
        assert !SamePlace(b, Tip(chain));
      } else {
        BlockLogEntry(chain, i, k - |Log(prefix)|);
        OffsetsIncrease(Tip(chain), k - |Log(prefix)|, i);
      }
    }
  }

  /** The situation at the start of a block: the databases `before` belong to the branch below. */
  ghost predicate BlockStart(site: Site, before: Indexes, prefix: Chain)
    ensures BlockStart(site, before, prefix) ==> site.path != [] && prefix != []
  {
    && prefix != [] && |site.path| == |prefix| + 1 && prefix <= site.path
    && ConnectTxs(site, before, |Tip(site.path).block.vtx|).Ok?
    && DistinctTxids(Tip(site.path).block.vtx)
    && FreshBlock(prefix, before, Tip(site.path))
    && NoEntryFrom(before.names, Tip(site.path), 0)
    && Bookkeeping(site.env.testnet, Log(prefix), before, |prefix| - 1)
    && FilesExact(site.env, Log(prefix) + BlockLog(site.path, |Tip(site.path).block.vtx|))
  }

  lemma {:induction false} ConnectTxsPrefixOk(site: Site, s: Indexes, i: nat, n: nat)
    requires site.Valid() && i <= n <= |Tip(site.path).block.vtx| && ConnectTxs(site, s, n).Ok?
    ensures ConnectTxs(site, s, i).Ok?
    decreases n
  {
    hide ConnectTx;
    if i < n {
      ConnectTxsPrefixOk(site, s, i, n - 1);
    }
  }

  /** The log in the middle of a block, after `i` of its transactions. */
  function MidLog(prefix: Chain, path: Chain, i: nat): seq<Logged>
    requires path != [] && i <= |Tip(path).block.vtx|
  {
    Log(prefix) + BlockLog(path, i)
  }

  lemma MidLogNext(prefix: Chain, path: Chain, i: nat)
    requires path != [] && i < |Tip(path).block.vtx|
    ensures MidLog(prefix, path, i + 1)
              == MidLog(prefix, path, i) + [Logged(Tip(path).block.vtx[i], TxPos(Tip(path), i), |path| - 1)]
    ensures i + 1 <= |Tip(path).block.vtx|
  {
  }

  lemma {:induction false} MidLogPrefix(prefix: Chain, path: Chain, i: nat, n: nat)
    requires path != [] && i <= n <= |Tip(path).block.vtx|
    ensures MidLog(prefix, path, i) <= MidLog(prefix, path, n)
    decreases n
  {
    if i < n {
      MidLogPrefix(prefix, path, i, n - 1);
    }
  }

  /** All that one step inside a block needs to know. */
  lemma MidFacts(site: Site, before: Indexes, prefix: Chain, i: nat)
    requires BlockStart(site, before, prefix) && i < |Tip(site.path).block.vtx|
    ensures ConnectTxs(site, before, i).Ok? && ConnectTxs(site, before, i + 1).Ok?
    ensures var c, b := ConnectTxs(site, before, i).value, Tip(site.path);
            && b.block.vtx[i].txid !in c.s.txs && Unrecorded(c.s.names, TxPos(b, i))
            && ConnectTx(site, c, b.block.vtx[i], TxPos(b, i)) == ConnectTxs(site, before, i + 1)
            && (forall k ::
                  0 <= k < |MidLog(prefix, site.path, i)| ==> MidLog(prefix, site.path, i)[k].pos != TxPos(b, i))
            && FilesExact(site.env, MidLog(prefix, site.path, i))
  {
    hide ConnectTx, Unrecorded, Bookkeeping;
    var n := |Tip(site.path).block.vtx|;
    ConnectTxsPrefixOk(site, before, i, n);
    ConnectTxsPrefixOk(site, before, i + 1, n);
    LastTxIsNew(site, before, i + 1);
    NextPositionNew(prefix, site.path, i);
    MidLogPrefix(prefix, site.path, i, n);
    FilesExactPrefix(site.env, MidLog(prefix, site.path, i), MidLog(prefix, site.path, n));
  }

  lemma FilesExactPrefix(env: Env, log: seq<Logged>, longer: seq<Logged>)
    requires FilesExact(env, longer) && log <= longer
    ensures FilesExact(env, log)
  {
    forall k | 0 <= k < |log| && log[k].pos in env.disk ensures env.disk[log[k].pos] == log[k].tx {
      assert longer[k] == log[k];
    }
  }

  lemma BookkeepingLater(testnet: bool, log: seq<Logged>, s: Indexes, at: nat, later: nat)
    requires Bookkeeping(testnet, log, s, at) && at <= later
    ensures Bookkeeping(testnet, log, s, later)
  {
    hide IndexOf, DistinctPositions, EntriesLogged, OneNameScript, Ruled;
  }

  lemma {:induction false} MidBookkeeping(site: Site, before: Indexes, prefix: Chain, i: nat)
    requires BlockStart(site, before, prefix) && i <= |Tip(site.path).block.vtx|
    ensures ConnectTxs(site, before, i).Ok?
    ensures Bookkeeping(site.env.testnet, MidLog(prefix, site.path, i), ConnectTxs(site, before, i).value.s,
                        site.Height())
  {
    hide Bookkeeping, ConnectTx, Unrecorded, FilesExact;
    if i == 0 {
      assert MidLog(prefix, site.path, 0) == Log(prefix);
      BookkeepingLater(site.env.testnet, Log(prefix), before, |prefix| - 1, site.Height());
    } else {
      hide BlockStart;
      MidBookkeeping(site, before, prefix, i - 1);
      MidFacts(site, before, prefix, i - 1);
      MidLogNext(prefix, site.path, i - 1);
      BookkeepingStep(site, ConnectTxs(site, before, i - 1).value, Tip(site.path).block.vtx[i - 1],
                      TxPos(Tip(site.path), i - 1), MidLog(prefix, site.path, i - 1));
    }
  }

  ghost predicate OwnersMid(site: Site, before: Indexes, prefix: Chain, i: nat)
    requires site.Valid() && i <= |Tip(site.path).block.vtx|
  {
    ConnectTxs(site, before, i).Ok? ==>
      OwnersAtBack(site.env.testnet, MidLog(prefix, site.path, i), ConnectTxs(site, before, i).value.s, site.Height())
  }

  lemma AllReadPrefix(testnet: bool, log: seq<Logged>, longer: seq<Logged>)
    requires AllReadAsRecorded(testnet, longer) && log <= longer
    ensures AllReadAsRecorded(testnet, log)
  {
    forall k | 0 <= k < |log| && Ruled(testnet, log[k].tx, log[k].height) ensures ReadAsRecorded(log[k].tx) {
      assert longer[k] == log[k];
    }
  }

  lemma MidKeepsOwners(site: Site, before: Indexes, prefix: Chain, i: nat)
    requires BlockStart(site, before, prefix) && 0 < i <= |Tip(site.path).block.vtx|
    requires AllReadAsRecorded(site.env.testnet, MidLog(prefix, site.path, i))
    requires OwnersMid(site, before, prefix, i - 1)
    ensures OwnersMid(site, before, prefix, i)
  {
    hide Bookkeeping, ConnectTx, ConnectTxs, BlockStart, Unrecorded, FilesExact, OwnersAtBack, ReadAsRecorded, Ruled,
         MidLog;
    var log, done := MidLog(prefix, site.path, i), MidLog(prefix, site.path, i - 1);
    MidFacts(site, before, prefix, i - 1);
    MidLogNext(prefix, site.path, i - 1);
    AllReadPrefix(site.env.testnet, done, log);
    assert Ruled(site.env.testnet, log[|done|].tx, log[|done|].height) ==> ReadAsRecorded(log[|done|].tx);
    MidBookkeeping(site, before, prefix, i - 1);
    hide AllReadAsRecorded;
    TxKeepsOwners(site, ConnectTxs(site, before, i - 1).value, Tip(site.path).block.vtx[i - 1],
                  TxPos(Tip(site.path), i - 1), done, site.Height());
  }

  lemma {:induction false} BlockKeepsOwners(site: Site, before: Indexes, prefix: Chain, i: nat)
    requires BlockStart(site, before, prefix) && i <= |Tip(site.path).block.vtx|
    requires OwnersAtBack(site.env.testnet, Log(prefix), before, |prefix| - 1)
    requires AllReadAsRecorded(site.env.testnet, MidLog(prefix, site.path, i))
    ensures OwnersMid(site, before, prefix, i)
  {
    hide Bookkeeping, FilesExact, OwnersAtBack, AllReadAsRecorded, NoEntryFrom, DistinctTxids, FreshBlock;
    if i == 0 {
      assert MidLog(prefix, site.path, 0) == Log(prefix);
      OwnersLater(site.env.testnet, Log(prefix), before, |prefix| - 1, site.Height());
    } else {
      hide BlockStart, OwnersMid;
      MidLogPrefix(prefix, site.path, i - 1, i);
      AllReadPrefix(site.env.testnet, MidLog(prefix, site.path, i - 1), MidLog(prefix, site.path, i));
      BlockKeepsOwners(site, before, prefix, i - 1);
      MidKeepsOwners(site, before, prefix, i);
    }
  }

  lemma MisreadInBlock(site: Site, before: Indexes, prefix: Chain, i: nat)
    requires BlockStart(site, before, prefix) && i < |Tip(site.path).block.vtx|
    requires Ruled(site.env.testnet, Tip(site.path).block.vtx[i], site.Height())
             && !ReadAsRecorded(Tip(site.path).block.vtx[i])
    ensures !OwnersMid(site, before, prefix, i + 1)
  {
    hide ConnectTx, BlockStart, Unrecorded, FilesExact, OwnersAtBack, ReadAsRecorded, Ruled;
    MidFacts(site, before, prefix, i);
    MidLogNext(prefix, site.path, i);
    MisreadBreaks(site, ConnectTxs(site, before, i).value, Tip(site.path).block.vtx[i], TxPos(Tip(site.path), i),
                  MidLog(prefix, site.path, i));
  }

  // ----- the whole branch -----

  /** After every transaction of the branch, the live outputs are at the back of their
      histories. */
  ghost predicate OwnersThroughout(sites: seq<Site>, chain: Chain)
    requires forall k :: 0 <= k < |sites| ==> sites[k].Valid()
    requires |chain| == |sites| + 1
    decreases |sites|
  {
    sites == [] ||
    var front, prefix, site := sites[..|sites| - 1], chain[..|chain| - 1], sites[|sites| - 1];
    && OwnersThroughout(front, prefix)
    && (Build(front).Ok? ==>
          OwnersInBlock(site, Build(front).value, prefix))
  }

  ghost predicate OwnersInBlock(site: Site, before: Indexes, prefix: Chain)
    requires site.Valid()
  {
    forall i: nat :: i <= |Tip(site.path).block.vtx| ==> OwnersMid(site, before, prefix, i)
  }

  ghost predicate SitesExact(sites: seq<Site>, log: seq<Logged>) {
    forall k :: 0 <= k < |sites| ==> FilesExact(sites[k].env, log)
  }

  lemma BuiltStart(sites: seq<Site>, testnet: bool, chain: Chain, s: Indexes)
    requires Built(sites, testnet, chain, s) && sites != []
    requires FilesExact(sites[|sites| - 1].env, Log(chain))
    requires Build(sites[..|sites| - 1]).Ok?
    requires Bookkeeping(testnet, Log(chain[..|chain| - 1]), Build(sites[..|sites| - 1]).value, |chain| - 2)
    ensures BlockStart(sites[|sites| - 1], Build(sites[..|sites| - 1]).value, chain[..|chain| - 1])
  {
    hide ConnectTxs, ConnectBlock, CheckBlock, Bookkeeping, FilesExact, Built, Build, FreshBlock, EntriesIn;
    BuiltSplit(sites, testnet, chain, s);
    var front, prefix := sites[..|sites| - 1], chain[..|chain| - 1];
    var before := Build(front).value;
    BuiltEntries(front, testnet, prefix, before);
    FreshElsewhere(prefix, before, Tip(chain));
  }

  lemma FreshElsewhere(prefix: Chain, before: Indexes, block: StoredBlock)
    requires EntriesIn(before.names, prefix) && FreshBlock(prefix, before, block)
    ensures NoEntryFrom(before.names, block, 0)
  {
    EntriesElsewhere(before.names, prefix, block);
  }

  lemma SitesExactFront(sites: seq<Site>, log: seq<Logged>, longer: seq<Logged>)
    requires sites != [] && SitesExact(sites, longer) && log <= longer
    ensures SitesExact(sites[..|sites| - 1], log)
  {
    forall k | 0 <= k < |sites| - 1 ensures FilesExact(sites[k].env, log) {
      FilesExactPrefix(sites[k].env, log, longer);
    }
  }

  lemma OwnersLastBlock(site: Site, before: Indexes, prefix: Chain)
    requires BlockStart(site, before, prefix)
    ensures var testnet, n := site.env.testnet, |Tip(site.path).block.vtx|;
            var log, after := MidLog(prefix, site.path, n), ConnectTxs(site, before, n).value.s;
            && Bookkeeping(testnet, log, after, site.Height())
            && (AllReadAsRecorded(testnet, log) && OwnersAtBack(testnet, Log(prefix), before, |prefix| - 1) ==>
                  OwnersInBlock(site, before, prefix) && OwnersAtBack(testnet, log, after, site.Height()))
            && (AllReadAsRecorded(testnet, Log(prefix)) && !AllReadAsRecorded(testnet, log) ==>
                  !OwnersInBlock(site, before, prefix))
  {
    hide BlockStart, OwnersAtBack, AllReadAsRecorded, Bookkeeping, ConnectTxs, MidLog, OwnersInBlock;
    var testnet, n := site.env.testnet, |Tip(site.path).block.vtx|;
    var log := MidLog(prefix, site.path, n);
    MidBookkeeping(site, before, prefix, n);
    if AllReadAsRecorded(testnet, log) && OwnersAtBack(testnet, Log(prefix), before, |prefix| - 1) {
      BlockAllOwners(site, before, prefix);
    }
    if AllReadAsRecorded(testnet, Log(prefix)) && !AllReadAsRecorded(testnet, log) {
      BlockMisread(site, before, prefix);
    }
  }

  lemma BlockMisread(site: Site, before: Indexes, prefix: Chain)
    requires BlockStart(site, before, prefix) && AllReadAsRecorded(site.env.testnet, Log(prefix))
    requires !AllReadAsRecorded(site.env.testnet, MidLog(prefix, site.path, |Tip(site.path).block.vtx|))
    ensures !OwnersInBlock(site, before, prefix)
  {
    hide BlockStart, OwnersMid, ReadAsRecorded, Ruled;
    var n := |Tip(site.path).block.vtx|;
    var log := MidLog(prefix, site.path, n);
    var k :| 0 <= k < |log| && Ruled(site.env.testnet, log[k].tx, log[k].height) && !ReadAsRecorded(log[k].tx);
    assert k >= |Log(prefix)|;
    var i := k - |Log(prefix)|;
    BlockLogEntry(site.path, n, i);
    MisreadInBlock(site, before, prefix, i);
  }

  lemma BlockAllOwners(site: Site, before: Indexes, prefix: Chain)
    requires BlockStart(site, before, prefix)
    requires OwnersAtBack(site.env.testnet, Log(prefix), before, |prefix| - 1)
    requires AllReadAsRecorded(site.env.testnet, MidLog(prefix, site.path, |Tip(site.path).block.vtx|))
    ensures OwnersInBlock(site, before, prefix)
    ensures var n := |Tip(site.path).block.vtx|;
            OwnersAtBack(site.env.testnet, MidLog(prefix, site.path, n), ConnectTxs(site, before, n).value.s,
                         site.Height())
  {
    var testnet, n := site.env.testnet, |Tip(site.path).block.vtx|;
    var log := MidLog(prefix, site.path, n);
    assert ConnectTxs(site, before, n).Ok? && site.Valid();
    hide BlockStart, OwnersAtBack, AllReadAsRecorded, Bookkeeping, ConnectTxs;
    forall i: nat | i <= n ensures OwnersMid(site, before, prefix, i) {
      MidLogPrefix(prefix, site.path, i, n);
      AllReadPrefix(testnet, MidLog(prefix, site.path, i), log);
      hide OwnersMid, MidLog;
      BlockKeepsOwners(site, before, prefix, i);
    }
    assert OwnersMid(site, before, prefix, n);
  }

  /** The last block of a branch, in terms of `OwnersThroughout`. */
  lemma OwnersSplit(sites: seq<Site>, chain: Chain, site: Site, before: Indexes, prefix: Chain)
    requires sites != [] && |chain| == |sites| + 1 && forall k :: 0 <= k < |sites| ==> sites[k].Valid()
    requires site == sites[|sites| - 1] && Build(sites[..|sites| - 1]) == Ok(before) && prefix == chain[..|chain| - 1]
    ensures OwnersThroughout(sites, chain) <==>
              && OwnersThroughout(sites[..|sites| - 1], prefix)
              && OwnersInBlock(site, before, prefix)
  {
    hide OwnersInBlock, Build;
  }

  lemma BuiltOnNothing(testnet: bool, chain: Chain, s: Indexes)
    requires Built([], testnet, chain, s)
    ensures Log(chain) == [] && s == EMPTY && |chain| == 1
  {
  }

  lemma OwnersAtGenesis(testnet: bool, chain: Chain)
    requires |chain| == 1
    ensures Bookkeeping(testnet, [], EMPTY, 0)
    ensures AllReadAsRecorded(testnet, []) && OwnersThroughout([], chain) && OwnersAtBack(testnet, [], EMPTY, 0)
  {
    hide NameOutput, Unexpired, Ruled, LastEntryIs, ReadAsRecorded, OneNameScript;
  }

  lemma {:induction false} OwnersBuilt(sites: seq<Site>, testnet: bool, chain: Chain, s: Indexes)
    requires Built(sites, testnet, chain, s) && SitesExact(sites, Log(chain))
    ensures Bookkeeping(testnet, Log(chain), s, |chain| - 1)
    ensures AllReadAsRecorded(testnet, Log(chain)) ==>
              OwnersThroughout(sites, chain) && OwnersAtBack(testnet, Log(chain), s, |chain| - 1)
    ensures !AllReadAsRecorded(testnet, Log(chain)) ==> !OwnersThroughout(sites, chain)
    decreases |sites|
  {
    hide ConnectBlock, ConnectTxs, Bookkeeping, OwnersThroughout, OwnersInBlock, OwnersAtBack, AllReadAsRecorded,
         FilesExact, BlockStart, Built, Build, FreshBlock;
    if sites == [] {
      BuiltOnNothing(testnet, chain, s);
      OwnersAtGenesis(testnet, chain);
    } else {
      BuiltSplit(sites, testnet, chain, s);
      var front, prefix := sites[..|sites| - 1], chain[..|chain| - 1];
      var before, site := Build(front).value, sites[|sites| - 1];
      assert Log(chain) == MidLog(prefix, chain, |Tip(chain).block.vtx|) && Log(prefix) <= Log(chain);
      assert FilesExact(site.env, Log(chain));
      SitesExactFront(sites, Log(prefix), Log(chain));
      hide MidLog, SitesExact;
      OwnersBuilt(front, testnet, prefix, before);
      BuiltStart(sites, testnet, chain, s);
      OwnersLastBlock(site, before, prefix);
      OwnersSplit(sites, chain, site, before, prefix);
      hide Log;
      if AllReadAsRecorded(testnet, Log(chain)) {
        AllReadPrefix(testnet, Log(prefix), Log(chain));
      }
    }
  }

  /** On every accepted branch: after each transaction every live output of a name belongs to
      the transaction at the back of its history, if and only if every transaction that may have
      only one name script is read as what it records. */
  lemma LiveOwnersExact(sites: seq<Site>, testnet: bool, chain: Chain, s: Indexes)
    requires Built(sites, testnet, chain, s) && SitesExact(sites, Log(chain))
    ensures OwnersThroughout(sites, chain) <==> AllReadAsRecorded(testnet, Log(chain))
  {
    hide *;
    OwnersBuilt(sites, testnet, chain, s);
  }

  /** Then a name has at most one live output. */
  lemma OneLiveOwner(sites: seq<Site>, testnet: bool, chain: Chain, s: Indexes, at: nat, name: Name, k: nat, i: nat,
                     m: nat, j: nat)
    requires Built(sites, testnet, chain, s) && SitesExact(sites, Log(chain)) && AllReadAsRecorded(testnet, Log(chain))
    requires at >= |chain| - 1
    requires Live(testnet, Log(chain), s.txs, at, k, i, name) && Live(testnet, Log(chain), s.txs, at, m, j, name)
    ensures k == m && i == j && LastEntryIs(History(s.names, name), Log(chain)[k].pos)
  {
    var log := Log(chain);
    assert !log[k].tx.IsCoinBase() && IsNameScript(log[k].tx.vout[i].scriptPubKey)
           && IsNameScript(log[m].tx.vout[j].scriptPubKey);
    hide Built, SitesExact, OwnersThroughout, ReadAsRecorded, IsNameScript, IsSpent, Log, IndexOf, EntriesLogged;
    OwnersBuilt(sites, testnet, chain, s);
    OwnersLater(testnet, log, s, |chain| - 1, at);
    SameEntry(log, k, m);
    assert OneNameScript(log[k].tx);
  }
}
