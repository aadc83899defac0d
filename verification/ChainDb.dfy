/** Connecting and disconnecting on the databases in place (src/main.cpp, src/namecoin.cpp). */
module ChainDb {
  import opened Common
  import opened ScriptCode
  import opened ChainTypes
  import opened NameScript
  import opened NameRules
  import opened Connect
  import opened ChainRun
  import opened TxLog
  import opened Rescan
  import opened TxDb

  function Idx(store: seq<DbData>): Indexes
    requires store != []
  {
    IndexesOf(store[|store| - 1])
  }

  /** Only the innermost view changed, and in it only the transaction and name indexes. */
  predicate OnlyIndexes(before: seq<DbData>, after: seq<DbData>) {
    && before != [] && |after| == |before|
    && after[..|after| - 1] == before[..|before| - 1]
    && after[|after| - 1].blocks == before[|before| - 1].blocks
    && after[|after| - 1].hashBestChain == before[|before| - 1].hashBestChain
    && after[|after| - 1].bestInvalidWork == before[|before| - 1].bestInvalidWork
  }

  method CheckTransactionAtRelativeDepth(path: Chain, pos: DiskTxPos, maxDepth: int) returns (depth: int)
    ensures depth == RelativeDepth(path, pos, maxDepth)
  {
    var d := 0;
    while d < |path| && d < maxDepth
      invariant 0 <= d <= |path|
      invariant DepthFrom(path, pos, maxDepth, d) == RelativeDepth(path, pos, maxDepth)
    {
      if InBlock(path[|path| - 1 - d], pos) {
        return d;
      }
      d := d + 1;
    }
    return -1;
  }

  method GetValueOut(tx: Tx) returns (inRange: bool, value: int)
    ensures inRange == OutputsInRange(tx.vout)
    ensures inRange ==> value == SumOut(tx.vout)
  {
    value := 0;
    for i := 0 to |tx.vout|
      invariant value == SumOut(tx.vout[..i])
      invariant forall j :: 0 <= j < i ==> MoneyRange(tx.vout[j].nValue)
      invariant MoneyRange(value)
    {
      assert tx.vout[..i + 1][..i] == tx.vout[..i];
      value := value + tx.vout[i].nValue;
      if !MoneyRange(tx.vout[i].nValue) || !MoneyRange(value) {
        RangeFailsLater(tx.vout, i);
        return false, value;
      }
    }
    assert tx.vout[..|tx.vout|] == tx.vout;
    inRange := true;
  }

  lemma {:induction false} RangeFailsLater(vout: seq<TxOut>, i: nat)
    requires i < |vout|
             && (!MoneyRange(vout[i].nValue) || SumOut(vout[..i + 1]) > MAX_MONEY || SumOut(vout[..i + 1]) < 0)
    requires SumOut(vout[..i]) >= 0
    ensures !OutputsInRange(vout)
    decreases |vout| - i
  {
    assert vout[..i + 1][..i] == vout[..i];
    if i + 1 == |vout| {
      assert vout[..i + 1] == vout;
    } else if MoneyRange(vout[i].nValue) && MoneyRange(vout[i + 1].nValue) {
      assert vout[..i + 2][..i + 1] == vout[..i + 1];
      RangeFailsLater(vout, i + 1);
    }
  }

  lemma {:induction false} SpendInputsRejected(site: Site, txs: map<Hash, TxIndex>, tx: Tx, i: nat, n: nat)
    requires i <= n <= |tx.vin| && SpendInputs(site, txs, tx, i).Rejected?
    ensures SpendInputs(site, txs, tx, n).Rejected?
    decreases n
  {
    if i < n {
      SpendInputsRejected(site, txs, tx, i, n - 1);
    }
  }

  method GetNameNetFee(vout: seq<TxOut>) returns (nFee: int)
    ensures nFee == NameNetFee(vout)
  {
    nFee := 0;
    for i := 0 to |vout|
      invariant nFee == NameNetFee(vout[..i])
    {
      assert vout[..i + 1][..i] == vout[..i];
      if vout[i].scriptPubKey == [OP_RETURN] {
        nFee := nFee + vout[i].nValue;
      }
    }
    assert vout[..|vout|] == vout;
  }

  method FindNameOutput(tx: Tx) returns (foundOuts: bool)
    ensures foundOuts == HasNameOutput(tx)
  {
    hide ParseNameScript;
    foundOuts := false;
    for i := 0 to |tx.vout|
      invariant foundOuts <==> exists j :: 0 <= j < i && IsNameScript(tx.vout[j].scriptPubKey)
    {
      var ok, _, _, _ := DecodeNameScript(tx.vout[i].scriptPubKey, 0, []);
      DecodesFresh(tx.vout[i].scriptPubKey);
      if ok {
        foundOuts := true;
      }
    }
  }

  lemma DecodesFresh(s: Script)
    ensures var p := ParseNameScript(s); IsNameScript(s) <==> p.complete && ValidArity(p.op.GetOr(0), |[] + p.args|)
  {
    var p := ParseNameScript(s);
    assert [] + p.args == p.args;
  }

  /** The name_firstupdate case of the hook. */
  method CheckFirstUpdate(site: Site, names: map<Name, seq<NameIndex>>, tx: Tx, d: NameTx, prev: Scan,
                          prevPos: seq<DiskTxPos>)
    returns (ok: bool, fBugWorkaround: bool)
    requires site.Valid() && ArgsCover(d) && d.op == OP_NAME_FIRSTUPDATE
    requires prev.found ==> prev.index < |prevPos| && prev.args != []
    ensures match FirstUpdateCheck(site, names, tx, d, prev, prevPos)
            case Rejected => !ok
            case Ok(tolerated) => ok && fBugWorkaround == tolerated
  {
    hide NetworkFee, DepthFrom, NameNetFee;
    var height := site.Height();
    ok, fBugWorkaround := false, false;
    var nNetFee := GetNameNetFee(tx.vout);
    if nNetFee < NetworkFee(site.env.testnet, height) {
      return;
    }
    if !prev.found || prev.op != OP_NAME_NEW {
      return;
    }
    if |d.args[1]| > 20 || |d.args[2]| > MAX_VALUE_LENGTH {
      return;
    }
    if Uint160(prev.args[0]) != site.env.hash160(d.args[1] + d.args[0]) {
      if PostLibcoinFork(site.env.testnet, height) {
        return;
      }
      fBugWorkaround := true;
    }
    var nPrevHeight := NameHeight(names, d.args[0]);
    if nPrevHeight >= 0 && height - nPrevHeight < ExpirationDepth(height) {
      return;
    }
    var nDepth := CheckTransactionAtRelativeDepth(site.path, prevPos[prev.index], MIN_FIRSTUPDATE_DEPTH);
    ok := nDepth < 0;
  }

  /** The name_update case of the hook, with the later test of the name's last entry. */
  method CheckUpdate(site: Site, names: map<Name, seq<NameIndex>>, d: NameTx, prev: Scan, prevPos: seq<DiskTxPos>)
    returns (ok: bool, fBugWorkaround: bool)
    requires site.Valid() && ArgsCover(d) && d.op == OP_NAME_UPDATE
    requires prev.found ==> prev.index < |prevPos| && prev.args != []
    ensures match UpdateCheck(site, names, d, prev, prevPos)
            case Rejected => !ok
            case Ok(tolerated) => ok && fBugWorkaround == tolerated
  {
    hide DepthFrom;
    var height := site.Height();
    ok, fBugWorkaround := false, false;
    if !prev.found || (prev.op != OP_NAME_FIRSTUPDATE && prev.op != OP_NAME_UPDATE) {
      return;
    }
    if |d.args[1]| > MAX_VALUE_LENGTH {
      return;
    }
    if prev.args[0] != d.args[0] {
      if PostLibcoinFork(site.env.testnet, height) {
        return;
      }
      fBugWorkaround := true;
    }
    var nDepth := CheckTransactionAtRelativeDepth(site.path, prevPos[prev.index], ExpirationDepth(height));
    if nDepth < 0 {
      return;
    }
    if !fBugWorkaround && !LastEntryIs(History(names, d.args[0]), prevPos[prev.index]) {
      if PostLibcoinFork(site.env.testnet, height) {
        return;
      }
      fBugWorkaround := true;
    }
    ok := true;
  }

  /** The tests of CNamecoinHooks::ConnectInputs with fBlock; `record` tells whether the name
      index gets an entry for `name`. */
  method CheckNames(site: Site, names: map<Name, seq<NameIndex>>, tx: Tx, a: Inputs)
    returns (ok: bool, record: bool, name: Name)
    requires site.Valid() && |a.scripts| == |a.prevPos|
    ensures match NameDecision(site, names, tx, a)
            case Rejected => !ok
            case Ok(None) => ok && !record
            case Ok(Some(n)) => ok && record && name == n
  {
    hide ScanScripts, FirstUpdateCheck, UpdateCheck, HasNameOutput, StrictChecks, PostLibcoinFork;
    var height := site.Height();
    var strict := PostLibcoinFork(site.env.testnet, height);
    ok, record, name := false, false, [];
    var prev := ScanNameScripts(strict, a.scripts);
    if prev.multiple {
      return;
    }
    if !tx.IsName() {
      var foundOuts := FindNameOutput(tx);
      ok := !(foundOuts && StrictChecks(site.env.testnet, height)) && !prev.found;
      return;
    }
    var outs := ScanNameScripts(strict, Scripts(tx.vout));
    var d := NameTx(outs.found && !outs.multiple, outs.op, outs.index, outs.args);
    if !d.good {
      return;
    }
    if tx.vout[d.nOut].nValue < MIN_AMOUNT && StrictChecks(site.env.testnet, height) {
      return;
    }
    if |d.args[0]| > MAX_NAME_LENGTH || !ArgsCover(d) {
      return;
    }
    var fBugWorkaround := false;
    if d.op == OP_NAME_NEW {
      ok := !prev.found && |d.args[0]| == 20;
    } else if d.op == OP_NAME_FIRSTUPDATE {
      ok, fBugWorkaround := CheckFirstUpdate(site, names, tx, d, prev, a.prevPos);
    } else if d.op == OP_NAME_UPDATE {
      ok, fBugWorkaround := CheckUpdate(site, names, d, prev, a.prevPos);
    }
    record, name := Registers(d.op) && !fBugWorkaround, d.args[0];
  }

  /** CNamecoinHooks::ConnectInputs with fBlock. */
  method HookConnectInputs(db: DatabaseSet, site: Site, tx: Tx, a: Inputs, txPos: DiskTxPos) returns (ok: bool)
    requires db.Valid() && site.Valid() && |a.scripts| == |a.prevPos|
    modifies db.env
    ensures db.Valid() && OnlyIndexes(old(db.env.store), db.env.store)
    ensures ok == NameDecision(site, old(db.View()).names, tx, a).Ok?
    ensures db.View().txs == old(db.View()).txs
    ensures db.View().names == match NameDecision(site, old(db.View()).names, tx, a)
                               case Ok(Some(name)) =>
                                 AppendEntry(old(db.View()).names, name,
                                             NameIndex(txPos, site.Height(), StoredValue(site, txPos)))
                               case _ => old(db.View()).names
  {
    hide NameDecision, StoredValue;
    var names := db.View().names;
    var record, name;
    ok, record, name := CheckNames(site, names, tx, a);
    if ok && record {
      var vtxPos := History(names, name);
      vtxPos := vtxPos + [NameIndex(txPos, site.Height(), StoredValue(site, txPos))];
      db.WriteName(name, vtxPos);
    }
  }

  /** One round of the input loop: the value, the script and the position spent from. */
  method SpendInputInPlace(db: DatabaseSet, site: Site, tx: Tx, i: nat, nValueIn: int, ghost a: Inputs)
    returns (ok: bool, total: int, script: Script, pos: DiskTxPos)
    requires db.Valid() && db.env.store != [] && site.Valid() && i < |tx.vin|
    requires a.txs == db.View().txs && a.valueIn == nValueIn
    modifies db.env
    ensures db.Valid() && OnlyIndexes(old(db.env.store), db.env.store)
    ensures db.View().names == old(db.View()).names
    ensures ok == SpendInput(site, tx, i, a).Ok?
    ensures ok ==>
              SpendInput(site, tx, i, a).value == Inputs(db.View().txs, total, a.scripts + [script], a.prevPos + [pos])
  {
    hide DepthFrom;
    var prevout := tx.vin[i];
    var view := db.View();
    ok, total, script, pos := false, nValueIn, [], DiskTxPos(0, 0, 0);
    if prevout.hash !in view.txs || prevout.n >= |view.txs[prevout.hash].isSpent| {
      return;
    }
    var txindex := view.txs[prevout.hash];
    if txindex.pos !in site.env.disk {
      return;
    }
    var txPrev := site.env.disk[txindex.pos];
    if prevout.n >= |txPrev.vout| {
      return;
    }
    if !(site.best < LockinHeight(site.env.testnet)) && !site.env.verify(txPrev, tx, i) {
      return;
    }
    if txPrev.IsCoinBase() {
      var depth := CheckTransactionAtRelativeDepth(site.path, txindex.pos, COINBASE_MATURITY);
      if depth >= 0 {
        return;
      }
    }
    var out := txPrev.vout[prevout.n];
    total := nValueIn + out.nValue;
    if txindex.isSpent[prevout.n] || !MoneyRange(out.nValue) || !MoneyRange(total) {
      return;
    }
    txindex := txindex.(isSpent := txindex.isSpent[prevout.n := true]);
    db.WriteTxIndex(prevout.hash, txindex);
    ok, script, pos := true, out.scriptPubKey, txindex.pos;
  }

  /** The input loop of CTransaction::ConnectInputs with fBlock: each input's parent is read
      from, and written back to, the database. */
  method SpendInputsInPlace(db: DatabaseSet, site: Site, tx: Tx) returns (ok: bool, a: Inputs)
    requires db.Valid() && site.Valid()
    modifies db.env
    ensures db.Valid() && OnlyIndexes(old(db.env.store), db.env.store)
    ensures db.View().names == old(db.View()).names
    ensures var r := SpendInputs(site, old(db.View()).txs, tx, |tx.vin|);
            ok == r.Ok? && (ok ==> a == r.value && a.txs == db.View().txs)
  {
    assert db.env.store != [];
    hide SpendInput, DatabaseSet.Valid;
    ghost var txs := db.View().txs;
    a := Inputs(db.View().txs, 0, [], []);
    var i := 0;
    while i < |tx.vin|
      invariant db.Valid() && OnlyIndexes(old(db.env.store), db.env.store) && i <= |tx.vin|
      invariant db.View().names == old(db.View()).names
      invariant SpendInputs(site, txs, tx, i) == Ok(a) && a.txs == db.View().txs
    {
      var nValueIn, script, pos;
      ok, nValueIn, script, pos := SpendInputInPlace(db, site, tx, i, a.valueIn, a);
      i := i + 1;
      if !ok {
        SpendInputsRejected(site, txs, tx, i, |tx.vin|);
        return;
      }
      a := Inputs(db.View().txs, nValueIn, a.scripts + [script], a.prevPos + [pos]);
    }
    ok := true;
  }

  /** CTransaction::ConnectInputs with fBlock. */
  method ConnectInputs(db: DatabaseSet, site: Site, tx: Tx, posThisTx: DiskTxPos, nFees: int)
    returns (ok: bool, fees: int)
    requires db.Valid() && site.Valid()
    modifies db.env
    ensures db.Valid() && OnlyIndexes(old(db.env.store), db.env.store)
    ensures var r := ConnectTx(site, Connected(old(Idx(db.env.store)), nFees), tx, posThisTx);
            ok == r.Ok? && (ok ==> Idx(db.env.store) == r.value.s && fees == r.value.fees)
  {
    hide SpendInputs, NameDecision, StoredValue, AppendEntry, OutputsInRange;
    fees := nFees;
    if !tx.IsCoinBase() {
      var a;
      ok, a := SpendInputsInPlace(db, site, tx);
      if !ok {
        return;
      }
      ok := HookConnectInputs(db, site, tx, a, posThisTx);
      if !ok {
        return;
      }
      var inRange, nValueOut := GetValueOut(tx);
      var nTxFee := a.valueIn - nValueOut;
      if !inRange || nTxFee < 0 {
        return false, fees;
      }
      fees := fees + nTxFee;
      if !MoneyRange(fees) {
        return false, fees;
      }
    }
    db.WriteTxIndex(tx.txid, TxIndex(posThisTx, NoneSpent(|tx.vout|)));
    ok := true;
  }

  /** CNamecoinHooks::DisconnectInputs. */
  method HookDisconnectInputs(db: DatabaseSet, testnet: bool, height: nat, tx: Tx) returns (ok: bool)
    requires db.Valid()
    modifies db.env
    ensures db.Valid() && OnlyIndexes(old(db.env.store), db.env.store)
    ensures db.View().txs == old(db.View()).txs
    ensures var r := UndoName(testnet, height, old(Idx(db.env.store)), tx);
            ok == r.Ok? && (ok ==> db.View().names == r.value)
  {
    hide ScanScripts;
    if !tx.IsName() {
      return true;
    }
    var d := DecodeNameTx(tx, PostLibcoinFork(testnet, height));
    if !d.good {
      return false;
    }
    if Registers(d.op) {
      var view := db.View();
      if d.args[0] !in view.names {
        return false;
      }
      var vtxPos := view.names[d.args[0]];
      if |vtxPos| > 0 {
        if tx.txid !in view.txs {
          return false;
        }
        if vtxPos[|vtxPos| - 1].txPos == view.txs[tx.txid].pos {
          vtxPos := vtxPos[..|vtxPos| - 1];
        }
      }
      db.WriteName(d.args[0], vtxPos);
      assert view.names[d.args[0] := view.names[d.args[0]]] == view.names;
    }
    return true;
  }

  lemma {:induction false} UnspendRejected(txs: map<Hash, TxIndex>, tx: Tx, i: nat, n: nat)
    requires i <= n <= |tx.vin| && UnspendInputs(txs, tx, i).Rejected?
    ensures UnspendInputs(txs, tx, n).Rejected?
    decreases n
  {
    if i < n {
      UnspendRejected(txs, tx, i, n - 1);
    }
  }

  /** CTransaction::DisconnectInputs. */
  method DisconnectInputs(db: DatabaseSet, testnet: bool, height: nat, tx: Tx) returns (ok: bool)
    requires db.Valid()
    modifies db.env
    ensures db.Valid() && OnlyIndexes(old(db.env.store), db.env.store)
    ensures var r := DisconnectTx(testnet, height, old(Idx(db.env.store)), tx);
            ok == r.Ok? && (ok ==> Idx(db.env.store) == r.value)
  {
    hide UndoName;
    ok := HookDisconnectInputs(db, testnet, height, tx);
    if !ok {
      return;
    }
    ghost var txs := db.View().txs;
    ghost var names := db.View().names;
    if !tx.IsCoinBase() {
      var i := 0;
      while i < |tx.vin|
        invariant db.Valid() && OnlyIndexes(old(db.env.store), db.env.store) && i <= |tx.vin|
        invariant db.View().names == names
        invariant UnspendInputs(txs, tx, i) == Ok(db.View().txs)
      {
        var prevout := tx.vin[i];
        var view := db.View();
        if prevout.hash !in view.txs || prevout.n >= |view.txs[prevout.hash].isSpent|
           || !view.txs[prevout.hash].isSpent[prevout.n] {
          UnspendRejected(txs, tx, i + 1, |tx.vin|);
          return false;
        }
        var txindex := view.txs[prevout.hash];
        txindex := txindex.(isSpent := txindex.isSpent[prevout.n := false]);
        db.WriteTxIndex(prevout.hash, txindex);
        i := i + 1;
      }
    }
    db.EraseTxIndex(tx.txid);
    ok := true;
  }

  lemma {:induction false} ConnectTxsRejected(site: Site, s: Indexes, i: nat, n: nat)
    requires site.Valid() && i <= n <= |Tip(site.path).block.vtx| && ConnectTxs(site, s, i).Rejected?
    ensures ConnectTxs(site, s, n).Rejected?
    decreases n
  {
    hide ConnectTx;
    if i < n {
      ConnectTxsRejected(site, s, i, n - 1);
    }
  }

  /** The part of CBlock::ConnectBlock that works on the transaction and name indexes. */
  method ConnectTransactions(db: DatabaseSet, site: Site) returns (ok: bool)
    requires db.Valid() && site.Valid()
    modifies db.env
    ensures db.Valid() && OnlyIndexes(old(db.env.store), db.env.store)
    ensures var r := ConnectBlock(site, old(Idx(db.env.store)));
            ok == r.Ok? && (ok ==> Idx(db.env.store) == r.value)
  {
    hide ConnectTx, Subsidy, CheckTransaction, DistinctTxids;
    ghost var before := Idx(db.env.store);
    var block, vtx := Tip(site.path), Tip(site.path).block.vtx;
    if !CheckBlock(site.env, block.block, site.Height()) {
      return false;
    }
    var nTxPos: nat := block.nBlockPos + block.block.headerSize + CompactSizeLength(|vtx|);
    var nFees := 0;
    var i := 0;
    while i < |vtx|
      invariant db.Valid() && OnlyIndexes(old(db.env.store), db.env.store) && i <= |vtx|
      invariant DiskTxPos(block.nFile, block.nBlockPos, nTxPos) == TxPos(block, i)
      invariant ConnectTxs(site, before, i) == Ok(Connected(Idx(db.env.store), nFees))
    {
      var posThisTx := DiskTxPos(block.nFile, block.nBlockPos, nTxPos);
      nTxPos := nTxPos + vtx[i].size;
      ok, nFees := ConnectInputs(db, site, vtx[i], posThisTx, nFees);
      if !ok {
        ConnectTxsRejected(site, before, i + 1, |vtx|);
        return;
      }
      i := i + 1;
    }
    ok := SumOut(vtx[0].vout) <= BlockValue(site.Height(), nFees);
  }

  /** The part of CBlock::DisconnectBlock that works on the transaction and name indexes. */
  method DisconnectTransactions(db: DatabaseSet, testnet: bool, path: Chain) returns (ok: bool)
    requires db.Valid() && path != []
    modifies db.env
    ensures db.Valid() && OnlyIndexes(old(db.env.store), db.env.store)
    ensures var r := DisconnectBlock(testnet, path, old(Idx(db.env.store)));
            ok == r.Ok? && (ok ==> Idx(db.env.store) == r.value)
  {
    hide DisconnectTx;
    var vtx := Tip(path).block.vtx;
    ghost var whole := DisconnectBlock(testnet, path, Idx(db.env.store));
    var i: nat := |vtx|;
    while i > 0
      invariant db.Valid() && OnlyIndexes(old(db.env.store), db.env.store) && i <= |vtx|
      invariant DisconnectTxs(testnet, |path| - 1, Idx(db.env.store), vtx, i) == whole
    {
      i := i - 1;
      ok := DisconnectInputs(db, testnet, |path| - 1, vtx[i]);
      if !ok {
        return;
      }
    }
    ok := true;
  }

  // ----- rebuilding the name index -----

  /** NameBugWorkaround with the loop of the source. */
  method CheckNameBugWorkaround(src: Source, tx: Tx) returns (accepted: bool, prevTxPos: DiskTxPos)
    ensures match NameBugWorkaround(src, tx)
            case None => !accepted
            case Some(pos) => accepted && prevTxPos == pos
  {
    hide ParseNameScript;
    var found, multiple, index, prevOp, vvchPrevArgs := false, false, 0, 0, [];
    prevTxPos := DiskTxPos(0, 0, 0);
    ghost var r := ReadPrevOutputs(src, tx, 0);
    var n := 0;
    var i := 0;
    while i < |tx.vin|
      invariant i <= |tx.vin| && r == ReadPrevOutputs(src, tx, i) && n == |r.scripts|
      invariant Scan(found, multiple, index, prevOp, vvchPrevArgs) == ScanScripts(false, r.scripts, n)
      invariant found && !multiple ==> prevTxPos == r.positions[index]
    {
      var prevout := tx.vin[i];
      i := i + 1;
      if Readable(src, prevout) {
        var pos := src.txs[prevout.hash].pos;
        var script := src.disk[pos].vout[prevout.n].scriptPubKey;
        ghost var s := r.scripts;
        r := PrevOutputs(r.scripts + [script], r.positions + [pos]);
        ScanOfPrefix(false, s, r.scripts, n);
        n := n + 1;
        if !multiple {
          var ok, op, vvch, _ := DecodeNameScript(script, prevOp, vvchPrevArgs);
          if ok && found {
            multiple := true;
          } else {
            prevOp, vvchPrevArgs := op, vvch;
            if ok {
              found, index, prevTxPos := true, n - 1, pos;
            }
          }
        }
      }
    }
    if multiple || !found {
      return false, prevTxPos;
    }
    hide ScanScripts, ReadPrevOutputs;
    var d := DecodeNameTx(tx, false);
    accepted :=
      && d.good && ArgsCover(d)
      && (d.op == OP_NAME_FIRSTUPDATE ==> CommitmentMatches(src.hash160, vvchPrevArgs[0], d.args[1], d.args[0]))
      && (d.op == OP_NAME_UPDATE ==> vvchPrevArgs[0] == d.args[0]);
  }

  /** One transaction of the rescan: the new history to write, if any. */
  method RescanTransaction(src: Source, names: map<Name, seq<NameIndex>>, e: Logged)
    returns (r: Option<(Name, seq<NameIndex>)>)
    ensures match RescanName(src, names, e)
            case None => r == None
            case Some(name) => r == Some((name, History(names, name) + [RescanEntry(src, e)]))
  {
    hide ScanScripts, NameBugWorkaround;
    if !e.tx.IsName() {
      return None;
    }
    var post := PostLibcoinFork(src.testnet, e.height);
    var d := DecodeNameTx(e.tx, post);
    if !d.good || d.op == OP_NAME_NEW || !RescanArgsCover(d) {
      return None;
    }
    if e.tx.txid !in src.txs || src.txs[e.tx.txid].pos !in src.disk {
      return None;
    }
    var vtxPos := History(names, d.args[0]);
    if !post {
      var accepted, prevTxPos := CheckNameBugWorkaround(src, e.tx);
      if !accepted || (d.op == OP_NAME_UPDATE && !LastEntryIs(vtxPos, prevTxPos)) {
        return None;
      }
    }
    var value := if d.op == OP_NAME_FIRSTUPDATE then d.args[2] else d.args[1];
    return Some((d.args[0], vtxPos + [NameIndex(src.txs[e.tx.txid].pos, e.height, value)]));
  }

  lemma NonNamesLeaveNoTrace(src: Source, names: map<Name, seq<NameIndex>>, e: Logged)
    requires !e.tx.IsName()
    ensures RescanName(src, names, e) == None
  {
  }

  /** The part of the log that a rescan has indexed in the middle of the last block of `path`;
      nothing of the genesis block is in the transaction index. */
  function RescanLog(path: Chain, i: nat): seq<Logged>
    requires path != [] && i <= |Tip(path).block.vtx|
  {
    if |path| == 1 then [] else Log(path[..|path| - 1]) + BlockLog(path, i)
  }

  ghost predicate GenesisHasNoNames(chain: Chain)
    requires chain != []
  {
    forall i :: 0 <= i < |chain[0].block.vtx| ==> !chain[0].block.vtx[i].IsName()
  }

  lemma RescanNext(src: Source, path: Chain, i: nat)
    requires path != [] && i < |Tip(path).block.vtx| && GenesisHasNoNames(path)
    ensures RescanStep(src, Reconstruct(src, RescanLog(path, i)),
                       Logged(Tip(path).block.vtx[i], TxPos(Tip(path), i), |path| - 1))
         == Reconstruct(src, RescanLog(path, i + 1))
  {
    hide RescanName, RescanStep, Reconstruct, Log, TxPos;
    var e := Logged(Tip(path).block.vtx[i], TxPos(Tip(path), i), |path| - 1);
    if |path| == 1 {
      NonNamesLeaveNoTrace(src, Reconstruct(src, RescanLog(path, i)), e);
      StepWithoutName(src, Reconstruct(src, RescanLog(path, i)), e);
    } else {
      ReconstructLonger(src, RescanLog(path, i), e);
      assert RescanLog(path, i) + [e] == RescanLog(path, i + 1);
    }
  }

  lemma StepWithoutName(src: Source, names: map<Name, seq<NameIndex>>, e: Logged)
    requires RescanName(src, names, e) == None
    ensures RescanStep(src, names, e) == names
  {
  }

  /** One block of the rescan. */
  method RescanBlock(db: DatabaseSet, src: Source, path: Chain)
    requires db.Valid() && path != [] && GenesisHasNoNames(path)
    requires db.View().names == Reconstruct(src, RescanLog(path, 0))
    modifies db.env
    ensures db.Valid()
    ensures db.env.store
              == old(db.env.store)[..|old(db.env.store)| - 1] + [old(db.View()).(names := Reconstruct(src, Log(path)))]
  {
    hide RescanName, RescanEntry, Reconstruct, RescanLog;
    var block, vtx := Tip(path), Tip(path).block.vtx;
    var nTxPos: nat := block.nBlockPos + block.block.headerSize + CompactSizeLength(|vtx|);
    for i := 0 to |vtx|
      invariant db.Valid() && TxPos(block, i).nTxPos == nTxPos
      invariant db.env.store
                  == old(db.env.store)[..|old(db.env.store)| - 1]
                    + [old(db.View()).(names := Reconstruct(src, RescanLog(path, i)))]
    {
      var e := Logged(vtx[i], DiskTxPos(block.nFile, block.nBlockPos, nTxPos), |path| - 1);
      nTxPos := nTxPos + vtx[i].size;
      var r := RescanTransaction(src, db.View().names, e);
      match r {
        case None =>
        case Some(p) => db.WriteName(p.0, p.1);
      }
      RescanNext(src, path, i);
    }
    WholeBlockRescanned(path);
  }

  lemma WholeBlockRescanned(path: Chain)
    requires path != []
    ensures RescanLog(path, |Tip(path).block.vtx|) == Log(path)
  {
  }

  /** CNameDB::ReconstructNameIndex over the main chain, on a name database that is empty, in
      one database transaction per block. */
  method ReconstructNameIndex(db: DatabaseSet, src: Source, chain: Chain)
    requires db.Valid() && |db.env.store| == 1 && db.View().names == map[]
    requires chain != [] && GenesisHasNoNames(chain)
    modifies db.Frame()
    ensures db.Valid() && db.env.store == [old(db.View()).(names := Reconstruct(src, Log(chain)))]
  {
    hide Reconstruct, Log, RescanLog, GenesisHasNoNames, DatabaseSet.Valid;
    assert db.env.store == [db.View()];
    RescanStart(src, chain, 0);
    var nHeight := 0;
    while nHeight < |chain|
      invariant db.Valid() && nHeight <= |chain|
      invariant db.env.store == [old(db.View()).(names := Reconstruct(src, Log(chain[..nHeight])))]
    {
      RescanStart(src, chain, nHeight);
      var path := chain[..nHeight + 1];
      db.TxnBegin();
      RescanBlock(db, src, path);
      var _ := db.TxnCommit();
      nHeight := nHeight + 1;
    }
    assert chain[..|chain|] == chain;
  }

  lemma RescanStart(src: Source, chain: Chain, nHeight: nat)
    requires nHeight < |chain| && GenesisHasNoNames(chain)
    ensures RescanLog(chain[..nHeight + 1], 0) == Log(chain[..nHeight])
    ensures GenesisHasNoNames(chain[..nHeight + 1])
    ensures Reconstruct(src, Log(chain[..0])) == map[]
  {
    var path := chain[..nHeight + 1];
    assert path[..|path| - 1] == chain[..nHeight];
  }
}
