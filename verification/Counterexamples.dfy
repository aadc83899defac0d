/** Inputs that the node accepts and for which a property needs its condition
    (src/main.cpp, src/namecoin.cpp). */
module Counterexamples {
  import opened Common
  import opened ScriptCode
  import opened NameScript
  import opened ChainTypes
  import opened NameRules
  import opened Connect
  import opened Undo
  import opened TxLog
  import opened Owner
  import opened Rescan
  import opened NamePrefix
  import opened TestPool
  import opened MinedBlockNames
  import Miner

  // ----- a small world -----

  const NO_HASH: Bytes := [0, 0, 0, 0, 0, 0, 0, 0, 0, 0, 0, 0, 0, 0, 0, 0, 0, 0, 0, 0]
  const OTHER_HASH: Bytes := [1, 1, 1, 1, 1, 1, 1, 1, 1, 1, 1, 1, 1, 1, 1, 1, 1, 1, 1, 1]

  /** Blocks at places 0 to `height` of one file; only the last one matters. */
  function Path(height: nat, vtx: seq<Tx>): (path: Chain)
    ensures |path| == height + 1
  {
    seq(height, i requires 0 <= i < height => StoredBlock(0, i, Block(0, 0, 0, 1, [])))
      + [StoredBlock(0, height, Block(0, 0, 0, 1, vtx))]
  }

  /** Every signature is good and every hash is zero. */
  function World(disk: map<DiskTxPos, Tx>): Env {
    Env(false, disk, (_, _, _) => true, _ => NO_HASH, (_, _) => true)
  }

  lemma PathDepth(height: nat, vtx: seq<Tx>, p: nat, at: nat, m: int)
    requires p <= height
    ensures RelativeDepth(Path(height, vtx), DiskTxPos(0, p, at), m) == if height - p < m then height - p else -1
  {
    var path, pos := Path(height, vtx), DiskTxPos(0, p, at);
    DepthFromSpec(path, pos, m, 0);
    hide DepthFrom;
    forall i | 0 <= i <= height ensures InBlock(path[i], pos) <==> i == p {
      assert path[i].nFile == 0 && path[i].nBlockPos == i;
    }
    hide Path;
    var r := RelativeDepth(path, pos, m);
    if r >= 0 {
      assert InBlock(path[|path| - 1 - r], pos);
    } else {
      assert InBlock(path[p], pos);
    }
  }

  const PREV_ID: Hash := 1
  const TX_ID: Hash := 2

  /** The transaction spent from, and one that spends it. */
  function Prev(id: Hash, value: int, script: Script): Tx {
    Tx(id, NAMECOIN_TX_VERSION, [OutPoint(9, 0)], [TxOut(value, script)], 1)
  }

  function Spender(id: Hash, prev: Hash, vout: seq<TxOut>): Tx {
    Tx(id, NAMECOIN_TX_VERSION, [OutPoint(prev, 0)], vout, 1)
  }

  /** The database with the first transaction, in block `p`, and its output unspent. */
  function Before(p: nat): Connected {
    Connected(Indexes(map[PREV_ID := TxIndex(DiskTxPos(0, p, 0), [false])], map[]), 0)
  }

  /** The only input of a transaction spends the only output of another one. */
  lemma SpendsOne(site: Site, txs: map<Hash, TxIndex>, tx: Tx, prev: Tx, pos: DiskTxPos)
    requires tx.vin == [OutPoint(prev.txid, 0)] && |prev.vout| == 1 && !prev.IsCoinBase()
             && MoneyRange(prev.vout[0].nValue)
    requires prev.txid in txs && txs[prev.txid] == TxIndex(pos, [false]) && OnFile(site.env, pos, prev)
             && site.env.verify(prev, tx, 0)
    ensures SpendInputs(site, txs, tx, 1) ==
            Ok(Inputs(SetSpent(txs, tx.vin[0], true), prev.vout[0].nValue, [prev.vout[0].scriptPubKey], [pos]))
  {
    hide RelativeDepth;
    var none := Inputs(txs, 0, [], []);
    assert SpendInputs(site, txs, tx, 0) == Ok(none);
    assert [] + [prev.vout[0].scriptPubKey] == [prev.vout[0].scriptPubKey] && [] + [pos] == [pos];
    assert SpendInputs(site, txs, tx, 1) == SpendInput(site, tx, 0, none);
  }

  /** Connecting the second transaction, in the last block, comes down to the name hook. */
  lemma Connects(height: nat, best: int, p: nat, value: int, script: Script, vout: seq<TxOut>)
    requires p < height && MoneyRange(value) && OutputsInRange(vout) && SumOut(vout) <= value
    ensures var prev, tx := Prev(PREV_ID, value, script), Spender(TX_ID, PREV_ID, vout);
            var prevPos, pos := DiskTxPos(0, p, 0), DiskTxPos(0, height, 0);
            var site := Site(World(map[prevPos := prev, pos := tx]), Path(height, [tx]), best);
            var a := SpendInputs(site, Before(p).s.txs, tx, 1);
            && a.Ok? && a.value.scripts == [script] && a.value.prevPos == [prevPos]
            && (ConnectTx(site, Before(p), tx, pos).Ok? <==> NameDecision(site, map[], tx, a.value).Ok?)
            && (ConnectTx(site, Before(p), tx, pos).Ok? ==>
                  ConnectTx(site, Before(p), tx, pos).value.s.names ==
                  match NameDecision(site, map[], tx, a.value).value
                  case None => map[]
                  case Some(name) => AppendEntry(map[], name, NameIndex(pos, height, StoredValue(site, pos))))
  {
    hide Path, NameDecision, StoredValue, RelativeDepth;
    var prev, tx := Prev(PREV_ID, value, script), Spender(TX_ID, PREV_ID, vout);
    var prevPos, pos := DiskTxPos(0, p, 0), DiskTxPos(0, height, 0);
    var site := Site(World(map[prevPos := prev, pos := tx]), Path(height, [tx]), best);
    SpendsOne(site, Before(p).s.txs, tx, prev, prevPos);
  }

  // ----- scans of one and two scripts -----

  /** A name script as the only one, by either rule. */
  lemma ScanOne(strict: bool, op: NameOp)
    requires op.Pushable(0xffff_ffff)
    ensures ScanScripts(strict, [Prefix(op)], 1) == Scan(true, false, 0, op.Number(), op.Args())
  {
    BuiltScriptDecodes(op, []);
    assert Prefix(op) + [] == Prefix(op);
    hide Prefix, ParseNameScript;
    assert ScanScripts(strict, [Prefix(op)], 0) == Scan(false, false, 0, 0, []);
    assert [] + op.Args() == op.Args();
  }

  /** A name script and then one that is not read at all. */
  lemma ScanThenNothing(strict: bool, op: NameOp, other: Script)
    requires op.Pushable(0xffff_ffff) && ParseNameScript(other) == NameParse(None, [], false, 1)
    ensures ScanScripts(strict, [Prefix(op), other], 2) == Scan(true, false, 0, op.Number(), op.Args())
  {
    ScanOne(strict, op);
    hide Prefix, ParseNameScript, ScanStep;
    ScanOfPrefix(strict, [Prefix(op)], [Prefix(op), other], 1);
    NothingRead(strict, Scan(true, false, 0, op.Number(), op.Args()), other);
  }

  lemma NothingRead(strict: bool, a: Scan, other: Script)
    requires ParseNameScript(other) == NameParse(None, [], false, 1)
    ensures ScanStep(strict, a, other, 1) == a
  {
    hide ParseNameScript;
    assert a.args + [] == a.args;
  }

  lemma ReturnScript()
    ensures ParseNameScript([OP_RETURN]) == NameParse(None, [], false, 1)
  {
  }

  lemma ScriptsOf(vout: seq<TxOut>)
    ensures |vout| == 1 ==> Scripts(vout) == [vout[0].scriptPubKey]
    ensures |vout| == 2 ==> Scripts(vout) == [vout[0].scriptPubKey, vout[1].scriptPubKey]
  {
  }

  lemma SumOutLonger(vout: seq<TxOut>, out: TxOut)
    ensures SumOut(vout + [out]) == SumOut(vout) + out.nValue
    ensures NameNetFee(vout + [out]) == NameNetFee(vout) + if out.scriptPubKey == [OP_RETURN] then out.nValue else 0
  {
    assert (vout + [out])[..|vout|] == vout;
  }

  lemma SumOfTwo(a: TxOut, b: TxOut)
    ensures SumOut([a, b]) == a.nValue + b.nValue && SumOut([a]) == a.nValue
    ensures a.scriptPubKey != [OP_RETURN] ==> NameNetFee([a]) == 0
    ensures a.scriptPubKey != [OP_RETURN] && b.scriptPubKey == [OP_RETURN] ==> NameNetFee([a, b]) == b.nValue
  {
    SumOutLonger([], a);
    SumOutLonger([a], b);
    assert [] + [a] == [a] && [a] + [b] == [a, b];
  }

  lemma PrefixIsLong(op: NameOp)
    ensures |Prefix(op)| >= 2
  {
    assert |op.Drops()| >= 1;
    hide Pushes;
  }

  // ----- undoing a tolerated name_firstupdate -----

  lemma EarlyFee(height: nat)
    requires height < 8192
    ensures NetworkFee(false, height) <= 50 * COIN
  {
    assert ShiftRight(50 * COIN, 0) == 50 * COIN;
  }

  /** Before the fork, a name_firstupdate that does not open its name_new is accepted but not
      recorded, and cannot be undone. */
  lemma ToleratedNotUndone() returns (site: Site, c: Connected, tx: Tx, pos: DiskTxPos)
    ensures site.Valid() && !PostLibcoinFork(site.env.testnet, site.Height())
    ensures ConnectTx(site, c, tx, pos).Ok?
    ensures DisconnectTx(site.env.testnet, site.Height(), ConnectTx(site, c, tx, pos).value.s, tx).Rejected?
  {
    hide Path, Prefix, ScanScripts, ParseNameScript, RelativeDepth, SpendInputs, ConnectTx, StoredValue, NetworkFee;
    var op, new_ := NameFirstUpdate([7], [], []), NameNew(OTHER_HASH);
    var vout := [TxOut(0, Prefix(op)), TxOut(50 * COIN, [OP_RETURN])];
    tx, c, pos := Spender(TX_ID, PREV_ID, vout), Before(1), DiskTxPos(0, 20, 0);
    site :=
      Site(World(map[DiskTxPos(0, 1, 0) := Prev(PREV_ID, 50 * COIN, Prefix(new_)), pos := tx]), Path(20, [tx]), 19);
    PrefixIsLong(op);
    SumOfTwo(vout[0], vout[1]);
    Connects(20, 19, 1, 50 * COIN, Prefix(new_), vout);
    ScriptsOf(vout);
    ReturnScript();
    ScanThenNothing(false, op, [OP_RETURN]);
    ScanOne(false, new_);
    EarlyFee(20);
    PathDepth(20, [tx], 1, 0, MIN_FIRSTUPDATE_DEPTH);
    assert NO_HASH[0] != OTHER_HASH[0];
    var a := SpendInputs(site, c.s.txs, tx, 1).value;
    assert NameDecision(site, map[], tx, a) == Ok(None);
  }

  // ----- a coinbase that registers a name -----

  /** A block past the fork whose coinbase is a name_firstupdate is accepted; the hook records
      nothing and the rescan would. */
  lemma CoinbaseRegisters() returns (site: Site, tx: Tx, src: Source)
    ensures site.Valid() && PostLibcoinFork(site.env.testnet, site.Height()) && Tip(site.path).block.vtx == [tx]
            && tx.IsCoinBase()
    ensures !CoinbaseSilent(site.env.testnet, site.Height(), tx)
    ensures ConnectBlock(site, Indexes(map[], map[])).Ok?
            && ConnectBlock(site, Indexes(map[], map[])).value.names == map[]
    ensures src.txs == ConnectBlock(site, Indexes(map[], map[])).value.txs
    ensures RescanName(src, map[], Logged(tx, TxPos(Tip(site.path), 0), site.Height())) == Some([7])
  {
    hide Prefix, ScanScripts, ParseNameScript;
    var op := NameFirstUpdate([7], [], []);
    tx := Tx(TX_ID, NAMECOIN_TX_VERSION, [OutPoint(0, NULL_INDEX)], [TxOut(0, Prefix(op))], 1);
    site := Site(World(map[]), Path(150000, [tx]), 149999);
    SumOfTwo(tx.vout[0], tx.vout[0]);
    ScriptsOf(tx.vout);
    ScanOne(true, op);
    var b, pos := Tip(site.path), TxPos(Tip(site.path), 0);
    LoneCoinbase(site, tx);
    src := Source(false, ConnectBlock(site, Indexes(map[], map[])).value.txs, map[pos := tx], _ => NO_HASH);
  }

  lemma LoneCoinbase(site: Site, tx: Tx)
    requires site.Valid() && Tip(site.path).block.vtx == [tx] && tx.IsCoinBase() && CheckTransaction(tx)
             && SumOut(tx.vout) == 0
    requires site.env.blockChecks(Tip(site.path).block, site.Height())
    ensures ConnectBlock(site, Indexes(map[], map[]))
              == Ok(Indexes(AddTxIndex(map[], tx, TxPos(Tip(site.path), 0)), map[]))
  {
    hide CheckTransaction, TxPos, SumOut;
    var c := Connected(Indexes(map[], map[]), 0);
    assert ConnectTxs(site, c.s, 0) == Ok(c);
    assert ConnectTxs(site, c.s, 1) == ConnectTx(site, c, tx, TxPos(Tip(site.path), 0));
  }

  // ----- an operation that is overwritten -----

  /** Under the strict checks a transaction with the output of a name_firstupdate for a name of
      twenty bytes, and behind it an output that merely starts with a small number, is accepted
      as if it were a name_new: the output looks live, and nothing is recorded. */
  lemma MisreadAccepted() returns (site: Site, c: Connected, tx: Tx, pos: DiskTxPos)
    ensures site.Valid() && StrictChecks(site.env.testnet, site.Height())
    ensures ConnectTx(site, c, tx, pos).Ok? && ConnectTx(site, c, tx, pos).value.s.names == map[]
    ensures NameOutput(tx, 0, NO_HASH) && !ReadAsRecorded(tx)
  {
    hide Path, Prefix, ScanScripts, ParseNameScript, RelativeDepth, SpendInputs, ConnectTx, StoredValue;
    var op := NameFirstUpdate(NO_HASH, [], []);
    var vout := [TxOut(MIN_AMOUNT, Prefix(op)), TxOut(0, [OP_1])];
    tx, c, pos := Spender(TX_ID, PREV_ID, vout), Before(1), DiskTxPos(0, 212500, 0);
    site :=
      Site(World(map[DiskTxPos(0, 1, 0) := Prev(PREV_ID, COIN, [OP_RETURN]), pos := tx]), Path(212500, [tx]), 212499);
    SumOfTwo(vout[0], vout[1]);
    Connects(212500, 212499, 1, COIN, [OP_RETURN], vout);
    ScriptsOf(vout);
    OperationIsLastWritten([], NO_HASH, []);
    ReturnScript();
    BuiltScriptDecodes(op, []);
    assert Prefix(op) + [] == Prefix(op);
    NothingFound(true, [OP_RETURN]);
    var a := SpendInputs(site, c.s.txs, tx, 1).value;
    assert NameDecision(site, map[], tx, a) == Ok(None);
  }

  lemma NothingFound(strict: bool, script: Script)
    requires ParseNameScript(script) == NameParse(None, [], false, 1)
    ensures !ScanScripts(strict, [script], 1).found && !ScanScripts(strict, [script], 1).multiple
  {
    hide ParseNameScript;
    assert ScanScripts(strict, [script], 0) == Scan(false, false, 0, 0, []);
  }

  // ----- an update mined in the last unexpired block -----

  /** A name_update that the miner takes where its name has one block to live is refused one
      block later. */
  lemma LateUpdateRefused()
    returns (site: Site, next: Site, mem: Pool, names: map<Name, seq<NameIndex>>, tx: Tx, a: Inputs)
    ensures site.Valid() && next.Valid() && |next.path| == |site.path| + 1 && next.path[..|site.path|] == site.path
    ensures |a.scripts| == |a.prevPos| && MinerNameCheck(site, mem, names, tx, a)
    ensures NameDecision(next, names, tx, a).Rejected?
  {
    hide Prefix, ScanScripts, ParseNameScript, RelativeDepth, Path;
    var height, p := 200000, 164001;
    var pos := DiskTxPos(0, p, 0);
    var op := NameUpdate([7], [8]);
    tx := Spender(TX_ID, PREV_ID, [TxOut(MIN_AMOUNT, Prefix(op))]);
    var long := Path(height + 1, [tx]);
    site := Site(World(map[]), long[..height + 1], height);
    next := Site(World(map[]), long, height);
    mem := Pool(map[], map[]);
    names := map[[7] := [NameIndex(pos, p, [])]];
    a := Inputs(map[], MIN_AMOUNT, [Prefix(NameUpdate([7], []))], [pos]);
    ScriptsOf(tx.vout);
    ScanOne(true, op);
    ScanOne(true, NameUpdate([7], []));
    ShorterPath(height, [tx]);
    PathDepth(height, [], p, 0, 36000);
    PathDepth(height + 1, [tx], p, 0, 36000);
  }

  lemma ShorterPath(height: nat, vtx: seq<Tx>)
    ensures Path(height + 1, vtx)[..height + 1] == Path(height, [])
  {
  }

  // ----- a value that the rescan reads and the hook did not -----

  /** A push that no drop follows: the old rule keeps its argument for the next script. */
  lemma PartialScript()
    ensures ParseNameScript([OP_1, 1, 7]) == NameParse(Some(1), [[7]], false, 3)
  {
    var s: Script := [OP_1, 1, 7];
    assert GetOp(s, 0) == Op(OP_1, [], 1);
    assert s[2..3] == [7];
    assert GetOp(s, 1) == Op(1, [7], 3);
    assert ReadArgs(s, 3) == ArgsRead([], false, 3);
    assert ReadArgs(s, 1) == ArgsRead([[7]], false, 3);
  }

  /** A partial script and then a name script: one rule finds it, the other does not. */
  lemma ScanAfterPartial(op: NameOp)
    requires op.Pushable(0xffff_ffff) && op.Number() == OP_NAME_FIRSTUPDATE
    ensures ScanScripts(true, [[OP_1, 1, 7], Prefix(op)], 2) == Scan(true, false, 1, op.Number(), op.Args())
    ensures !ScanScripts(false, [[OP_1, 1, 7], Prefix(op)], 2).found
  {
    BuiltScriptDecodes(op, []);
    assert Prefix(op) + [] == Prefix(op);
    PartialScript();
    hide Prefix, ParseNameScript;
    var scripts := [[OP_1, 1, 7], Prefix(op)];
    assert ScanScripts(true, scripts, 0) == Scan(false, false, 0, 0, []);
    assert ScanScripts(true, scripts, 1) == Scan(false, false, 0, 1, []);
    assert ScanScripts(false, scripts, 0) == Scan(false, false, 0, 0, []);
    assert [] + [[7]] == [[7]];
    assert ScanScripts(false, scripts, 1) == Scan(false, false, 0, 1, [[7]]);
  }

  /** In the first block past the fork, connected on top of the best chain as usual: the hook
      reads the value by the rule of the best height, one block lower, and stores nothing. */
  lemma StoredValueLost() returns (site: Site, c: Connected, tx: Tx, pos: DiskTxPos, src: Source)
    ensures site.Valid() && site.Height() == 150000 && site.best == 149999 && OnFile(site.env, pos, tx)
    ensures ConnectTx(site, c, tx, pos).Ok?
    ensures ConnectTx(site, c, tx, pos).value.s.names == map[[7] := [NameIndex(pos, 150000, [])]]
    ensures tx.txid in src.txs && RescanEntry(src, Logged(tx, pos, 150000)).vValue == [9]
  {
    hide Path, Prefix, ScanScripts, ParseNameScript, RelativeDepth, SpendInputs, ConnectTx;
    var op, new_ := NameFirstUpdate([7], [], [9]), NameNew(NO_HASH);
    var vout := [TxOut(0, [OP_1, 1, 7]), TxOut(0, Prefix(op))];
    tx, c, pos := Spender(TX_ID, PREV_ID, vout), Before(1), DiskTxPos(0, 150000, 0);
    site :=
      Site(World(map[DiskTxPos(0, 1, 0) := Prev(PREV_ID, 0, Prefix(new_)), pos := tx]), Path(150000, [tx]), 149999);
    src := Source(false, map[TX_ID := TxIndex(pos, [])], map[], _ => NO_HASH);
    PrefixIsLong(op);
    SumOfTwo(vout[0], vout[1]);
    BurntNothing(vout[0], vout[1]);
    Connects(150000, 149999, 1, 0, Prefix(new_), vout);
    ScriptsOf(vout);
    ScanAfterPartial(op);
    ScanOne(true, new_);
    PathDepth(150000, [tx], 1, 0, MIN_FIRSTUPDATE_DEPTH);
    var a := SpendInputs(site, c.s.txs, tx, 1).value;
    assert NameDecision(site, map[], tx, a) == Ok(Some([7]));
    assert StoredValue(site, pos) == [];
    FirstEntry([7], NameIndex(pos, 150000, []));
  }

  lemma FirstEntry(name: Name, e: NameIndex)
    ensures AppendEntry(map[], name, e) == map[name := [e]]
  {
    assert [] + [e] == [e];
  }

  lemma BurntNothing(a: TxOut, b: TxOut)
    requires a.scriptPubKey != [OP_RETURN] && b.scriptPubKey != [OP_RETURN]
    ensures NameNetFee([a, b]) == 0
  {
    SumOutLonger([], a);
    SumOutLonger([a], b);
    assert [] + [a] == [a] && [a] + [b] == [a, b];
  }

  // ----- two transactions on one name in a mined block -----

  const OPEN := NameFirstUpdate([7], [], [])
  const FIRST_ID: Hash := 3
  const SECOND_ID: Hash := 4

  /** A name_new in block 149900, and the name_firstupdate that opens it. */
  function Opened(id: Hash): Tx {
    Prev(id, COIN, Prefix(NameNew(NO_HASH)))
  }

  function Opening(id: Hash, prev: Hash): Tx {
    Spender(id, prev, [TxOut(MIN_AMOUNT, Prefix(OPEN))])
  }

  function OpenedAt(n: nat): DiskTxPos {
    DiskTxPos(0, 149900, n)
  }

  /** Two of each: `FIRST_ID` opens the one with hash 1, `SECOND_ID` that with hash 2. */
  function TwoOpened(): Indexes {
    Indexes(map[1 := TxIndex(OpenedAt(0), [false]), 2 := TxIndex(OpenedAt(1), [false])], map[])
  }

  const OPENED_DISK: map<DiskTxPos, Tx> := map[OpenedAt(0) := Opened(1), OpenedAt(1) := Opened(2)]

  /** The pool lists only the second one as pending. */
  function HalfTracked(): Pool {
    Pool(map[FIRST_ID := Opening(FIRST_ID, 1), SECOND_ID := Opening(SECOND_ID, 2)], map[[7] := {SECOND_ID}])
  }

  lemma OpeningIsRead(id: Hash, prev: Hash)
    ensures DecodeNameTx(Opening(id, prev), true) == NameTx(true, OP_NAME_FIRSTUPDATE, 0, [[7], [], []])
    ensures Registered(Opening(id, prev)) == Some([7])
    ensures NameNetFee(Opening(id, prev).vout) == 0 && SumOut(Opening(id, prev).vout) == MIN_AMOUNT
            && OutputsInRange(Opening(id, prev).vout)
  {
    var vout := Opening(id, prev).vout;
    ScriptsOf(vout);
    ScanOne(true, OPEN);
    PrefixIsLong(OPEN);
    SumOfTwo(vout[0], vout[0]);
    hide Prefix, ScanScripts, ParseNameScript;
  }

  /** One of them passes the miner's check when no pending transaction of its name is in the test
      pool. */
  lemma OpeningTaken(site: Site, mem: Pool, s: Indexes, c: Assembly, id: Hash, prev: Hash, n: nat)
    requires site.Valid() && site.path == Path(150000, []) && !site.env.testnet && s.names == map[]
             && 0 <= c.fees <= COIN
    requires site.env.hash160([7]) == NO_HASH && OnFile(site.env, OpenedAt(n), Opened(prev))
    requires site.env.verify(Opened(prev), Opening(id, prev), 0)
    requires prev !in c.testPool && prev in s.txs && s.txs[prev] == TxIndex(OpenedAt(n), [false])
    requires (c.testPool.Keys + {prev}) * mem.PendingOn([7]) == {}
    ensures MinerConnect(site, mem, s, 0, c, Opening(id, prev)) ==
            Taken(Assembly(c.testPool[prev := TxIndex(OpenedAt(n), [true])][id := TxIndex(POOL_POS, [false])],
                           c.fees + COIN - MIN_AMOUNT))
  {
    hide Prefix, ScanScripts, ParseNameScript, RelativeDepth, Path, DecodeNameTx;
    var tx := Opening(id, prev);
    var none := Inputs(c.testPool, 0, [], []);
    var a := Inputs(c.testPool[prev := TxIndex(OpenedAt(n), [true])], COIN, [Prefix(NameNew(NO_HASH))], [OpenedAt(n)]);
    PathDepth(150000, [], 149900, n, MIN_FIRSTUPDATE_DEPTH);
    PathDepth(150000, [], 149900, n, ExpirationDepth(150000));
    OpeningIsRead(id, prev);
    ScanOne(true, NameNew(NO_HASH));
    assert [false][0 := true] == [true];
    assert [] + [Prefix(NameNew(NO_HASH))] == [Prefix(NameNew(NO_HASH))] && [] + [OpenedAt(n)] == [OpenedAt(n)];
    assert MinerInputs(site, mem, s.txs, c.testPool, tx, 0) == Ok(none);
    assert MinerInputs(site, mem, s.txs, c.testPool, tx, 1) == MinerInput(site, mem, s.txs, tx, 0, none) == Ok(a);
    assert [] + [7] == [7];
    assert a.txs.Keys == c.testPool.Keys + {prev};
    assert MinerNameCheck(site, mem, s.names, tx, a);
    assert NoneSpent(1) == [false];
  }

  /** The hook records the first of them in the block. */
  lemma OpeningRecorded(next: Site, vtx: seq<Tx>, id: Hash, prev: Hash, n: nat, a: Inputs)
    requires next.path == Path(150001, vtx) && !next.env.testnet && next.env.hash160([7]) == NO_HASH
    requires a.scripts == [Prefix(NameNew(NO_HASH))] && a.prevPos == [OpenedAt(n)]
    ensures next.Valid() && NameDecision(next, map[], Opening(id, prev), a) == Ok(Some([7]))
  {
    hide Prefix, ScanScripts, ParseNameScript, RelativeDepth, Path, DecodeNameTx;
    PathDepth(150001, vtx, 149900, n, MIN_FIRSTUPDATE_DEPTH);
    OpeningIsRead(id, prev);
    ScanOne(true, NameNew(NO_HASH));
    assert [] + [7] == [7];
  }

  lemma FirstConnects(next: Site, vtx: seq<Tx>, s: Indexes) returns (c: Connected)
    requires next == Site(World(OPENED_DISK), Path(150001, vtx), 150000) && s == TwoOpened() && next.Valid()
             && Tip(next.path).block.vtx == vtx
    requires |vtx| == 3 && vtx[0] == Tx(5, 1, [OutPoint(0, NULL_INDEX)], [TxOut(0, [])], 1)
             && vtx[1] == Opening(FIRST_ID, 1)
    ensures ConnectTxs(next, s, 2) == Ok(c) && 2 in c.s.txs && c.s.txs[2] == TxIndex(OpenedAt(1), [false])
  {
    hide Path, Prefix, NameDecision, TxPos, StoredValue, RelativeDepth, OutputsInRange, SumOut;
    var c0 := Connected(s, 0);
    var c1 := Connected(s.(txs := AddTxIndex(s.txs, vtx[0], TxPos(Tip(next.path), 0))), 0);
    assert ConnectTxs(next, s, 0) == Ok(c0);
    assert ConnectTxs(next, s, 1) == ConnectTx(next, c0, vtx[0], TxPos(Tip(next.path), 0)) == Ok(c1);
    SpendsOne(next, c1.s.txs, vtx[1], Opened(1), OpenedAt(0));
    var a := SpendInputs(next, c1.s.txs, vtx[1], 1).value;
    OpeningRecorded(next, vtx, FIRST_ID, 1, 0, a);
    OpeningIsRead(FIRST_ID, 1);
    assert ConnectTxs(next, s, 2) == ConnectTx(next, c1, vtx[1], TxPos(Tip(next.path), 1));
    c := ConnectTxs(next, s, 2).value;
  }

  lemma RivalsRefused(next: Site, vtx: seq<Tx>, s: Indexes)
    requires next == Site(World(OPENED_DISK), Path(150001, vtx), 150000) && s == TwoOpened() && next.Valid()
             && Tip(next.path).block.vtx == vtx
    requires vtx == [Tx(5, 1, [OutPoint(0, NULL_INDEX)], [TxOut(0, [])], 1), Opening(FIRST_ID, 1),
                     Opening(SECOND_ID, 2)]
    requires !InBlock(Tip(next.path), OpenedAt(1))
    ensures ConnectTxs(next, s, 2).Ok? && ConnectTxs(next, s, 3).Rejected? && ConnectBlock(next, s).Rejected?
  {
    hide Path, Prefix, NameDecision, TxPos, StoredValue, RelativeDepth, Registered, ConnectTxs, CheckBlock, EntryHere,
         ScanScripts;
    var c := FirstConnects(next, vtx, s);
    OpeningRegistered();
    RegisteredHere(next, s, 2, 1);
    SpendsOne(next, c.s.txs, vtx[2], Opened(2), OpenedAt(1));
    var q := SpendInputs(next, c.s.txs, vtx[2], 1).value;
    OneScript(q.scripts);
    RivalRefused(next, c.s.names, vtx[2], q);
    ThirdRefused(next, s, c);
  }

  lemma OneScript(scripts: seq<Script>)
    requires |scripts| == 1
    ensures ScanScripts(true, scripts, 1).found ==> ScanScripts(true, scripts, 1).index == 0
  {
  }

  lemma ThirdRefused(next: Site, s: Indexes, c: Connected)
    requires next.Valid() && |Tip(next.path).block.vtx| == 3 && ConnectTxs(next, s, 2) == Ok(c)
    requires var tx := Tip(next.path).block.vtx[2];
             var q := SpendInputs(next, c.s.txs, tx, |tx.vin|);
             !tx.IsCoinBase() && q.Ok? && NameDecision(next, c.s.names, tx, q.value).Rejected?
    ensures ConnectTxs(next, s, 3).Rejected? && ConnectBlock(next, s).Rejected?
  {
    hide NameDecision, SpendInputs, TxPos, CheckBlock;
  }

  /** The block passes all tests that do not read the databases. */
  lemma RivalsChecked(next: Site, vtx: seq<Tx>)
    requires next == Site(World(OPENED_DISK), Path(150001, vtx), 150000) && next.Valid()
             && Tip(next.path).block.vtx == vtx
    requires vtx == [Tx(5, 1, [OutPoint(0, NULL_INDEX)], [TxOut(0, [])], 1), Opening(FIRST_ID, 1),
                     Opening(SECOND_ID, 2)]
    ensures CheckBlock(next.env, Tip(next.path).block, next.Height())
  {
    hide Path, Prefix;
    OpeningIsRead(FIRST_ID, 1);
    OpeningIsRead(SECOND_ID, 2);
    SumOfTwo(TxOut(0, []), TxOut(0, []));
  }

  /** The block was assembled, passes CheckBlock and connects up to its third transaction, and is
      refused there. */
  ghost predicate RefusedAtThird(site: Site, mem: Pool, s: Indexes, next: Site, c: Assembly) {
    && site.Valid() && next.Valid() && next.path[..|next.path| - 1] == site.path
    && var b := Tip(next.path).block;
       && |b.vtx| == 3 && Assembled(site, mem, s, b.vtx[1..], c) && CheckBlock(next.env, b, next.Height())
       && ConnectTxs(next, s, 2).Ok? && ConnectTxs(next, s, 3).Rejected?
  }

  /** The miner takes two transactions on one name, because the pool does not know the first as
      pending, and the name hook refuses the block for the second. */
  lemma RivalsMined() returns (site: Site, mem: Pool, s: Indexes, next: Site, c: Assembly)
    ensures site.Valid() && PostLibcoinFork(site.env.testnet, site.Height()) && !PendingTracked(mem)
    ensures RefusedAtThird(site, mem, s, next, c) && ConnectBlock(next, s).Rejected?
    ensures !NamesOnce(Tip(next.path).block.vtx, 3)
  {
    var first, second := Opening(FIRST_ID, 1), Opening(SECOND_ID, 2);
    var vtx := [Tx(5, 1, [OutPoint(0, NULL_INDEX)], [TxOut(0, [])], 1), first, second];
    mem, s := HalfTracked(), TwoOpened();
    site := Site(World(OPENED_DISK), Path(150000, []), 150000);
    next := Site(World(OPENED_DISK), Path(150001, vtx), 150000);
    hide Path, Opening, Assembled, NamesOnce, PendingTracked, ConnectTxs, ConnectBlock, CheckBlock, TwoOpened,
         HalfTracked;
    c := BothTaken(site, mem, s, first, second);
    LongerPath(150000, vtx);
    RivalsRefused(next, vtx, s);
    RivalsChecked(next, vtx);
    OpeningRegistered();
    TwiceRegistered(vtx);
    assert vtx[1..] == [first, second];
  }

  lemma TwiceRegistered(vtx: seq<Tx>)
    requires |vtx| == 3 && Registered(vtx[1]) == Some([7]) == Registered(vtx[2])
    ensures !NamesOnce(vtx, 3)
  {
    hide Registered;
    assert !NewName(vtx, 2);
  }

  lemma LongerPath(height: nat, vtx: seq<Tx>)
    ensures Path(height + 1, vtx)[..height + 1] == Path(height, [])
    ensures Tip(Path(height + 1, vtx)).block.vtx == vtx && Tip(Path(height + 1, vtx)).nBlockPos == height + 1
  {
  }

  lemma OpeningRegistered()
    ensures forall id: Hash, prev: Hash :: Registered(Opening(id, prev)) == Some([7])
    ensures FIRST_ID in HalfTracked().txs && FIRST_ID !in HalfTracked().PendingOn([7]) && !PendingTracked(HalfTracked())
  {
    forall id: Hash, prev: Hash ensures Registered(Opening(id, prev)) == Some([7]) {
      OpeningIsRead(id, prev);
    }
    hide Registered, Opening;
    assert HalfTracked().txs[FIRST_ID] == Opening(FIRST_ID, 1);
  }

  lemma BothTaken(site: Site, mem: Pool, s: Indexes, first: Tx, second: Tx) returns (c: Assembly)
    requires site == Site(World(OPENED_DISK), Path(150000, []), 150000) && mem == HalfTracked() && s == TwoOpened()
    requires first == Opening(FIRST_ID, 1) && second == Opening(SECOND_ID, 2)
    ensures Assembled(site, mem, s, [first, second], c)
  {
    hide Path, Opening, MinerConnect;
    var c0 := Assembly(map[], 0);
    OpeningTaken(site, mem, s, c0, FIRST_ID, 1, 0);
    var c1 := MinerConnect(site, mem, s, 0, c0, first).next;
    OpeningTaken(site, mem, s, c1, SECOND_ID, 2, 1);
    c := MinerConnect(site, mem, s, 0, c1, second).next;
    Miner.TakeOne(site, mem, s, 0, c0, [], first, c1);
    Miner.TakeOne(site, mem, s, 0, c1, [first], second, c);
    assert [] + [first] == [first] && [first] + [second] == [first, second];
  }
}
