/** Connecting and disconnecting transactions and blocks, as functions on the two databases
    (src/main.cpp, src/namecoin.cpp).  The methods in `ChainDb` that update the databases in
    place are proved against these functions. */
module Connect {
  import opened Common
  import opened ScriptCode
  import opened NameScript
  import opened ChainTypes
  import opened NameRules

  /** Where a transaction is connected: the branch up to and including its block, and the
      height of the node's best block at that time (`nBestHeight`). */
  datatype Site = Site(env: Env, path: Chain, best: int) {
    predicate Valid() {
      path != []
    }

    function Height(): nat
      requires Valid()
    {
      |path| - 1
    }
  }

  /** Reading the block files at `pos` gives the transaction. */
  predicate OnFile(env: Env, pos: DiskTxPos, tx: Tx) {
    pos in env.disk && env.disk[pos] == tx
  }

  function LockinHeight(testnet: bool): int {
    if testnet then 0 else 193000
  }

  predicate InBlock(b: StoredBlock, pos: DiskTxPos) {
    b.nFile == pos.nFile && b.nBlockPos == pos.nBlockPos
  }

  /** CheckTransactionAtRelativeDepth: walks back from the tip of `path`, at most `maxDepth`
      blocks, starting `d` blocks back. */
  function DepthFrom(path: Chain, pos: DiskTxPos, maxDepth: int, d: nat): int
    decreases |path| - d
  {
    if d >= |path| || d >= maxDepth then -1
    else if InBlock(path[|path| - 1 - d], pos) then d
    else DepthFrom(path, pos, maxDepth, d + 1)
  }

  function RelativeDepth(path: Chain, pos: DiskTxPos, maxDepth: int): int {
    DepthFrom(path, pos, maxDepth, 0)
  }

  // ----- inputs -----

  /** What the input loop of ConnectInputs accumulates: the updated index, nValueIn, and for
      each input the script it spends and the position of the transaction it spends from. */
  datatype Inputs = Inputs(txs: map<Hash, TxIndex>, valueIn: int, scripts: seq<Script>, prevPos: seq<DiskTxPos>)

  function SetSpent(txs: map<Hash, TxIndex>, o: OutPoint, spent: bool): map<Hash, TxIndex>
    requires o.hash in txs && o.n < |txs[o.hash].isSpent|
  {
    var t := txs[o.hash];
    txs[o.hash := t.(isSpent := t.isSpent[o.n := spent])]
  }

  function SpendInput(site: Site, tx: Tx, i: nat, a: Inputs): Outcome<Inputs>
    requires i < |tx.vin|
  {
    var o := tx.vin[i];
    if o.hash !in a.txs || o.n >= |a.txs[o.hash].isSpent| then Rejected
    else
      var index := a.txs[o.hash];
      if index.pos !in site.env.disk then Rejected
      else
        var prev := site.env.disk[index.pos];
        if o.n >= |prev.vout| then Rejected
        else if !(site.best < LockinHeight(site.env.testnet)) && !site.env.verify(prev, tx, i) then Rejected
        else if prev.IsCoinBase() && RelativeDepth(site.path, index.pos, COINBASE_MATURITY) >= 0 then Rejected
        else if index.isSpent[o.n] then Rejected
        else
          var out := prev.vout[o.n];
          if !MoneyRange(out.nValue) || !MoneyRange(a.valueIn + out.nValue) then Rejected
          else Ok(Inputs(SetSpent(a.txs, o, true), a.valueIn + out.nValue,
                         a.scripts + [out.scriptPubKey], a.prevPos + [index.pos]))
  }

  /** The input loop after its first `i` iterations. */
  function SpendInputs(site: Site, txs: map<Hash, TxIndex>, tx: Tx, i: nat): (r: Outcome<Inputs>)
    requires i <= |tx.vin|
    ensures r.Ok? ==> |r.value.scripts| == |r.value.prevPos| == i
  {
    if i == 0 then Ok(Inputs(txs, 0, [], []))
    else
      var a :- SpendInputs(site, txs, tx, i - 1);
      SpendInput(site, tx, i - 1, a)
  }

  // ----- name hook -----

  function Uint160(v: Bytes): Bytes {
    if |v| == 20 then v else seq(20, i => 0)
  }

  /** The commitment of a name_new: hash of the random value followed by the name. */
  predicate CommitmentMatches(hash160: Bytes -> Bytes, commitment: Bytes, rand: Bytes, name: Name) {
    Uint160(commitment) == hash160(rand + name)
  }

  predicate LastEntryIs(history: seq<NameIndex>, pos: DiskTxPos) {
    history != [] && history[|history| - 1].txPos == pos
  }

  function NameHeight(names: map<Name, seq<NameIndex>>, name: Name): int {
    var h := History(names, name);
    if h == [] then -1 else h[|h| - 1].nHeight
  }

  /** Whether the hook lets a name_firstupdate through: None when it rejects it, otherwise
      whether the transaction is tolerated without being indexed. */
  function FirstUpdateCheck(site: Site, names: map<Name, seq<NameIndex>>, tx: Tx, d: NameTx, prev: Scan,
                            prevPos: seq<DiskTxPos>): Outcome<bool>
    requires site.Valid() && ArgsCover(d) && d.op == OP_NAME_FIRSTUPDATE
    requires prev.found ==> prev.index < |prevPos| && prev.args != []
  {
    var height := site.Height();
    if NameNetFee(tx.vout) < NetworkFee(site.env.testnet, height) then Rejected
    else if !prev.found || prev.op != OP_NAME_NEW then Rejected
    else if |d.args[1]| > 20 || |d.args[2]| > MAX_VALUE_LENGTH then Rejected
    else
      var matches := CommitmentMatches(site.env.hash160, prev.args[0], d.args[1], d.args[0]);
      var last := NameHeight(names, d.args[0]);
      if !matches && PostLibcoinFork(site.env.testnet, height) then Rejected
      else if last >= 0 && height - last < ExpirationDepth(height) then Rejected
      else if RelativeDepth(site.path, prevPos[prev.index], MIN_FIRSTUPDATE_DEPTH) >= 0 then Rejected
      else Ok(!matches)
  }

  function UpdateCheck(site: Site, names: map<Name, seq<NameIndex>>, d: NameTx, prev: Scan,
                       prevPos: seq<DiskTxPos>): Outcome<bool>
    requires site.Valid() && ArgsCover(d) && d.op == OP_NAME_UPDATE
    requires prev.found ==> prev.index < |prevPos| && prev.args != []
  {
    var height := site.Height();
    var strict := PostLibcoinFork(site.env.testnet, height);
    if !prev.found || !Registers(prev.op) then Rejected
    else if |d.args[1]| > MAX_VALUE_LENGTH then Rejected
    else
      var mismatch := prev.args[0] != d.args[0];
      if mismatch && strict then Rejected
      else if RelativeDepth(site.path, prevPos[prev.index], ExpirationDepth(height)) < 0 then Rejected
      else if mismatch then Ok(true)
      else if LastEntryIs(History(names, d.args[0]), prevPos[prev.index]) then Ok(false)
      else if strict then Rejected
      else Ok(true)
  }

  predicate HasNameOutput(tx: Tx) {
    exists i :: 0 <= i < |tx.vout| && IsNameScript(tx.vout[i].scriptPubKey)
  }

  /** CNamecoinHooks::ConnectInputs for a transaction in a block: rejected, accepted without
      touching the name index, or accepted with a new entry for the given name. */
  function NameDecision(site: Site, names: map<Name, seq<NameIndex>>, tx: Tx, a: Inputs): Outcome<Option<Name>>
    requires site.Valid() && |a.scripts| == |a.prevPos|
  {
    var height := site.Height();
    var strict := PostLibcoinFork(site.env.testnet, height);
    var prev := ScanScripts(strict, a.scripts, |a.scripts|);
    if prev.multiple then Rejected
    else if !tx.IsName() then
      if HasNameOutput(tx) && StrictChecks(site.env.testnet, height) then Rejected
      else if prev.found then Rejected
      else Ok(None)
    else
      var d := DecodeNameTx(tx, strict);
      if !d.good then Rejected
      else if tx.vout[d.nOut].nValue < MIN_AMOUNT && StrictChecks(site.env.testnet, height) then Rejected
      else if |d.args[0]| > MAX_NAME_LENGTH || !ArgsCover(d) then Rejected
      else if d.op == OP_NAME_NEW then
        if prev.found || |d.args[0]| != 20 then Rejected else Ok(None)
      else if d.op == OP_NAME_FIRSTUPDATE then
        var tolerated :- FirstUpdateCheck(site, names, tx, d, prev, a.prevPos);
        Ok(if tolerated then None else Some(d.args[0]))
      else if d.op == OP_NAME_UPDATE then
        var tolerated :- UpdateCheck(site, names, d, prev, a.prevPos);
        Ok(if tolerated then None else Some(d.args[0]))
      else Rejected
  }

  /** GetValueOfTxPos: decodes the stored transaction by the rules in force at the best
      height, not at the height of its own block; stays empty when that fails. */
  function StoredValue(site: Site, pos: DiskTxPos): Bytes {
    if pos !in site.env.disk then [] else ReadValue(site.env.disk[pos], PostLibcoinFork(site.env.testnet, site.best))
  }

  function AppendEntry(names: map<Name, seq<NameIndex>>, name: Name, e: NameIndex): map<Name, seq<NameIndex>> {
    names[name := History(names, name) + [e]]
  }

  // ----- transactions -----

  function NoneSpent(n: nat): seq<bool> {
    seq(n, i => false)
  }

  function AddTxIndex(txs: map<Hash, TxIndex>, tx: Tx, pos: DiskTxPos): map<Hash, TxIndex> {
    txs[tx.txid := TxIndex(pos, NoneSpent(|tx.vout|))]
  }

  predicate OutputsInRange(vout: seq<TxOut>) {
    (forall i :: 0 <= i < |vout| ==> MoneyRange(vout[i].nValue)) && MoneyRange(SumOut(vout))
  }

  datatype Connected = Connected(s: Indexes, fees: int)

  /** CTransaction::ConnectInputs with fBlock: the new databases and the new nFees. */
  function ConnectTx(site: Site, c: Connected, tx: Tx, pos: DiskTxPos): Outcome<Connected>
    requires site.Valid()
  {
    if tx.IsCoinBase() then Ok(Connected(c.s.(txs := AddTxIndex(c.s.txs, tx, pos)), c.fees))
    else
      var a :- SpendInputs(site, c.s.txs, tx, |tx.vin|);
      var decision :- NameDecision(site, c.s.names, tx, a);
      var names := match decision
        case None => c.s.names
        case Some(name) => AppendEntry(c.s.names, name, NameIndex(pos, site.Height(), StoredValue(site, pos)));
      if !OutputsInRange(tx.vout) then Rejected
      else
        var fee := a.valueIn - SumOut(tx.vout);
        if fee < 0 || !MoneyRange(c.fees + fee) then Rejected
        else Ok(Connected(Indexes(AddTxIndex(a.txs, tx, pos), names), c.fees + fee))
  }

  /** The loop of CTransaction::DisconnectInputs after `i` inputs.  CTxIndex::SetSpent
      asserts that the bit really changes; a failed assertion counts as a refusal. */
  function UnspendInputs(txs: map<Hash, TxIndex>, tx: Tx, i: nat): Outcome<map<Hash, TxIndex>>
    requires i <= |tx.vin|
  {
    if i == 0 then Ok(txs)
    else
      var t :- UnspendInputs(txs, tx, i - 1);
      var o := tx.vin[i - 1];
      if o.hash !in t || o.n >= |t[o.hash].isSpent| || !t[o.hash].isSpent[o.n] then Rejected
      else Ok(SetSpent(t, o, false))
  }

  /** CNamecoinHooks::DisconnectInputs. */
  function UndoName(testnet: bool, height: nat, s: Indexes, tx: Tx): Outcome<map<Name, seq<NameIndex>>> {
    if !tx.IsName() then Ok(s.names)
    else
      var d := DecodeNameTx(tx, PostLibcoinFork(testnet, height));
      if !d.good then Rejected
      else if !Registers(d.op) then Ok(s.names)
      else if d.args[0] !in s.names then Rejected
      else
        var v := s.names[d.args[0]];
        if v == [] then Ok(s.names)
        else if tx.txid !in s.txs then Rejected
        else if LastEntryIs(v, s.txs[tx.txid].pos) then Ok(s.names[d.args[0] := v[..|v| - 1]])
        else Ok(s.names)
  }

  function DisconnectTx(testnet: bool, height: nat, s: Indexes, tx: Tx): Outcome<Indexes> {
    var names :- UndoName(testnet, height, s, tx);
    var txs :- if tx.IsCoinBase() then Ok(s.txs) else UnspendInputs(s.txs, tx, |tx.vin|);
    Ok(Indexes(txs - {tx.txid}, names))
  }

  // ----- blocks -----

  predicate CheckTransaction(tx: Tx) {
    && tx.vin != [] && tx.vout != []
    && OutputsInRange(tx.vout)
    && (!tx.IsCoinBase() ==> forall i :: 0 <= i < |tx.vin| ==> tx.vin[i] != OutPoint(0, NULL_INDEX))
  }

  predicate DistinctTxids(vtx: seq<Tx>) {
    forall i, j :: 0 <= i < j < |vtx| ==> vtx[i].txid != vtx[j].txid
  }

  /** The structural part of CheckBlock; the rest of it (proof of work, time stamp, sizes,
      merkle root) is the predicate `blockChecks` of the environment. */
  predicate CheckBlock(env: Env, block: Block, height: nat) {
    && block.vtx != []
    && block.vtx[0].IsCoinBase()
    && (forall i :: 1 <= i < |block.vtx| ==> !block.vtx[i].IsCoinBase())
    && (forall i :: 0 <= i < |block.vtx| ==> CheckTransaction(block.vtx[i]))
    && DistinctTxids(block.vtx)
    && env.blockChecks(block, height)
  }

  function CompactSizeLength(n: nat): nat {
    if n < 253 then 1 else if n <= 0xffff then 3 else if n <= 0xffff_ffff then 5 else 9
  }

  function SumSizes(vtx: seq<Tx>, n: nat): nat
    requires n <= |vtx|
  {
    if n == 0 then 0 else SumSizes(vtx, n - 1) + vtx[n - 1].size
  }

  /** posThisTx of the i-th transaction, as ConnectBlock computes it. */
  function TxPos(b: StoredBlock, i: nat): DiskTxPos
    requires i <= |b.block.vtx|
  {
    DiskTxPos(b.nFile, b.nBlockPos,
              b.nBlockPos + b.block.headerSize + CompactSizeLength(|b.block.vtx|) + SumSizes(b.block.vtx, i))
  }

  function Tip(path: Chain): StoredBlock
    requires path != []
  {
    path[|path| - 1]
  }

  /** The loop of ConnectBlock after `i` transactions of the last block of `site.path`. */
  function ConnectTxs(site: Site, s: Indexes, i: nat): Outcome<Connected>
    requires site.Valid() && i <= |Tip(site.path).block.vtx|
  {
    if i == 0 then Ok(Connected(s, 0))
    else
      var c :- ConnectTxs(site, s, i - 1);
      ConnectTx(site, c, Tip(site.path).block.vtx[i - 1], TxPos(Tip(site.path), i - 1))
  }

  function Subsidy(height: nat): int {
    ShiftRight(50 * COIN, height / 210000)
  }

  function BlockValue(height: nat, fees: int): int {
    Subsidy(height) + fees
  }

  /** CBlock::ConnectBlock for the last block of `site.path`. */
  function ConnectBlock(site: Site, s: Indexes): Outcome<Indexes>
    requires site.Valid()
  {
    var block := Tip(site.path).block;
    if !CheckBlock(site.env, block, site.Height()) then Rejected
    else
      var c :- ConnectTxs(site, s, |block.vtx|);
      if SumOut(block.vtx[0].vout) > BlockValue(site.Height(), c.fees) then Rejected
      else Ok(c.s)
  }

  /** The loop of DisconnectBlock, when the last `n` transactions remain to be undone. */
  function DisconnectTxs(testnet: bool, height: nat, s: Indexes, vtx: seq<Tx>, n: nat): Outcome<Indexes>
    requires n <= |vtx|
    decreases n
  {
    if n == 0 then Ok(s)
    else
      var t :- DisconnectTx(testnet, height, s, vtx[n - 1]);
      DisconnectTxs(testnet, height, t, vtx, n - 1)
  }

  /** CBlock::DisconnectBlock: transactions are undone last to first. */
  function DisconnectBlock(testnet: bool, path: Chain, s: Indexes): Outcome<Indexes>
    requires path != []
  {
    DisconnectTxs(testnet, |path| - 1, s, Tip(path).block.vtx, |Tip(path).block.vtx|)
  }
}
