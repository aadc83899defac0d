/** Connecting pool transactions to a test pool on top of the database, as for a new block
    (src/main.cpp, src/namecoin.cpp). */
module TestPool {
  import opened Common
  import opened ScriptCode
  import opened NameScript
  import opened ChainTypes
  import opened NameRules
  import opened Connect
  import opened Undo

  /** The position recorded for transactions that are only in the pool. */
  const POOL_POS := DiskTxPos(1, 1, 1)

  /** The memory pool: its transactions by hash, and which of them register a name. */
  datatype Pool = Pool(txs: map<Hash, Tx>, pending: map<Name, set<Hash>>) {
    function PendingOn(name: Name): set<Hash> {
      if name in pending then pending[name] else {}
    }
  }

  // ----- connecting a pool transaction on top of the test pool -----

  predicate FromPool(mem: Pool, tx: Tx) {
    tx.txid in mem.txs && mem.txs[tx.txid] == tx
  }

  /** mapTestPool hides the index entries it changes. */
  function Overlay(txs: map<Hash, TxIndex>, testPool: map<Hash, TxIndex>): map<Hash, TxIndex> {
    txs + testPool
  }

  lemma OverlayEntry(txs: map<Hash, TxIndex>, testPool: map<Hash, TxIndex>, o: OutPoint)
    ensures o.hash in Overlay(txs, testPool) <==> o.hash in testPool || o.hash in txs
    ensures o.hash in testPool ==> Overlay(txs, testPool)[o.hash] == testPool[o.hash]
    ensures o.hash !in testPool && o.hash in txs ==> Overlay(txs, testPool)[o.hash] == txs[o.hash]
    ensures HasOutput(Overlay(txs, testPool), o) ==>
            var index := Overlay(txs, testPool)[o.hash];
            Overlay(txs, testPool[o.hash := index.(isSpent := index.isSpent[o.n := true])])
              == SetSpent(Overlay(txs, testPool), o, true)
  {
  }

  lemma OverlayUpdate(txs: map<Hash, TxIndex>, testPool: map<Hash, TxIndex>, h: Hash, entry: TxIndex)
    ensures Overlay(txs, testPool[h := entry]) == Overlay(txs, testPool)[h := entry]
  {
  }

  /** One input in CTransaction::ConnectInputs with fMiner; `a.txs` is the test pool. */
  function MinerInput(site: Site, mem: Pool, txs: map<Hash, TxIndex>, tx: Tx, i: nat, a: Inputs): Outcome<Inputs>
    requires i < |tx.vin|
  {
    var o := tx.vin[i];
    if o.hash !in a.txs && o.hash !in txs then Rejected
    else
      var index := if o.hash in a.txs then a.txs[o.hash] else txs[o.hash];
      if o.n >= |index.isSpent| then Rejected
      else if (if index.pos == POOL_POS then o.hash !in mem.txs else index.pos !in site.env.disk) then Rejected
      else
        var prev := if index.pos == POOL_POS then mem.txs[o.hash] else site.env.disk[index.pos];
        if o.n >= |prev.vout| then Rejected
        else if !site.env.verify(prev, tx, i) then Rejected
        else if prev.IsCoinBase() && RelativeDepth(site.path, index.pos, COINBASE_MATURITY) >= 0 then Rejected
        else if index.isSpent[o.n] then Rejected
        else
          var out := prev.vout[o.n];
          if !MoneyRange(out.nValue) || !MoneyRange(a.valueIn + out.nValue) then Rejected
          else Ok(Inputs(a.txs[o.hash := index.(isSpent := index.isSpent[o.n := true])], a.valueIn + out.nValue,
                         a.scripts + [out.scriptPubKey], a.prevPos + [index.pos]))
  }

  function MinerInputs(site: Site, mem: Pool, txs: map<Hash, TxIndex>, testPool: map<Hash, TxIndex>, tx: Tx,
                       i: nat): (r: Outcome<Inputs>)
    requires i <= |tx.vin|
    ensures r.Ok? ==> |r.value.scripts| == |r.value.prevPos| == i
  {
    if i == 0 then Ok(Inputs(testPool, 0, [], []))
    else
      var a :- MinerInputs(site, mem, txs, testPool, tx, i - 1);
      MinerInput(site, mem, txs, tx, i - 1, a)
  }

  /** The name hook with fMiner; `a.txs` is the test pool.  No other pending transaction on the
      name of a name_firstupdate may be in it. */
  predicate MinerNameCheck(site: Site, mem: Pool, names: map<Name, seq<NameIndex>>, tx: Tx, a: Inputs)
    requires site.Valid() && |a.scripts| == |a.prevPos|
  {
    var height := site.Height();
    var prev := ScanScripts(true, a.scripts, |a.scripts|);
    if prev.multiple then false
    else if !tx.IsName() then !HasNameOutput(tx) && !prev.found
    else
      var d := DecodeNameTx(tx, PostLibcoinFork(site.env.testnet, height));
      && d.good && tx.vout[d.nOut].nValue >= MIN_AMOUNT && |d.args[0]| <= MAX_NAME_LENGTH && ArgsCover(d)
      && (if d.op == OP_NAME_NEW then !prev.found && |d.args[0]| == 20
          else if d.op == OP_NAME_FIRSTUPDATE then
            && NameNetFee(tx.vout) >= NetworkFee(site.env.testnet, height)
            && prev.found && prev.op == OP_NAME_NEW
            && |d.args[1]| <= 20 && |d.args[2]| <= MAX_VALUE_LENGTH
            && CommitmentMatches(site.env.hash160, prev.args[0], d.args[1], d.args[0])
            && !(NameHeight(names, d.args[0]) >= 0 && height - NameHeight(names, d.args[0]) < ExpirationDepth(height))
            && RelativeDepth(site.path, a.prevPos[prev.index], MIN_FIRSTUPDATE_DEPTH) < 0
            && RelativeDepth(site.path, a.prevPos[prev.index], ExpirationDepth(height)) != -1
            && a.txs.Keys * mem.PendingOn(d.args[0]) == {}
          else
            && d.op == OP_NAME_UPDATE
            && prev.found && Registers(prev.op)
            && |d.args[1]| <= MAX_VALUE_LENGTH && prev.args[0] == d.args[0]
            && RelativeDepth(site.path, a.prevPos[prev.index], ExpirationDepth(height)) >= 0
            && LastEntryIs(History(names, d.args[0]), a.prevPos[prev.index]))
  }

  /** What CreateNewBlock accumulates: the test pool and nFees. */
  datatype Assembly = Assembly(testPool: map<Hash, TxIndex>, fees: int)

  /** How connecting a pool transaction ends.  A total of fees out of range is noticed only
      after nFees has been increased. */
  datatype MinerResult = Taken(next: Assembly) | Skipped | Overflowed(fees: int)

  /** CTransaction::ConnectInputs with fMiner. */
  function MinerConnect(site: Site, mem: Pool, s: Indexes, minFee: int, c: Assembly, tx: Tx): MinerResult
    requires site.Valid()
  {
    match MinerInputs(site, mem, s.txs, c.testPool, tx, |tx.vin|)
    case Rejected => Skipped
    case Ok(a) =>
      if !MinerNameCheck(site, mem, s.names, tx, a) || !OutputsInRange(tx.vout) then Skipped
      else
        var fee := a.valueIn - SumOut(tx.vout);
        if fee < 0 || fee < minFee then Skipped
        else if !MoneyRange(c.fees + fee) then Overflowed(c.fees + fee)
        else Taken(Assembly(a.txs[tx.txid := TxIndex(POOL_POS, NoneSpent(|tx.vout|))], c.fees + fee))
  }

  // ----- assembled transactions -----

  /** Some order of connecting the transactions to the test pool, none of them skipped. */
  ghost predicate Assembled(site: Site, mem: Pool, s: Indexes, txs: seq<Tx>, c: Assembly)
    requires site.Valid()
    decreases |txs|
  {
    if txs == [] then c == Assembly(map[], 0)
    else exists before :: Assembled(site, mem, s, Front(txs), before) && TakenBy(site, mem, s, before, Last(txs), c)
  }

  function Front<T>(v: seq<T>): (f: seq<T>)
    requires v != []
    ensures |f| == |v| - 1
  {
    v[..|v| - 1]
  }

  function Last<T>(v: seq<T>): T
    requires v != []
  {
    v[|v| - 1]
  }

  ghost predicate TakenBy(site: Site, mem: Pool, s: Indexes, before: Assembly, tx: Tx, c: Assembly)
    requires site.Valid()
  {
    exists minFee :: MinerConnect(site, mem, s, minFee, before, tx) == Taken(c)
  }
}
