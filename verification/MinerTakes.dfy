/** Which transactions of the pool the miner takes (src/main.cpp, src/namecoin.cpp). */
module MinerTakes {
  import opened Common
  import opened ScriptCode
  import opened NameScript
  import opened ChainTypes
  import opened NameRules
  import opened Connect
  import opened TxLog
  import opened NamePrefix
  import opened TestPool
  import opened InputRules
  import opened NameDecisions

  // ----- inputs from the chain -----

  /** The same site, at a best height from which every signature is checked. */
  function Checking(site: Site): Site {
    site.(best := 193000)
  }

  /** No transaction that `tx` spends from is in the test pool. */
  predicate FromChain(testPool: map<Hash, TxIndex>, tx: Tx) {
    forall i :: 0 <= i < |tx.vin| ==> tx.vin[i].hash !in testPool
  }

  function Entry(txs: map<Hash, TxIndex>, h: Hash): Option<TxIndex> {
    if h in txs then Some(txs[h]) else None
  }

  function PoolEntry(txs: map<Hash, TxIndex>, testPool: map<Hash, TxIndex>, h: Hash): Option<TxIndex> {
    if h in testPool then Some(testPool[h]) else Entry(txs, h)
  }

  ghost predicate SameEntries(tx: Tx, txs: map<Hash, TxIndex>, testPool: map<Hash, TxIndex>, t: map<Hash, TxIndex>) {
    forall i :: 0 <= i < |tx.vin| ==> PoolEntry(txs, testPool, tx.vin[i].hash) == Entry(t, tx.vin[i].hash)
  }

  /** What the miner has collected and what a block would collect. */
  ghost predicate Alike(tx: Tx, txs: map<Hash, TxIndex>, a: Inputs, b: Inputs) {
    && a.valueIn == b.valueIn && a.scripts == b.scripts && a.prevPos == b.prevPos
    && SameEntries(tx, txs, a.txs, b.txs)
    && (forall h :: h in b.txs ==> b.txs[h].pos != POOL_POS)
  }

  lemma MinerInputReadsChain(site: Site, mem: Pool, txs: map<Hash, TxIndex>, tx: Tx, i: nat, a: Inputs, b: Inputs)
    requires i < |tx.vin| && Alike(tx, txs, a, b)
    ensures MinerInput(site, mem, txs, tx, i, a).Ok? <==> SpendInput(Checking(site), tx, i, b).Ok?
    ensures MinerInput(site, mem, txs, tx, i, a).Ok? ==>
              Alike(tx, txs, MinerInput(site, mem, txs, tx, i, a).value, SpendInput(Checking(site), tx, i, b).value)
  {
    hide RelativeDepth;
    assert PoolEntry(txs, a.txs, tx.vin[i].hash) == Entry(b.txs, tx.vin[i].hash);
  }

  /** From the chain alone the miner reads what a block would read, every signature checked. */
  lemma {:induction false} MinerReadsChain(site: Site, mem: Pool, txs: map<Hash, TxIndex>, testPool: map<Hash, TxIndex>,
                                           tx: Tx, i: nat)
    requires i <= |tx.vin| && FromChain(testPool, tx) && forall h :: h in txs ==> txs[h].pos != POOL_POS
    ensures MinerInputs(site, mem, txs, testPool, tx, i).Ok? <==> SpendInputs(Checking(site), txs, tx, i).Ok?
    ensures MinerInputs(site, mem, txs, testPool, tx, i).Ok? ==>
              Alike(tx, txs, MinerInputs(site, mem, txs, testPool, tx, i).value,
                    SpendInputs(Checking(site), txs, tx, i).value)
  {
    hide MinerInput, SpendInput, Alike;
    if i == 0 {
      NothingRead(tx, txs, testPool);
    } else {
      MinerReadsChain(site, mem, txs, testPool, tx, i - 1);
      if MinerInputs(site, mem, txs, testPool, tx, i - 1).Ok? {
        MinerInputReadsChain(site, mem, txs, tx, i - 1, MinerInputs(site, mem, txs, testPool, tx, i - 1).value,
                             SpendInputs(Checking(site), txs, tx, i - 1).value);
      }
    }
  }

  lemma NothingRead(tx: Tx, txs: map<Hash, TxIndex>, testPool: map<Hash, TxIndex>)
    requires FromChain(testPool, tx) && forall h :: h in txs ==> txs[h].pos != POOL_POS
    ensures Alike(tx, txs, Inputs(testPool, 0, [], []), Inputs(txs, 0, [], []))
  {
  }

  // ----- names -----

  /** The miner takes a name_firstupdate exactly when, at the current height, it would be recorded, its
      name_new is not expired, it carries a cent, and nothing in the test pool is pending on the name. */
  lemma MinerFirstUpdateExact(site: Site, mem: Pool, names: map<Name, seq<NameIndex>>, tx: Tx, a: Inputs, n: nat,
                              x: nat, prev: NameOp, name: Name, rand: Bytes, value: Bytes)
    requires site.Valid() && NameTxOf(tx, n, NameFirstUpdate(name, rand, value)) && SpendsOp(a, x, prev)
    ensures n < |tx.vout| && x < |a.prevPos|
    ensures MinerNameCheck(site, mem, names, tx, a) <==>
              && prev.NameNew? && |name| <= 255 && |rand| <= 20 && |value| <= 1023 && tx.vout[n].nValue >= 1000000
              && NameNetFee(tx.vout) >= NetworkFee(site.env.testnet, site.Height())
              && !NameDecisions.Taken(names, name, site.Height())
              && RelativeDepth(site.path, a.prevPos[x], 12) < 0
              && RelativeDepth(site.path, a.prevPos[x], ExpirationDepth(site.Height())) != -1
              && Committed(prev.hash) == site.env.hash160(rand + name)
              && a.txs.Keys * mem.PendingOn(name) == {}
  {
    hide ScanScripts, DecodeNameTx, RelativeDepth, NetworkFee, NameNetFee, HasNameOutput, CommitmentMatches, Committed,
         Alone;
    ScriptsLength(tx);
    AloneBound(Scripts(tx.vout), n, NameFirstUpdate(name, rand, value));
    AloneBound(a.scripts, x, prev);
    NameTxDecodes(tx, n, NameFirstUpdate(name, rand, value), PostLibcoinFork(site.env.testnet, site.Height()));
    ScanAlone(true, a.scripts, x, prev, |a.scripts|);
    if prev.NameNew? {
      CommitmentExact(site.env.hash160, prev.hash, rand, name);
    }
  }

  /** A name_update exactly when it spends the last registration of its name, not yet expired. */
  lemma MinerUpdateExact(site: Site, mem: Pool, names: map<Name, seq<NameIndex>>, tx: Tx, a: Inputs, n: nat, x: nat,
                         prev: NameOp, name: Name, value: Bytes)
    requires site.Valid() && NameTxOf(tx, n, NameUpdate(name, value)) && SpendsOp(a, x, prev)
    ensures n < |tx.vout| && x < |a.prevPos|
    ensures MinerNameCheck(site, mem, names, tx, a) <==>
              && !prev.NameNew? && prev.name == name && |name| <= 255 && |value| <= 1023 && tx.vout[n].nValue >= 1000000
              && RelativeDepth(site.path, a.prevPos[x], ExpirationDepth(site.Height())) >= 0
              && LastEntryIs(History(names, name), a.prevPos[x])
  {
    hide ScanScripts, DecodeNameTx, RelativeDepth, ExpirationDepth, HasNameOutput, Alone, LastEntryIs;
    ScriptsLength(tx);
    AloneBound(Scripts(tx.vout), n, NameUpdate(name, value));
    AloneBound(a.scripts, x, prev);
    NameTxDecodes(tx, n, NameUpdate(name, value), PostLibcoinFork(site.env.testnet, site.Height()));
    ScanAlone(true, a.scripts, x, prev, |a.scripts|);
  }

  /** A name_new exactly when it commits with 20 bytes, carries a cent and spends no name output. */
  lemma MinerNewExact(site: Site, mem: Pool, names: map<Name, seq<NameIndex>>, tx: Tx, a: Inputs, n: nat, hash: Bytes)
    requires site.Valid() && NameTxOf(tx, n, NameNew(hash)) && |a.scripts| == |a.prevPos|
    requires AllQuiet(a.scripts) || exists x, prev :: SpendsOp(a, x, prev)
    ensures n < |tx.vout|
    ensures MinerNameCheck(site, mem, names, tx, a) <==>
              AllQuiet(a.scripts) && |hash| == 20 && tx.vout[n].nValue >= 1000000
  {
    hide ScanScripts, DecodeNameTx, HasNameOutput, Alone, AllQuiet, Quiet;
    ScriptsLength(tx);
    AloneBound(Scripts(tx.vout), n, NameNew(hash));
    NameTxDecodes(tx, n, NameNew(hash), PostLibcoinFork(site.env.testnet, site.Height()));
    InputsQuietOrNot(true, a);
  }

  /** Any other transaction exactly when it has no name output and spends none. */
  lemma MinerOrdinaryExact(site: Site, mem: Pool, names: map<Name, seq<NameIndex>>, tx: Tx, a: Inputs)
    requires site.Valid() && tx.nVersion != 0x7100 && |a.scripts| == |a.prevPos|
    requires AllQuiet(a.scripts) || exists x, prev :: SpendsOp(a, x, prev)
    ensures MinerNameCheck(site, mem, names, tx, a) <==>
              AllQuiet(a.scripts) && forall i :: 0 <= i < |tx.vout| ==> !IsNameScript(tx.vout[i].scriptPubKey)
  {
    hide ScanScripts, DecodeNameTx, AllQuiet, IsNameScript;
    InputsQuietOrNot(true, a);
  }

  // ----- whole transactions -----

  lemma TakenParts(site: Site, mem: Pool, s: Indexes, minFee: int, c: Assembly, tx: Tx, a: Inputs)
    requires site.Valid() && MinerInputs(site, mem, s.txs, c.testPool, tx, |tx.vin|) == Ok(a)
    ensures MinerConnect(site, mem, s, minFee, c, tx).Taken? <==>
              && MinerNameCheck(site, mem, s.names, tx, a) && OutputsInRange(tx.vout)
              && a.valueIn - SumOut(tx.vout) >= 0 && a.valueIn - SumOut(tx.vout) >= minFee
              && MoneyRange(c.fees + a.valueIn - SumOut(tx.vout))
    ensures MinerConnect(site, mem, s, minFee, c, tx).Taken? ==>
              MinerConnect(site, mem, s, minFee, c, tx).next.fees == c.fees + a.valueIn - SumOut(tx.vout)
  {
    hide MinerInputs, MinerNameCheck, SumOut;
  }

  /** Funded on the chain, with the minimum fee. */
  ghost predicate FundedFor(site: Site, log: seq<Logged>, tx: Tx, fees: int, minFee: int, from: seq<nat>)
    requires site.Valid()
  {
    Funded(Checking(site), log, tx, fees, from) && ValueFrom(log, tx, from) - SumOut(tx.vout) >= minFee
  }

  lemma TakenReads(site: Site, mem: Pool, s: Indexes, minFee: int, c: Assembly, tx: Tx)
    requires site.Valid() && MinerConnect(site, mem, s, minFee, c, tx).Taken?
    ensures MinerInputs(site, mem, s.txs, c.testPool, tx, |tx.vin|).Ok?
  {
    hide MinerInputs, MinerNameCheck, SumOut;
  }

  lemma FundedSources(site: Site, log: seq<Logged>, tx: Tx, fees: int, from: seq<nat>)
    requires site.Valid() && Funded(Checking(site), log, tx, fees, from)
    ensures |from| == |tx.vin| && Sources(Checking(site), log, tx, from)
  {
    hide Sources, ValueFrom, SumOut;
  }

  lemma PaidOutputs(site: Site, log: seq<Logged>, tx: Tx, fees: int, from: seq<nat>)
    requires site.Valid() && Funded(Checking(site), log, tx, fees, from)
    ensures OutputsInRange(tx.vout) && SumOut(tx.vout) <= ValueFrom(log, tx, from)
    ensures MoneyRange(fees + ValueFrom(log, tx, from) - SumOut(tx.vout))
  {
    hide Sources, ValueFrom, SumOut, MaySpend;
    SumNonnegative(tx.vout);
  }

  lemma SourcesPay(site: Site, log: seq<Logged>, tx: Tx, fees: int, minFee: int, from: seq<nat>, valueIn: int)
    requires site.Valid() && |from| == |tx.vin| && Sources(Checking(site), log, tx, from)
    requires ValueFrom(log, tx, from) == valueIn && OutputsInRange(tx.vout) && SumOut(tx.vout) <= valueIn
    requires valueIn - SumOut(tx.vout) >= minFee && MoneyRange(fees + valueIn - SumOut(tx.vout))
    ensures FundedFor(site, log, tx, fees, minFee, from)
  {
    hide MaySpend, ValueFrom, SumOut;
  }

  lemma TakenIsFunded(site: Site, mem: Pool, s: Indexes, minFee: int, c: Assembly, tx: Tx, log: seq<Logged>)
    requires Surveyed(Checking(site), s.txs, log) && site.Valid() && FromChain(c.testPool, tx)
    requires forall h :: h in s.txs ==> s.txs[h].pos != POOL_POS
    requires MinerConnect(site, mem, s, minFee, c, tx).Taken?
    ensures exists from :: FundedFor(site, log, tx, c.fees, minFee, from)
    ensures MinerInputs(site, mem, s.txs, c.testPool, tx, |tx.vin|).Ok?
    ensures MinerNameCheck(site, mem, s.names, tx, MinerInputs(site, mem, s.txs, c.testPool, tx, |tx.vin|).value)
  {
    hide MinerConnect, MinerInputs, MinerNameCheck, SpendInputs, Surveyed, FromChain, Sources, FundedFor, SumOut,
         ValueFrom, OutputsInRange;
    MinerReadsChain(site, mem, s.txs, c.testPool, tx, |tx.vin|);
    TakenReads(site, mem, s, minFee, c, tx);
    var a := MinerInputs(site, mem, s.txs, c.testPool, tx, |tx.vin|).value;
    TakenParts(site, mem, s, minFee, c, tx, a);
    var from := InputsHaveSources(Checking(site), s.txs, log, tx, |tx.vin|);
    SourcesPay(site, log, tx, c.fees, minFee, from, a.valueIn);
  }

  lemma FundedIsTaken(site: Site, mem: Pool, s: Indexes, minFee: int, c: Assembly, tx: Tx, log: seq<Logged>,
                      from: seq<nat>)
    requires Surveyed(Checking(site), s.txs, log) && Filed(site.env, log) && site.Valid() && FromChain(c.testPool, tx)
    requires forall h :: h in s.txs ==> s.txs[h].pos != POOL_POS
    requires FundedFor(site, log, tx, c.fees, minFee, from)
    ensures MinerInputs(site, mem, s.txs, c.testPool, tx, |tx.vin|).Ok?
    ensures MinerConnect(site, mem, s, minFee, c, tx).Taken? <==>
              MinerNameCheck(site, mem, s.names, tx, MinerInputs(site, mem, s.txs, c.testPool, tx, |tx.vin|).value)
  {
    hide MinerConnect, MinerInputs, MinerNameCheck, SpendInputs, Surveyed, Filed, Funded, FromChain, Sources, SumOut,
         ValueFrom, OutputsInRange;
    MinerReadsChain(site, mem, s.txs, c.testPool, tx, |tx.vin|);
    FundedSources(site, log, tx, c.fees, from);
    SourcesAccepted(Checking(site), s.txs, log, tx, from);
    TakenParts(site, mem, s, minFee, c, tx, MinerInputs(site, mem, s.txs, c.testPool, tx, |tx.vin|).value);
    PaidOutputs(site, log, tx, c.fees, from);
  }

  /** A transaction that spends from the chain is taken exactly when it is funded there, every signature
      checked, pays at least the minimum fee, and passes the name check. */
  lemma TakenExact(site: Site, mem: Pool, s: Indexes, minFee: int, c: Assembly, tx: Tx, log: seq<Logged>)
    requires Surveyed(Checking(site), s.txs, log) && Filed(site.env, log) && site.Valid() && FromChain(c.testPool, tx)
    requires forall h :: h in s.txs ==> s.txs[h].pos != POOL_POS
    ensures MinerConnect(site, mem, s, minFee, c, tx).Taken? <==>
              && (exists from :: FundedFor(site, log, tx, c.fees, minFee, from))
              && MinerInputs(site, mem, s.txs, c.testPool, tx, |tx.vin|).Ok?
              && MinerNameCheck(site, mem, s.names, tx, MinerInputs(site, mem, s.txs, c.testPool, tx, |tx.vin|).value)
  {
    hide MinerConnect, MinerInputs, MinerNameCheck, Surveyed, Filed, FundedFor, FromChain;
    if MinerConnect(site, mem, s, minFee, c, tx).Taken? {
      TakenIsFunded(site, mem, s, minFee, c, tx, log);
    }
    if from :| FundedFor(site, log, tx, c.fees, minFee, from) {
      FundedIsTaken(site, mem, s, minFee, c, tx, log, from);
    }
  }

  // ----- inputs from transactions taken before -----

  ghost predicate SpentBy(txs: seq<Tx>, o: OutPoint) {
    exists k :: 0 <= k < |txs| && o in txs[k].vin
  }

  ghost predicate IsTaken(txs: seq<Tx>, h: Hash) {
    exists j :: 0 <= j < |txs| && txs[j].txid == h
  }

  /** The test pool has the transaction at the pseudo position, with those outputs spent that the
      taken transactions spend. */
  ghost predicate Tracked(txs: seq<Tx>, t: Tx, m: map<Hash, TxIndex>) {
    && t.txid in m && m[t.txid].pos == POOL_POS && |m[t.txid].isSpent| == |t.vout|
    && forall n :: 0 <= n < |t.vout| ==> (m[t.txid].isSpent[n] <==> SpentBy(txs, OutPoint(t.txid, n)))
  }

  ghost predicate Tracks(txs: seq<Tx>, chain: map<Hash, TxIndex>, m: map<Hash, TxIndex>) {
    && (forall j :: 0 <= j < |txs| ==> Tracked(txs, txs[j], m))
    && (forall h :: h in m ==> h in chain || IsTaken(txs, h))
    && (forall k, o :: 0 <= k < |txs| && o in txs[k].vin ==> o.hash in chain || IsTaken(txs, o.hash))
  }

  /** What reading inputs does to an entry. */
  predicate Marked(before: TxIndex, after: TxIndex, h: Hash, vin: seq<OutPoint>) {
    && after.pos == before.pos && |after.isSpent| == |before.isSpent|
    && forall n :: 0 <= n < |before.isSpent| ==> (after.isSpent[n] <==> before.isSpent[n] || OutPoint(h, n) in vin)
  }

  ghost predicate Marks(chain: map<Hash, TxIndex>, testPool: map<Hash, TxIndex>, m: map<Hash, TxIndex>,
                        vin: seq<OutPoint>)
  {
    && (forall h :: h in testPool ==> h in m && Marked(testPool[h], m[h], h, vin))
    && (forall h :: h in m ==> h in testPool || h in chain)
    && (forall k :: 0 <= k < |vin| ==> vin[k].hash in testPool || vin[k].hash in chain)
  }

  lemma MarksNext(site: Site, mem: Pool, chain: map<Hash, TxIndex>, testPool: map<Hash, TxIndex>, tx: Tx, i: nat,
                  a: Inputs)
    requires i < |tx.vin| && Marks(chain, testPool, a.txs, tx.vin[..i]) && MinerInput(site, mem, chain, tx, i, a).Ok?
    ensures Marks(chain, testPool, MinerInput(site, mem, chain, tx, i, a).value.txs, tx.vin[..i + 1])
  {
    hide RelativeDepth;
    assert tx.vin[..i + 1] == tx.vin[..i] + [tx.vin[i]];
  }

  lemma {:induction false} InputsMark(site: Site, mem: Pool, chain: map<Hash, TxIndex>, testPool: map<Hash, TxIndex>,
                                      tx: Tx, i: nat)
    requires i <= |tx.vin| && MinerInputs(site, mem, chain, testPool, tx, i).Ok?
    ensures Marks(chain, testPool, MinerInputs(site, mem, chain, testPool, tx, i).value.txs, tx.vin[..i])
  {
    hide MinerInput;
    if i > 0 {
      InputsMark(site, mem, chain, testPool, tx, i - 1);
      MarksNext(site, mem, chain, testPool, tx, i - 1, MinerInputs(site, mem, chain, testPool, tx, i - 1).value);
    }
  }

  lemma SpentByLonger(txs: seq<Tx>, tx: Tx, o: OutPoint)
    ensures SpentBy(txs + [tx], o) <==> SpentBy(txs, o) || o in tx.vin
    ensures IsTaken(txs + [tx], o.hash) <==> IsTaken(txs, o.hash) || o.hash == tx.txid
  {
    var longer := txs + [tx];
    assert longer[|txs|] == tx;
    if SpentBy(txs, o) {
      var k :| 0 <= k < |txs| && o in txs[k].vin;
      assert longer[k] == txs[k];
    }
    if IsTaken(txs, o.hash) {
      var j :| 0 <= j < |txs| && txs[j].txid == o.hash;
      assert longer[j] == txs[j];
    }
  }

  lemma TracksNext(txs: seq<Tx>, tx: Tx, chain: map<Hash, TxIndex>, testPool: map<Hash, TxIndex>, m: map<Hash, TxIndex>)
    requires Tracks(txs, chain, testPool) && Marks(chain, testPool, m, tx.vin)
    requires tx.txid !in chain && !IsTaken(txs, tx.txid)
    ensures Tracks(txs + [tx], chain, m[tx.txid := TxIndex(POOL_POS, NoneSpent(|tx.vout|))])
  {
    hide SpentBy, IsTaken;
    var longer, next := txs + [tx], m[tx.txid := TxIndex(POOL_POS, NoneSpent(|tx.vout|))];
    forall o ensures SpentBy(longer, o) <==> SpentBy(txs, o) || o in tx.vin
      ensures IsTaken(longer, o.hash) <==> IsTaken(txs, o.hash) || o.hash == tx.txid
    {
      SpentByLonger(txs, tx, o);
    }
    forall h ensures IsTaken(longer, h) <==> IsTaken(txs, h) || h == tx.txid {
      SpentByLonger(txs, tx, OutPoint(h, 0));
    }
    forall n ensures !SpentBy(longer, OutPoint(tx.txid, n)) {
      NotYetSpent(txs, tx, chain, testPool, n);
    }
    forall j | 0 <= j < |longer| ensures Tracked(longer, longer[j], next) {
      if j < |txs| {
        assert Tracked(txs, txs[j], testPool) && Marked(testPool[txs[j].txid], m[txs[j].txid], txs[j].txid, tx.vin);
        TakenHere(txs, j);
      }
    }
  }

  lemma TakenHere(txs: seq<Tx>, j: nat)
    requires j < |txs|
    ensures IsTaken(txs, txs[j].txid)
  {
  }

  lemma NotYetSpent(txs: seq<Tx>, tx: Tx, chain: map<Hash, TxIndex>, testPool: map<Hash, TxIndex>, n: nat)
    requires Tracks(txs, chain, testPool) && tx.txid !in chain && !IsTaken(txs, tx.txid)
    requires forall k :: 0 <= k < |tx.vin| ==> tx.vin[k].hash in testPool || tx.vin[k].hash in chain
    ensures !SpentBy(txs + [tx], OutPoint(tx.txid, n))
  {
    SpentByLonger(txs, tx, OutPoint(tx.txid, n));
  }

  /** The test pool after any transactions were taken. */
  lemma {:induction false} AssembledTracks(site: Site, mem: Pool, s: Indexes, txs: seq<Tx>, c: Assembly)
    requires site.Valid() && Assembled(site, mem, s, txs, c) && DistinctTxids(txs)
    requires forall j :: 0 <= j < |txs| ==> txs[j].txid !in s.txs
    ensures Tracks(txs, s.txs, c.testPool)
    decreases |txs|
  {
    hide MinerInputs, MinerNameCheck, Tracks, Marks;
    if txs == [] {
      NothingTracked(s.txs);
    } else {
      var front, tx := Front(txs), Last(txs);
      var before :| Assembled(site, mem, s, front, before) && TakenBy(site, mem, s, before, tx, c);
      assert front + [tx] == txs;
      forall j | 0 <= j < |front| ensures front[j].txid != tx.txid && front[j].txid !in s.txs {
        assert txs[j] == front[j];
      }
      AssembledTracks(site, mem, s, front, before);
      InputsMark(site, mem, s.txs, before.testPool, tx, |tx.vin|);
      assert tx.vin[..|tx.vin|] == tx.vin;
      TracksNext(front, tx, s.txs, before.testPool,
                 MinerInputs(site, mem, s.txs, before.testPool, tx, |tx.vin|).value.txs);
    }
  }

  lemma NothingTracked(chain: map<Hash, TxIndex>)
    ensures Tracks([], chain, map[])
  {
  }

  /** An input that names a transaction taken before is accepted exactly when that has the output, no
      taken transaction nor an earlier input spends it, its script is satisfied, and the amounts stay
      between zero and 21 million coins. */
  lemma PoolInputExact(site: Site, mem: Pool, s: Indexes, txs: seq<Tx>, c: Assembly, tx: Tx, i: nat, j: nat)
    requires site.Valid() && Assembled(site, mem, s, txs, c) && DistinctTxids(txs)
    requires forall j :: 0 <= j < |txs| ==> txs[j].txid !in s.txs
    requires j < |txs| && i < |tx.vin| && tx.vin[i].hash == txs[j].txid
    requires FromPool(mem, txs[j]) && !txs[j].IsCoinBase()
    requires MinerInputs(site, mem, s.txs, c.testPool, tx, i).Ok?
    ensures var a, o := MinerInputs(site, mem, s.txs, c.testPool, tx, i).value, tx.vin[i];
            && (MinerInput(site, mem, s.txs, tx, i, a).Ok? <==>
                  && o.n < |txs[j].vout| && !SpentBy(txs, o) && o !in tx.vin[..i]
                  && site.env.verify(txs[j], tx, i)
                  && 0 <= txs[j].vout[o.n].nValue <= 2100000000000000
                  && 0 <= a.valueIn + txs[j].vout[o.n].nValue <= 2100000000000000)
            && (MinerInput(site, mem, s.txs, tx, i, a).Ok? ==>
                  MinerInput(site, mem, s.txs, tx, i, a).value.valueIn == a.valueIn + txs[j].vout[o.n].nValue)
  {
    hide Assembled, MinerInputs, RelativeDepth, SpentBy, IsTaken;
    AssembledTracks(site, mem, s, txs, c);
    InputsMark(site, mem, s.txs, c.testPool, tx, i);
    var a, h := MinerInputs(site, mem, s.txs, c.testPool, tx, i).value, txs[j].txid;
    assert Tracked(txs, txs[j], c.testPool) && Marked(c.testPool[h], a.txs[h], h, tx.vin[..i]);
  }
}
