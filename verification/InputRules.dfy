/** Which outputs a transaction can spend, said of the branch instead of the indexes (src/main.cpp). */
module InputRules {
  import opened Common
  import opened ChainTypes
  import opened NameRules
  import opened Connect
  import opened Undo
  import opened ChainRun
  import opened TxLog
  import opened Owner

  /** The index, the block files and the branch below describe the logged transactions. */
  ghost predicate Surveyed(site: Site, txs: map<Hash, TxIndex>, log: seq<Logged>) {
    && site.Valid() && IndexOf(txs, log) && DistinctPositions(log)
    && DistinctPlaces(site.path) && LogInPlace(site.path, log)
    && FilesExact(site.env, log)
  }

  /** The block files hold every logged transaction. */
  ghost predicate Filed(env: Env, log: seq<Logged>) {
    forall k :: 0 <= k < |log| ==> log[k].pos in env.disk
  }

  /** Input `i` of `tx`, whose earlier inputs are worth `valueIn`, may spend an output of the `m`-th
      logged transaction: the output exists and no logged transaction spends it; its script is
      satisfied, from best height 193000 on (on the test network 0); the reward of a block is at least
      100 blocks deep; and all amounts stay between zero and 21 million coins. */
  ghost predicate MaySpend(site: Site, log: seq<Logged>, tx: Tx, i: nat, m: nat, valueIn: int)
    requires site.Valid() && i < |tx.vin|
  {
    var o := tx.vin[i];
    && m < |log| && log[m].tx.txid == o.hash && o.n < |log[m].tx.vout| && !Spends(log, o)
    && (site.best >= (if site.env.testnet then 0 else 193000) ==> site.env.verify(log[m].tx, tx, i))
    && (log[m].tx.IsCoinBase() ==> site.Height() - log[m].height >= 100)
    && 0 <= log[m].tx.vout[o.n].nValue <= 2100000000000000
    && 0 <= valueIn + log[m].tx.vout[o.n].nValue <= 2100000000000000
  }

  lemma EntryOf(site: Site, txs: map<Hash, TxIndex>, log: seq<Logged>, tx: Tx, i: nat, m: nat)
    requires Surveyed(site, txs, log) && i < |tx.vin| && SpendInputs(site, txs, tx, i).Ok?
    requires m < |log| && log[m].tx.txid == tx.vin[i].hash
    ensures var t, o := SpendInputs(site, txs, tx, i).value.txs, tx.vin[i];
            && o.hash in t && t[o.hash].pos == log[m].pos && |t[o.hash].isSpent| == |log[m].tx.vout|
            && (log[m].pos in site.env.disk ==> site.env.disk[log[m].pos] == log[m].tx)
            && (o.n < |log[m].tx.vout| ==> (t[o.hash].isSpent[o.n] <==> Spends(log, o) || o in tx.vin[..i]))
  {
    SpendInputsEffect(site, txs, tx, i);
    hide SpendInputs, Spends, DistinctPositions, DistinctPlaces, LogInPlace;
    var t, o := SpendInputs(site, txs, tx, i).value.txs, tx.vin[i];
    assert txs[log[m].tx.txid].pos == log[m].pos;
    assert IsSpent(t, o) <==> IsSpent(txs, o) || o in tx.vin[..i];
    assert IsSpent(txs, o) <==> Spends(log, o);
  }

  /** An input is accepted exactly when it may spend what the block files hold, and no earlier input
      of the transaction spends the same output. */
  lemma InputExact(site: Site, txs: map<Hash, TxIndex>, log: seq<Logged>, tx: Tx, i: nat, m: nat)
    requires Surveyed(site, txs, log) && i < |tx.vin| && SpendInputs(site, txs, tx, i).Ok?
    requires m < |log| && log[m].tx.txid == tx.vin[i].hash
    ensures var a := SpendInputs(site, txs, tx, i).value;
            && (SpendInput(site, tx, i, a).Ok? <==>
                  && log[m].pos in site.env.disk
                  && MaySpend(site, log, tx, i, m, a.valueIn) && tx.vin[i] !in tx.vin[..i])
            && (SpendInput(site, tx, i, a).Ok? ==>
                  SpendInput(site, tx, i, a).value.valueIn == a.valueIn + log[m].tx.vout[tx.vin[i].n].nValue)
  {
    EntryOf(site, txs, log, tx, i, m);
    DepthExact(site, log, m, COINBASE_MATURITY);
    hide SpendInputs, Spends, RelativeDepth, Surveyed;
  }

  /** An input that names no logged transaction is refused. */
  lemma NoSource(site: Site, txs: map<Hash, TxIndex>, log: seq<Logged>, tx: Tx, i: nat)
    requires Surveyed(site, txs, log) && i < |tx.vin| && SpendInputs(site, txs, tx, i).Ok?
    requires forall m :: 0 <= m < |log| ==> log[m].tx.txid != tx.vin[i].hash
    ensures SpendInput(site, tx, i, SpendInputs(site, txs, tx, i).value).Rejected?
  {
    SpendInputsEffect(site, txs, tx, i);
    hide SpendInputs, Spends, RelativeDepth, DistinctPositions, DistinctPlaces, LogInPlace, IsSpent;
  }

  /** What the inputs are worth when input `i` spends from the `from[i]`-th logged transaction. */
  function ValueFrom(log: seq<Logged>, tx: Tx, from: seq<nat>): int
    requires |from| <= |tx.vin|
    requires forall i :: 0 <= i < |from| ==> from[i] < |log| && tx.vin[i].n < |log[from[i]].tx.vout|
    decreases |from|
  {
    if from == [] then 0
    else
      var i := |from| - 1;
      ValueFrom(log, tx, from[..i]) + log[from[i]].tx.vout[tx.vin[i].n].nValue
  }

  /** Every input may spend what it names, no two the same output. */
  ghost predicate Sources(site: Site, log: seq<Logged>, tx: Tx, from: seq<nat>)
    requires site.Valid()
  {
    && |from| <= |tx.vin| && Distinct(tx.vin[..|from|])
    && (forall i :: 0 <= i < |from| ==> from[i] < |log| && tx.vin[i].n < |log[from[i]].tx.vout|)
    && (forall i :: 0 <= i < |from| ==> MaySpend(site, log, tx, i, from[i], ValueFrom(log, tx, from[..i])))
  }

  lemma SourcesPrefix(site: Site, log: seq<Logged>, tx: Tx, from: seq<nat>)
    requires site.Valid() && from != [] && Sources(site, log, tx, from)
    ensures Sources(site, log, tx, from[..|from| - 1])
  {
    hide MaySpend, ValueFrom;
    var front := from[..|from| - 1];
    assert forall i :: 0 <= i < |front| ==> front[i] == from[i] && front[..i] == from[..i];
    assert forall i :: 0 <= i < |front| ==> tx.vin[..|front|][i] == tx.vin[..|from|][i];
  }

  lemma SourcesLonger(site: Site, log: seq<Logged>, tx: Tx, from: seq<nat>, m: nat)
    requires site.Valid() && Sources(site, log, tx, from) && |from| < |tx.vin|
    requires m < |log| && tx.vin[|from|].n < |log[m].tx.vout| && tx.vin[|from|] !in tx.vin[..|from|]
    requires MaySpend(site, log, tx, |from|, m, ValueFrom(log, tx, from))
    ensures Sources(site, log, tx, from + [m])
  {
    hide MaySpend, ValueFrom;
    var longer := from + [m];
    assert forall i :: 0 <= i < |from| ==> longer[i] == from[i] && longer[..i] == from[..i];
    assert longer[..|from|] == from;
    assert tx.vin[..|longer|] == tx.vin[..|from|] + [tx.vin[|from|]];
  }

  /** What is accepted has its sources. */
  lemma {:induction false} InputsHaveSources(site: Site, txs: map<Hash, TxIndex>, log: seq<Logged>, tx: Tx, n: nat)
    returns (from: seq<nat>)
    requires Surveyed(site, txs, log) && n <= |tx.vin| && SpendInputs(site, txs, tx, n).Ok?
    ensures site.Valid() && |from| == n && Sources(site, log, tx, from)
    ensures SpendInputs(site, txs, tx, n).value.valueIn == ValueFrom(log, tx, from)
  {
    hide Surveyed, MaySpend, SpendInput, Sources;
    assert site.Valid() by {
      SurveyedValid(site, txs, log);
    }
    if n == 0 {
      from := [];
      NoSources(site, log, tx);
    } else {
      var front := InputsHaveSources(site, txs, log, tx, n - 1);
      var a := SpendInputs(site, txs, tx, n - 1).value;
      if forall m :: 0 <= m < |log| ==> log[m].tx.txid != tx.vin[n - 1].hash {
        NoSource(site, txs, log, tx, n - 1);
        assert false;
      }
      var m :| 0 <= m < |log| && log[m].tx.txid == tx.vin[n - 1].hash;
      InputExact(site, txs, log, tx, n - 1, m);
      SpendableExists(site, log, tx, n - 1, m, a.valueIn);
      SourcesLonger(site, log, tx, front, m);
      from := front + [m];
      ValueOfLonger(site, log, tx, front, m);
    }
  }

  lemma SurveyedValid(site: Site, txs: map<Hash, TxIndex>, log: seq<Logged>)
    requires Surveyed(site, txs, log)
    ensures site.Valid()
  {
  }

  lemma NoSources(site: Site, log: seq<Logged>, tx: Tx)
    requires site.Valid()
    ensures Sources(site, log, tx, [])
  {
  }

  lemma SpendableExists(site: Site, log: seq<Logged>, tx: Tx, i: nat, m: nat, valueIn: int)
    requires site.Valid() && i < |tx.vin| && MaySpend(site, log, tx, i, m, valueIn)
    ensures m < |log| && log[m].tx.txid == tx.vin[i].hash && tx.vin[i].n < |log[m].tx.vout|
  {
  }

  lemma ValueOfLonger(site: Site, log: seq<Logged>, tx: Tx, from: seq<nat>, m: nat)
    requires site.Valid() && Sources(site, log, tx, from + [m])
    ensures |from| < |tx.vin| && m < |log| && tx.vin[|from|].n < |log[m].tx.vout| && Sources(site, log, tx, from)
    ensures ValueFrom(log, tx, from + [m]) == ValueFrom(log, tx, from) + log[m].tx.vout[tx.vin[|from|].n].nValue
  {
    hide MaySpend;
    assert (from + [m])[..|from|] == from;
    SourcesPrefix(site, log, tx, from + [m]);
  }

  lemma LastSource(site: Site, log: seq<Logged>, tx: Tx, from: seq<nat>)
    requires site.Valid() && from != [] && Sources(site, log, tx, from)
    ensures var front, i := from[..|from| - 1], |from| - 1;
            && i < |tx.vin| && tx.vin[i] !in tx.vin[..i] && Sources(site, log, tx, front)
            && MaySpend(site, log, tx, i, from[i], ValueFrom(log, tx, front))
  {
    hide MaySpend, ValueFrom;
    SourcesPrefix(site, log, tx, from);
    var i := |from| - 1;
    assert forall j :: 0 <= j < i ==> tx.vin[..|from|][j] != tx.vin[..|from|][i];
  }

  lemma NextAccepted(site: Site, txs: map<Hash, TxIndex>, log: seq<Logged>, tx: Tx, i: nat, m: nat, valueIn: int)
    requires Surveyed(site, txs, log) && i < |tx.vin| && tx.vin[i] !in tx.vin[..i]
    requires SpendInputs(site, txs, tx, i).Ok? && SpendInputs(site, txs, tx, i).value.valueIn == valueIn
    requires site.Valid() && MaySpend(site, log, tx, i, m, valueIn) && Filed(site.env, log)
    ensures SpendInputs(site, txs, tx, i + 1).Ok?
    ensures m < |log| && tx.vin[i].n < |log[m].tx.vout|
    ensures SpendInputs(site, txs, tx, i + 1).value.valueIn == valueIn + log[m].tx.vout[tx.vin[i].n].nValue
  {
    hide Surveyed, MaySpend, SpendInput;
    SpendableExists(site, log, tx, i, m, valueIn);
    InputExact(site, txs, log, tx, i, m);
  }

  /** And what has its sources is accepted. */
  lemma {:induction false} SourcesAccepted(site: Site, txs: map<Hash, TxIndex>, log: seq<Logged>, tx: Tx,
                                           from: seq<nat>)
    requires Surveyed(site, txs, log) && Filed(site.env, log) && Sources(site, log, tx, from)
    ensures |from| <= |tx.vin| && SpendInputs(site, txs, tx, |from|).Ok?
    ensures SpendInputs(site, txs, tx, |from|).value.valueIn == ValueFrom(log, tx, from)
    decreases |from|
  {
    hide Surveyed, MaySpend, SpendInput;
    if from != [] {
      hide SpendInputs, Filed;
      SurveyedValid(site, txs, log);
      var front, i := from[..|from| - 1], |from| - 1;
      LastSource(site, log, tx, from);
      SourcesAccepted(site, txs, log, tx, front);
      NextAccepted(site, txs, log, tx, i, from[i], ValueFrom(log, tx, front));
    }
  }

  // ----- transactions and branches -----

  /** The outputs are worth no more than the inputs, and all amounts stay between zero and 21 million
      coins. */
  ghost predicate PaysFor(log: seq<Logged>, tx: Tx, from: seq<nat>, fees: int)
    requires |from| <= |tx.vin|
    requires forall i :: 0 <= i < |from| ==> from[i] < |log| && tx.vin[i].n < |log[from[i]].tx.vout|
  {
    && (forall i :: 0 <= i < |tx.vout| ==> 0 <= tx.vout[i].nValue <= 2100000000000000)
    && SumOut(tx.vout) <= 2100000000000000
    && SumOut(tx.vout) <= ValueFrom(log, tx, from)
    && 0 <= fees + ValueFrom(log, tx, from) - SumOut(tx.vout) <= 2100000000000000
  }

  /** Every input has its source, and they pay for the outputs. */
  ghost predicate Funded(site: Site, log: seq<Logged>, tx: Tx, fees: int, from: seq<nat>)
    requires site.Valid()
  {
    |from| == |tx.vin| && Sources(site, log, tx, from) && PaysFor(log, tx, from, fees)
  }

  lemma {:induction false} SumNonnegative(vout: seq<TxOut>)
    requires forall i :: 0 <= i < |vout| ==> vout[i].nValue >= 0
    ensures SumOut(vout) >= 0
  {
    if vout != [] {
      SumNonnegative(vout[..|vout| - 1]);
    }
  }

  /** A transaction other than a coinbase connects exactly when it is funded by outputs of the branch
      and the name hook lets it through. */
  lemma ConnectTxExact(site: Site, c: Connected, tx: Tx, pos: DiskTxPos, log: seq<Logged>)
    requires Surveyed(site, c.s.txs, log) && Filed(site.env, log) && !tx.IsCoinBase()
    ensures site.Valid()
    ensures ConnectTx(site, c, tx, pos).Ok? <==>
              && (exists from :: Funded(site, log, tx, c.fees, from))
              && SpendInputs(site, c.s.txs, tx, |tx.vin|).Ok?
              && NameDecision(site, c.s.names, tx, SpendInputs(site, c.s.txs, tx, |tx.vin|).value).Ok?
  {
    SurveyedValid(site, c.s.txs, log);
    hide Surveyed, Filed, Funded, SpendInputs, NameDecision, ConnectTx;
    if ConnectTx(site, c, tx, pos).Ok? {
      ConnectedParts(site, c, tx, pos);
      var from := ConnectTxFunded(site, c, tx, pos, log);
    }
    if from :| Funded(site, log, tx, c.fees, from) {
      FundedConnects(site, c, tx, pos, log, from);
    }
  }

  lemma ConnectedParts(site: Site, c: Connected, tx: Tx, pos: DiskTxPos)
    requires site.Valid() && !tx.IsCoinBase() && ConnectTx(site, c, tx, pos).Ok?
    ensures SpendInputs(site, c.s.txs, tx, |tx.vin|).Ok?
    ensures NameDecision(site, c.s.names, tx, SpendInputs(site, c.s.txs, tx, |tx.vin|).value).Ok?
  {
    hide SpendInputs, NameDecision, StoredValue, SumOut;
  }

  lemma FundedConnects(site: Site, c: Connected, tx: Tx, pos: DiskTxPos, log: seq<Logged>, from: seq<nat>)
    requires Surveyed(site, c.s.txs, log) && Filed(site.env, log) && !tx.IsCoinBase() && site.Valid()
    requires Funded(site, log, tx, c.fees, from)
    ensures SpendInputs(site, c.s.txs, tx, |tx.vin|).Ok?
    ensures ConnectTx(site, c, tx, pos).Ok? <==>
              NameDecision(site, c.s.names, tx, SpendInputs(site, c.s.txs, tx, |tx.vin|).value).Ok?
    ensures ConnectTx(site, c, tx, pos).Ok? ==>
              ConnectTx(site, c, tx, pos).value.fees == c.fees + ValueFrom(log, tx, from) - SumOut(tx.vout)
  {
    hide Surveyed, Filed, MaySpend, Sources, SpendInputs, NameDecision, StoredValue, ValueFrom, SumOut;
    SourcesAccepted(site, c.s.txs, log, tx, from);
    SumNonnegative(tx.vout);
  }

  /** What connects is funded, whatever the files hold besides. */
  lemma ConnectTxFunded(site: Site, c: Connected, tx: Tx, pos: DiskTxPos, log: seq<Logged>) returns (from: seq<nat>)
    requires Surveyed(site, c.s.txs, log) && !tx.IsCoinBase() && site.Valid() && ConnectTx(site, c, tx, pos).Ok?
    ensures Funded(site, log, tx, c.fees, from)
  {
    hide Surveyed, MaySpend, Sources, SpendInputs, NameDecision, StoredValue, ValueFrom, SumOut;
    from := InputsHaveSources(site, c.s.txs, log, tx, |tx.vin|);
  }

  lemma PlacedPrefix(path: Chain, log: seq<Logged>, longer: seq<Logged>)
    requires LogInPlace(path, longer) && log <= longer
    ensures LogInPlace(path, log)
  {
    forall k | 0 <= k < |log| ensures log[k].height < |path| && InBlock(path[log[k].height], log[k].pos) {
      assert longer[k] == log[k];
    }
  }

  /** In the middle of the last block of a branch. */
  lemma MidSurveyed(site: Site, before: Indexes, prefix: Chain, i: nat)
    requires BlockStart(site, before, prefix) && i < |Tip(site.path).block.vtx| && DistinctPlaces(site.path)
    requires site.path[..|prefix|] == prefix
    ensures ConnectTxs(site, before, i).Ok?
    ensures Surveyed(site, ConnectTxs(site, before, i).value.s.txs, MidLog(prefix, site.path, i))
  {
    MidBookkeeping(site, before, prefix, i);
    MidFacts(site, before, prefix, i);
    LogPlaced(site.path);
    assert Log(site.path) == MidLog(prefix, site.path, |Tip(site.path).block.vtx|) by {
      assert site.path[..|site.path| - 1] == prefix;
    }
    MidLogPrefix(prefix, site.path, i, |Tip(site.path).block.vtx|);
    hide ConnectTxs, BlockStart, IndexOf, DistinctPositions, DistinctPlaces, FilesExact, MidLog, EntriesLogged,
         LogInPlace, OneNameScript, Ruled;
    PlacedPrefix(site.path, MidLog(prefix, site.path, i), Log(site.path));
  }

  ghost predicate FundedBy(site: Site, log: seq<Logged>, tx: Tx)
    requires site.Valid()
  {
    exists from, fees :: Funded(site, log, tx, fees, from)
  }

  /** The `e`-th logged transaction is funded by those before it. */
  ghost predicate FundedAt(sites: seq<Site>, log: seq<Logged>, e: nat)
    requires e < |log|
  {
    log[e].tx.IsCoinBase() ||
    (&& 1 <= log[e].height <= |sites| && sites[log[e].height - 1].Valid()
     && FundedBy(sites[log[e].height - 1], log[..e], log[e].tx))
  }

  ghost predicate AllFunded(sites: seq<Site>, log: seq<Logged>) {
    forall e: nat :: e < |log| ==> FundedAt(sites, log, e)
  }

  lemma FundedLonger(sites: seq<Site>, log: seq<Logged>, longer: seq<Logged>, e: nat)
    requires e < |log| && log <= longer && FundedAt(sites, log, e)
    ensures FundedAt(sites, longer, e)
  {
    assert longer[e] == log[e] && longer[..e] == log[..e];
  }

  lemma {:induction false} BlockFunded(all: seq<Site>, site: Site, before: Indexes, prefix: Chain, i: nat)
    requires BlockStart(site, before, prefix) && i <= |Tip(site.path).block.vtx| && DistinctPlaces(site.path)
    requires 1 <= site.Height() <= |all| && all[site.Height() - 1] == site && site.path[..|prefix|] == prefix
    requires AllFunded(all, Log(prefix))
    ensures AllFunded(all, MidLog(prefix, site.path, i))
  {
    hide BlockStart, ConnectTx, DistinctPlaces, FundedAt;
    if i == 0 {
      assert MidLog(prefix, site.path, 0) == Log(prefix);
    } else {
      BlockFunded(all, site, before, prefix, i - 1);
      MidLogNext(prefix, site.path, i - 1);
      MidFacts(site, before, prefix, i - 1);
      MidSurveyed(site, before, prefix, i - 1);
      hide MidLog, Surveyed, FilesExact, Unrecorded;
      NextFunded(all, site, ConnectTxs(site, before, i - 1).value, Tip(site.path).block.vtx[i - 1],
                 TxPos(Tip(site.path), i - 1), MidLog(prefix, site.path, i - 1));
    }
  }

  lemma NextFunded(all: seq<Site>, site: Site, c: Connected, tx: Tx, pos: DiskTxPos, log: seq<Logged>)
    requires site.Valid() && ConnectTx(site, c, tx, pos).Ok? && Surveyed(site, c.s.txs, log)
    requires 1 <= site.Height() <= |all| && all[site.Height() - 1] == site && AllFunded(all, log)
    ensures AllFunded(all, log + [Logged(tx, pos, site.Height())])
  {
    hide ConnectTx, Surveyed, Funded;
    var longer := log + [Logged(tx, pos, site.Height())];
    forall e: nat | e < |longer| ensures FundedAt(all, longer, e) {
      if e < |log| {
        FundedLonger(all, log, longer, e);
      } else {
        assert longer[..e] == log;
        if !tx.IsCoinBase() {
          var from := ConnectTxFunded(site, c, tx, pos, log);
        }
      }
    }
  }

  /** On every accepted branch each transaction is funded by those before it: every input spends an
      output of an earlier transaction that none between them has spent, block rewards only when they
      are at least 100 blocks deep, with a signature that holds from the lock-in height on. */
  lemma {:induction false} BuiltFunded(all: seq<Site>, sites: seq<Site>, testnet: bool, chain: Chain, s: Indexes)
    requires Built(sites, testnet, chain, s) && SitesExact(sites, Log(chain)) && sites <= all
    ensures AllFunded(all, Log(chain))
    decreases |sites|
  {
    hide ConnectBlock, ConnectTxs, AllFunded, FilesExact, Bookkeeping, BlockStart, Built, Build, FreshBlock,
         OwnersThroughout, OwnersAtBack, AllReadAsRecorded, DistinctPlaces;
    if sites == [] {
      BuiltOnNothing(testnet, chain, s);
      NothingFunded(all);
    } else {
      BuiltSplit(sites, testnet, chain, s);
      var front, prefix, site := sites[..|sites| - 1], chain[..|chain| - 1], sites[|sites| - 1];
      var before, n := Build(front).value, |Tip(chain).block.vtx|;
      assert Log(chain) == MidLog(prefix, chain, n) && Log(prefix) <= Log(chain);
      assert FilesExact(site.env, Log(chain));
      SitesExactFront(sites, Log(prefix), Log(chain));
      hide MidLog, SitesExact, Log;
      BuiltFunded(all, front, testnet, prefix, before);
      OwnersBuilt(front, testnet, prefix, before);
      BuiltStart(sites, testnet, chain, s);
      PlacesDistinct(sites, testnet, chain, s);
      BlockFunded(all, site, before, prefix, n);
    }
  }

  lemma NothingFunded(all: seq<Site>)
    ensures AllFunded(all, [])
  {
  }

  /** No block reward is spent before it is 100 blocks deep. */
  lemma RewardsMature(sites: seq<Site>, testnet: bool, chain: Chain, s: Indexes, e: nat, i: nat, m: nat)
    requires Built(sites, testnet, chain, s) && SitesExact(sites, Log(chain))
    requires e < |Log(chain)| && !Log(chain)[e].tx.IsCoinBase() && i < |Log(chain)[e].tx.vin|
    requires m < |Log(chain)| && Log(chain)[m].tx.IsCoinBase() && Log(chain)[m].tx.txid == Log(chain)[e].tx.vin[i].hash
    ensures Log(chain)[e].height - Log(chain)[m].height >= 100
  {
    var log := Log(chain);
    hide Built, SitesExact, Log, SumOut, ValueFrom, FilesExact, OwnersThroughout, OwnersAtBack, AllReadAsRecorded;
    BuiltFunded(sites, sites, testnet, chain, s);
    OwnersBuilt(sites, testnet, chain, s);
    assert FundedAt(sites, log, e);
    var site := sites[log[e].height - 1];
    var from, fees :| Funded(site, log[..e], log[e].tx, fees, from);
    assert MaySpend(site, log[..e], log[e].tx, i, from[i], ValueFrom(log[..e], log[e].tx, from[..i]));
    SiteHeight(sites, testnet, chain, s, log[e].height - 1);
    SameTransaction(s.txs, log, from[i], m);
  }

  lemma SiteHeight(sites: seq<Site>, testnet: bool, chain: Chain, s: Indexes, k: nat)
    requires Built(sites, testnet, chain, s) && k < |sites|
    ensures sites[k].Valid() && sites[k].Height() == k + 1
  {
  }

  lemma SameTransaction(txs: map<Hash, TxIndex>, log: seq<Logged>, a: nat, b: nat)
    requires IndexOf(txs, log) && DistinctPositions(log) && a < |log| && b < |log| && log[a].tx.txid == log[b].tx.txid
    ensures a == b
  {
    hide Spends;
    assert txs[log[a].tx.txid].pos == log[a].pos == log[b].pos;
  }
}
