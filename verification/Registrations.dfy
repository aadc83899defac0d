/** Honest registrations and updates are recorded (src/namecoin.cpp). */
module Registrations {
  import opened Common
  import opened ScriptCode
  import opened NameScript
  import opened ChainTypes
  import opened NameRules
  import opened Connect
  import opened Undo
  import opened TxLog
  import opened Owner
  import opened NamePrefix
  import opened InputRules
  import opened NameDecisions

  /** The script that input `i` spends. */
  function SpentScriptOf(log: seq<Logged>, tx: Tx, from: seq<nat>, i: nat): Script
    requires i < |from| <= |tx.vin| && from[i] < |log| && tx.vin[i].n < |log[from[i]].tx.vout|
  {
    log[from[i]].tx.vout[tx.vin[i].n].scriptPubKey
  }

  /** Every input has its source, and input `x` is the only one that spends an operation, `op`. */
  ghost predicate FundedOn(site: Site, log: seq<Logged>, tx: Tx, fees: int, from: seq<nat>, x: nat, op: NameOp)
    requires site.Valid()
  {
    && Funded(site, log, tx, fees, from) && x < |from| && op.Pushable(0xffff_ffff)
    && Carries(SpentScriptOf(log, tx, from, x), op)
    && forall i :: 0 <= i < |from| && i != x ==> Quiet(SpentScriptOf(log, tx, from, i))
  }

  /** What the input loop collects is what the sources hold. */
  lemma CollectedFrom(site: Site, txs: map<Hash, TxIndex>, log: seq<Logged>, tx: Tx, fees: int, from: seq<nat>, i: nat)
    requires Surveyed(site, txs, log) && site.Valid() && Funded(site, log, tx, fees, from) && i < |from|
    requires SpendInputs(site, txs, tx, |tx.vin|).Ok?
    ensures var a := SpendInputs(site, txs, tx, |tx.vin|).value;
            a.scripts[i] == SpentScriptOf(log, tx, from, i) && a.prevPos[i] == log[from[i]].pos
  {
    hide SpendInputs, ValueFrom, IndexOf, DistinctPositions, DistinctPlaces, LogInPlace, FilesExact, SumOut;
    var k := SpentScript(site, txs, tx, |tx.vin|, i, log);
    assert MaySpend(site, log, tx, i, from[i], ValueFrom(log, tx, from[..i]));
    SameTransaction(txs, log, k, from[i]);
  }

  lemma CollectedOp(site: Site, txs: map<Hash, TxIndex>, log: seq<Logged>, tx: Tx, fees: int, from: seq<nat>, x: nat,
                    op: NameOp)
    requires Surveyed(site, txs, log) && site.Valid() && FundedOn(site, log, tx, fees, from, x, op)
    requires SpendInputs(site, txs, tx, |tx.vin|).Ok?
    ensures var a := SpendInputs(site, txs, tx, |tx.vin|).value;
            SpendsOp(a, x, op) && from[x] < |log| && a.prevPos[x] == log[from[x]].pos
  {
    var a := SpendInputs(site, txs, tx, |tx.vin|).value;
    hide SpendInputs, Surveyed, Carries, Quiet, PaysFor;
    forall i | 0 <= i < |from|
      ensures a.scripts[i] == SpentScriptOf(log, tx, from, i) && a.prevPos[i] == log[from[i]].pos
    {
      CollectedFrom(site, txs, log, tx, fees, from, i);
    }
  }

  /** A stored value is the one the operation carries, whichever rule reads it. */
  lemma ValueStored(site: Site, pos: DiskTxPos, tx: Tx, n: nat, op: NameOp)
    requires NameTxOf(tx, n, op) && !op.NameNew? && OnFile(site.env, pos, tx)
    ensures StoredValue(site, pos) == op.value
  {
    NameTxDecodes(tx, n, op, PostLibcoinFork(site.env.testnet, site.best));
    hide DecodeNameTx, NameTxOf, PostLibcoinFork;
  }

  /** What the indexes look like after an accepted transaction that registers. */
  lemma Recorded(site: Site, c: Connected, tx: Tx, pos: DiskTxPos, name: Name)
    requires site.Valid() && !tx.IsCoinBase() && ConnectTx(site, c, tx, pos).Ok?
    requires SpendInputs(site, c.s.txs, tx, |tx.vin|).Ok?
    requires NameDecision(site, c.s.names, tx, SpendInputs(site, c.s.txs, tx, |tx.vin|).value) == Ok(Some(name))
    ensures ConnectTx(site, c, tx, pos).value.s.names
              == c.s.names[name := History(c.s.names, name) + [NameIndex(pos, site.Height(), StoredValue(site, pos))]]
  {
    hide SpendInputs, NameDecision, StoredValue, SumOut;
  }

  /** Whoever opens, past the fork, a commitment to `rand + name` at least twelve blocks deep, with a
      name that is not taken and the fee paid, gets the entry with the value asked for. */
  lemma HonestClaim(site: Site, c: Connected, tx: Tx, pos: DiskTxPos, log: seq<Logged>, from: seq<nat>, n: nat, x: nat,
                    name: Name, rand: Bytes, value: Bytes)
    requires Surveyed(site, c.s.txs, log) && Filed(site.env, log) && site.Valid() && !tx.IsCoinBase()
    requires Strict(site.env.testnet, site.Height())
    requires |site.env.hash160(rand + name)| == 20
    requires FundedOn(site, log, tx, c.fees, from, x, NameNew(site.env.hash160(rand + name)))
    requires NameTxOf(tx, n, NameFirstUpdate(name, rand, value)) && OnFile(site.env, pos, tx)
    requires |name| <= 255 && |rand| <= 20 && |value| <= 1023 && n < |tx.vout| && Carried(site, tx, n)
    requires NameNetFee(tx.vout) >= NetworkFee(site.env.testnet, site.Height())
             && !Taken(c.s.names, name, site.Height())
    requires from[x] < |log| && site.Height() - log[from[x]].height >= 12
    ensures ConnectTx(site, c, tx, pos).Ok?
    ensures ConnectTx(site, c, tx, pos).value.s.names
              == c.s.names[name := History(c.s.names, name) + [NameIndex(pos, site.Height(), value)]]
  {
    hide Surveyed, Filed, Funded, SpendInputs, NameDecision, ConnectTx, RelativeDepth, Quiet, Carries, Taken, Carried,
         NetworkFee, NameNetFee, NameTxOf, SpendsOp, StoredValue;
    var prev := NameNew(site.env.hash160(rand + name));
    FundedConnects(site, c, tx, pos, log, from);
    CollectedOp(site, c.s.txs, log, tx, c.fees, from, x, prev);
    var a := SpendInputs(site, c.s.txs, tx, |tx.vin|).value;
    FirstUpdateExact(site, c.s.names, tx, a, n, x, prev, name, rand, value);
    SurveyedDepth(site, c.s.txs, log, from[x], 12);
    Recorded(site, c, tx, pos, name);
    ValueStored(site, pos, tx, n, NameFirstUpdate(name, rand, value));
  }

  lemma SurveyedDepth(site: Site, txs: map<Hash, TxIndex>, log: seq<Logged>, m: nat, maxDepth: nat)
    requires Surveyed(site, txs, log) && m < |log|
    ensures site.Valid()
    ensures RelativeDepth(site.path, log[m].pos, maxDepth) >= 0 <==> site.Height() - log[m].height < maxDepth
  {
    hide RelativeDepth, IndexOf, DistinctPositions, FilesExact;
    DepthExact(site, log, m, maxDepth);
  }

  /** Whoever spends the last registration of a name within its 36000 blocks gets the next entry. */
  lemma HonestUpdate(site: Site, c: Connected, tx: Tx, pos: DiskTxPos, log: seq<Logged>, from: seq<nat>, n: nat, x: nat,
                     prev: NameOp, name: Name, value: Bytes)
    requires Surveyed(site, c.s.txs, log) && Filed(site.env, log) && site.Valid() && !tx.IsCoinBase()
    requires FundedOn(site, log, tx, c.fees, from, x, prev) && !prev.NameNew? && prev.name == name
    requires NameTxOf(tx, n, NameUpdate(name, value)) && OnFile(site.env, pos, tx)
    requires |name| <= 255 && |value| <= 1023 && n < |tx.vout| && Carried(site, tx, n)
    requires from[x] < |log| && LastEntryIs(History(c.s.names, name), log[from[x]].pos)
    requires site.Height() >= 48000 && site.Height() - log[from[x]].height < 36000
    ensures ConnectTx(site, c, tx, pos).Ok?
    ensures ConnectTx(site, c, tx, pos).value.s.names
              == c.s.names[name := History(c.s.names, name) + [NameIndex(pos, site.Height(), value)]]
  {
    hide Surveyed, Filed, Funded, SpendInputs, NameDecision, ConnectTx, RelativeDepth, Quiet, Carries, Carried,
         NameTxOf, SpendsOp, StoredValue;
    FundedConnects(site, c, tx, pos, log, from);
    CollectedOp(site, c.s.txs, log, tx, c.fees, from, x, prev);
    var a := SpendInputs(site, c.s.txs, tx, |tx.vin|).value;
    UpdateExact(site, c.s.names, tx, a, n, x, prev, name, value);
    SurveyedDepth(site, c.s.txs, log, from[x], 36000);
    Recorded(site, c, tx, pos, name);
    ValueStored(site, pos, tx, n, NameUpdate(name, value));
  }
}
