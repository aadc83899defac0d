/** Signatures on the chain: an unexpired name changes hands only by its key (src/script.cpp,
    src/main.cpp, src/namecoin.cpp). */
module NameSigning {
  import opened Common
  import opened ScriptCode
  import opened NameScript
  import opened ChainTypes
  import opened NameRules
  import opened Connect
  import opened Undo
  import opened TxLog
  import opened Owner
  import opened ScriptMachine
  import opened EvalScript
  import opened NamePrefix
  import opened Spending

  /** What transactions carry besides: the signature script of each input, and how signatures for
      that input are checked. */
  datatype Signing = Signing(scriptSig: (Tx, nat) -> Script, crypto: (Tx, nat) -> Crypto)

  /** What VerifySignature demands of input `n`. */
  predicate SignatureHolds(g: Signing, prev: Tx, tx: Tx, n: nat) {
    && n < |tx.vin| && tx.vin[n].n < |prev.vout| && tx.vin[n].hash == prev.txid
    && Verifies(g.crypto(tx, n), g.scriptSig(tx, n), prev.vout[tx.vin[n].n].scriptPubKey)
  }

  /** VerifySignature, without the cache. */
  method VerifySignature(g: Signing, txFrom: Tx, txTo: Tx, nIn: nat) returns (ok: bool)
    requires nIn < |txTo.vin|
    ensures ok == SignatureHolds(g, txFrom, txTo, nIn)
    ensures var o, c := txTo.vin[nIn], g.crypto(txTo, nIn);
            ok <==> o.hash == txFrom.txid && o.n < |txFrom.vout|
                    && Verifies(c, g.scriptSig(txTo, nIn), txFrom.vout[o.n].scriptPubKey)
  {
    var prevout := txTo.vin[nIn];
    if prevout.n >= |txFrom.vout| {
      return false;
    }
    if prevout.hash != txFrom.txid {
      return false;
    }
    ghost var nChecks;
    ok, nChecks := VerifyScript(g.crypto(txTo, nIn), g.scriptSig(txTo, nIn), txFrom.vout[prevout.n].scriptPubKey);
  }

  /** The oracle of the chain logic is this check. */
  ghost predicate VerifiesBy(env: Env, g: Signing) {
    forall prev, tx, n :: env.verify(prev, tx, n) == SignatureHolds(g, prev, tx, n)
  }

  predicate PastLockin(site: Site) {
    !(site.best < LockinHeight(site.env.testnet))
  }

  /** The same site with a check that always succeeds. */
  function Unchecked(site: Site): Site {
    site.(env := site.env.(verify := (_, _, _) => true))
  }

  /** Past the lock-in height an input spends a name output that pays to an address exactly when
      everything but the signature allows it and its signature script supplies a fitting signature
      and key. */
  lemma NameInputExact(site: Site, g: Signing, tx: Tx, i: nat, a: Inputs, op: NameOp, hash160: Bytes)
    requires VerifiesBy(site.env, g) && PastLockin(site) && i < |tx.vin|
    requires op.Pushable(MAX_ELEMENT_SIZE) && |hash160| <= MAX_ELEMENT_SIZE
    requires SpendInput(Unchecked(site), tx, i, a).Ok? ==>
               var r, prev := SpendInput(Unchecked(site), tx, i, a).value, site.env.disk[a.txs[tx.vin[i].hash].pos];
               prev.txid == tx.vin[i].hash && r.scripts == a.scripts + [Prefix(op) + AddressScript(hash160)]
    ensures SpendInput(site, tx, i, a).Ok? <==>
            && SpendInput(Unchecked(site), tx, i, a).Ok?
            && Supplies(g.crypto(tx, i), g.scriptSig(tx, i), MAX_STACK - 1 - |op.Args()|, hash160,
                        Prefix(op) + AddressScript(hash160))
  {
    hide RelativeDepth, Verifies, Supplies, Prefix, AddressScript, LockinHeight;
    NameOutputSpent(g.crypto(tx, i), op, g.scriptSig(tx, i), hash160);
    if SpendInput(Unchecked(site), tx, i, a).Ok? {
      var prev := site.env.disk[a.txs[tx.vin[i].hash].pos];
      LastOf(a.scripts, prev.vout[tx.vin[i].n].scriptPubKey, Prefix(op) + AddressScript(hash160));
      assert site.env.verify(prev, tx, i) == SignatureHolds(g, prev, tx, i);
    }
  }

  lemma LastOf(scripts: seq<Script>, s: Script, t: Script)
    requires scripts + [s] == scripts + [t]
    ensures s == t
  {
    assert (scripts + [s])[|scripts|] == (scripts + [t])[|scripts|];
  }

  /** Every input of a connected transaction has been verified. */
  lemma {:induction false} InputsVerified(site: Site, txs: map<Hash, TxIndex>, tx: Tx, i: nat, j: nat)
    requires j < i <= |tx.vin| && SpendInputs(site, txs, tx, i).Ok? && PastLockin(site)
    ensures var a := SpendInputs(site, txs, tx, i).value;
            && a.prevPos[j] in site.env.disk
            && var prev := site.env.disk[a.prevPos[j]];
               tx.vin[j].n < |prev.vout| && a.scripts[j] == prev.vout[tx.vin[j].n].scriptPubKey
               && site.env.verify(prev, tx, j)
    decreases i
  {
    hide RelativeDepth, LockinHeight;
    if j < i - 1 {
      hide SpendInputs;
      InputsGrow(site, txs, tx, i);
      InputsVerified(site, txs, tx, i - 1, j);
    }
  }

  /** The name outputs of the transaction at the back of a name's history pay to one address. */
  ghost predicate OwnedBy(names: map<Name, seq<NameIndex>>, log: seq<Logged>, name: Name, op: NameOp, hash160: Bytes) {
    forall k, i ::
      0 <= k < |log| && LastEntryIs(History(names, name), log[k].pos) && 0 <= i < |log[k].tx.vout|
      && IsNameScript(log[k].tx.vout[i].scriptPubKey) ==>
      log[k].tx.vout[i].scriptPubKey == Prefix(op) + AddressScript(hash160)
  }

  /** The transaction has an input whose signature script supplies a signature and a key that fit
      the name output. */
  ghost predicate SignedByOwner(g: Signing, tx: Tx, op: NameOp, hash160: Bytes) {
    exists j: nat :: j < |tx.vin| &&
      Supplies(g.crypto(tx, j), g.scriptSig(tx, j), MAX_STACK - 1 - |op.Args()|, hash160,
               Prefix(op) + AddressScript(hash160))
  }

  /** Past the fork, as long as a name has not expired, no transaction is recorded for it that does
      not supply a signature of the key to which its last output pays. */
  lemma UnexpiredNeedsKey(site: Site, g: Signing, c: Connected, tx: Tx, log: seq<Logged>, name: Name, op: NameOp,
                          hash160: Bytes)
    requires site.Valid() && RecordedName(site, c, tx) == Some(name) && PostLibcoinFork(site.env.testnet, site.Height())
    requires NameHeight(c.s.names, name) >= 0 && Unexpired(NameHeight(c.s.names, name), site.Height())
    requires IndexOf(c.s.txs, log) && FilesExact(site.env, log) && VerifiesBy(site.env, g) && PastLockin(site)
    requires op.Pushable(MAX_ELEMENT_SIZE) && |hash160| <= MAX_ELEMENT_SIZE
             && OwnedBy(c.s.names, log, name, op, hash160)
    ensures SignedByOwner(g, tx, op, hash160)
  {
    hide IndexOf, FilesExact, SpendInputs, NameDecision, Verifies, Supplies, Prefix, AddressScript, ParseNameScript,
         Unexpired, LastEntryIs, LockinHeight, IsNameScript;
    var a := SpendInputs(site, c.s.txs, tx, |tx.vin|).value;
    RecordingReplaces(site, c.s.names, tx, a, name);
    var j: nat :| j < |a.scripts| && IsNameScript(a.scripts[j]) && LastEntryIs(History(c.s.names, name), a.prevPos[j]);
    var k := SpentScript(site, c.s.txs, tx, |tx.vin|, j, log);
    assert a.scripts[j] == Prefix(op) + AddressScript(hash160);
    InputsVerified(site, c.s.txs, tx, |tx.vin|, j);
    var prev := site.env.disk[a.prevPos[j]];
    assert SignatureHolds(g, prev, tx, j);
    NameOutputSpent(g.crypto(tx, j), op, g.scriptSig(tx, j), hash160);
  }
}
