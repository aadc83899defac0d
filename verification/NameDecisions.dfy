/** What the name hook decides, said of the operations that outputs carry (src/namecoin.cpp). */
module NameDecisions {
  import opened Common
  import opened ScriptCode
  import opened NameScript
  import opened ChainTypes
  import opened NameRules
  import opened Connect
  import opened NamePrefix

  // ----- scanning scripts of which at most one carries an operation -----

  /** The script does not start with a small number. */
  predicate Quiet(s: Script) {
    ParseNameScript(s).op == None
  }

  ghost predicate AllQuiet(scripts: seq<Script>) {
    forall i :: 0 <= i < |scripts| ==> Quiet(scripts[i])
  }

  /** Script `n` carries the operation, and no other starts like one. */
  ghost predicate Alone(scripts: seq<Script>, n: nat, op: NameOp) {
    && n < |scripts| && op.Pushable(0xffff_ffff) && Carries(scripts[n], op)
    && forall i :: 0 <= i < |scripts| && i != n ==> Quiet(scripts[i])
  }

  ghost predicate Carries(s: Script, op: NameOp) {
    exists rest :: s == Prefix(op) + rest
  }

  lemma QuietStep(strict: bool, a: Scan, s: Script, i: nat)
    requires Quiet(s)
    ensures ScanStep(strict, a, s, i) == a
  {
  }

  lemma {:induction false} ScanQuiet(strict: bool, scripts: seq<Script>, n: nat)
    requires n <= |scripts| && AllQuiet(scripts[..n])
    ensures ScanScripts(strict, scripts, n) == Scan(false, false, 0, 0, [])
  {
    hide ScanStep, Quiet;
    if n > 0 {
      assert scripts[..n][..n - 1] == scripts[..n - 1] && scripts[..n][n - 1] == scripts[n - 1];
      ScanQuiet(strict, scripts, n - 1);
      QuietStep(strict, ScanScripts(strict, scripts, n - 1), scripts[n - 1], n - 1);
    }
  }

  lemma CarrierStep(strict: bool, s: Script, i: nat, op: NameOp)
    requires op.Pushable(0xffff_ffff) && Carries(s, op)
    ensures IsNameScript(s) && ParseNameScript(s).op == Some(op.Number()) && ParseNameScript(s).args == op.Args()
    ensures ScanStep(strict, Scan(false, false, 0, 0, []), s, i) == Scan(true, false, i, op.Number(), op.Args())
  {
    var rest :| s == Prefix(op) + rest;
    BuiltScriptDecodes(op, rest);
    hide ParseNameScript, Prefix;
  }

  /** By either rule the scan finds the operation, with its own arguments. */
  lemma {:induction false} ScanAlone(strict: bool, scripts: seq<Script>, n: nat, op: NameOp, k: nat)
    requires Alone(scripts, n, op) && n < k <= |scripts|
    ensures ScanScripts(strict, scripts, k) == Scan(true, false, n, op.Number(), op.Args())
    decreases k
  {
    hide ScanStep, Quiet, Carries;
    if k == n + 1 {
      ScanQuiet(strict, scripts, n);
      CarrierStep(strict, scripts[n], n, op);
    } else {
      ScanAlone(strict, scripts, n, op, k - 1);
      QuietStep(strict, ScanScripts(strict, scripts, k - 1), scripts[k - 1], k - 1);
    }
  }

  lemma QuietIsNoName(s: Script)
    requires Quiet(s)
    ensures !IsNameScript(s)
  {
  }

  // ----- transactions -----

  /** A name transaction whose only name output, number `n`, carries the operation. */
  ghost predicate NameTxOf(tx: Tx, n: nat, op: NameOp) {
    tx.nVersion == 0x7100 && Alone(Scripts(tx.vout), n, op)
  }

  lemma NameTxDecodes(tx: Tx, n: nat, op: NameOp, strict: bool)
    requires NameTxOf(tx, n, op)
    ensures tx.IsName() && DecodeNameTx(tx, strict) == NameTx(true, op.Number(), n, op.Args())
  {
    hide ScanScripts, Alone;
    AloneBound(Scripts(tx.vout), n, op);
    ScanAlone(strict, Scripts(tx.vout), n, op, |tx.vout|);
  }

  lemma AloneBound(scripts: seq<Script>, n: nat, op: NameOp)
    requires Alone(scripts, n, op)
    ensures n < |scripts|
  {
  }

  /** The outputs spent carry one operation, `op`, in input `x`. */
  ghost predicate SpendsOp(a: Inputs, x: nat, op: NameOp) {
    |a.scripts| == |a.prevPos| && Alone(a.scripts, x, op)
  }

  /** The first argument of the commitment as the hook reads it: 20 bytes, or zero. */
  function Committed(hash: Bytes): Bytes {
    if |hash| == 20 then hash else [0, 0, 0, 0, 0, 0, 0, 0, 0, 0, 0, 0, 0, 0, 0, 0, 0, 0, 0, 0]
  }

  lemma CommitmentExact(hash160: Bytes -> Bytes, hash: Bytes, rand: Bytes, name: Name)
    ensures CommitmentMatches(hash160, hash, rand, name) <==> Committed(hash) == hash160(rand + name)
  {
    assert Uint160(hash) == Committed(hash);
  }

  /** The last entry of the name is at most 36000 blocks old: shorter before block 48000. */
  predicate Taken(names: map<Name, seq<NameIndex>>, name: Name, height: int) {
    var h := History(names, name);
    h != [] && (if height < 24000 then height < h[|h| - 1].nHeight + 12000
                else if height < 48000 then h[|h| - 1].nHeight > 12000
                else height < h[|h| - 1].nHeight + 36000)
  }

  /** The rules became strict at block 150000, on the test network at 108000. */
  predicate Strict(testnet: bool, height: int) {
    height >= if testnet then 108000 else 150000
  }

  /** From block 212500 on, on the test network from 108000 on, a name output carries a cent. */
  predicate Carried(site: Site, tx: Tx, n: nat)
    requires site.Valid() && n < |tx.vout|
  {
    site.Height() >= (if site.env.testnet then 108000 else 212500) ==> tx.vout[n].nValue >= 1000000
  }

  lemma ScriptsLength(tx: Tx)
    ensures |Scripts(tx.vout)| == |tx.vout|
  {
  }

  /** A name_firstupdate is accepted exactly when it pays the network fee, keeps to the sizes, claims
      a name that is not taken, and spends a name_new at least twelve blocks deep, which past the fork
      must commit to the random value followed by the name.  It is recorded exactly when it opens the
      commitment. */
  lemma FirstUpdateExact(site: Site, names: map<Name, seq<NameIndex>>, tx: Tx, a: Inputs, n: nat, x: nat,
                         prev: NameOp, name: Name, rand: Bytes, value: Bytes)
    requires site.Valid() && NameTxOf(tx, n, NameFirstUpdate(name, rand, value)) && SpendsOp(a, x, prev)
    ensures n < |tx.vout| && x < |a.prevPos|
    ensures NameDecision(site, names, tx, a).Ok? <==>
              && prev.NameNew? && |name| <= 255 && |rand| <= 20 && |value| <= 1023 && Carried(site, tx, n)
              && NameNetFee(tx.vout) >= NetworkFee(site.env.testnet, site.Height())
              && !Taken(names, name, site.Height())
              && RelativeDepth(site.path, a.prevPos[x], 12) < 0
              && (Strict(site.env.testnet, site.Height()) ==> Committed(prev.hash) == site.env.hash160(rand + name))
    ensures NameDecision(site, names, tx, a).Ok? ==>
              NameDecision(site, names, tx, a)
                == Ok(if Committed(prev.hash) == site.env.hash160(rand + name) then Some(name) else None)
  {
    hide ScanScripts, DecodeNameTx, RelativeDepth, NetworkFee, NameNetFee, HasNameOutput, CommitmentMatches, Committed,
         Alone;
    var strict := PostLibcoinFork(site.env.testnet, site.Height());
    ScriptsLength(tx);
    AloneBound(Scripts(tx.vout), n, NameFirstUpdate(name, rand, value));
    AloneBound(a.scripts, x, prev);
    NameTxDecodes(tx, n, NameFirstUpdate(name, rand, value), strict);
    ScanAlone(strict, a.scripts, x, prev, |a.scripts|);
    if prev.NameNew? {
      CommitmentExact(site.env.hash160, prev.hash, rand, name);
    }
  }

  /** A name_update is accepted exactly when it keeps to the sizes, and spends a registration that is
      still within its 36000 blocks; past the fork this must be the last one of the same name.  It is
      recorded exactly when it is. */
  lemma UpdateExact(site: Site, names: map<Name, seq<NameIndex>>, tx: Tx, a: Inputs, n: nat, x: nat,
                    prev: NameOp, name: Name, value: Bytes)
    requires site.Valid() && NameTxOf(tx, n, NameUpdate(name, value)) && SpendsOp(a, x, prev)
    ensures n < |tx.vout| && x < |a.prevPos|
    ensures var continues := prev.Args()[0] == name && LastEntryIs(History(names, name), a.prevPos[x]);
            && (NameDecision(site, names, tx, a).Ok? <==>
                  && !prev.NameNew? && |name| <= 255 && |value| <= 1023 && Carried(site, tx, n)
                  && RelativeDepth(site.path, a.prevPos[x], ExpirationDepth(site.Height())) >= 0
                  && (Strict(site.env.testnet, site.Height()) ==> continues))
            && (NameDecision(site, names, tx, a).Ok? ==>
                  NameDecision(site, names, tx, a) == Ok(if continues then Some(name) else None))
  {
    hide ScanScripts, DecodeNameTx, RelativeDepth, ExpirationDepth, HasNameOutput, Alone, LastEntryIs;
    var strict := PostLibcoinFork(site.env.testnet, site.Height());
    ScriptsLength(tx);
    AloneBound(Scripts(tx.vout), n, NameUpdate(name, value));
    AloneBound(a.scripts, x, prev);
    NameTxDecodes(tx, n, NameUpdate(name, value), strict);
    ScanAlone(strict, a.scripts, x, prev, |a.scripts|);
  }

  /** A name_new is accepted exactly when it commits with 20 bytes and spends no name output; it is
      never recorded. */
  lemma NewExact(site: Site, names: map<Name, seq<NameIndex>>, tx: Tx, a: Inputs, n: nat, hash: Bytes)
    requires site.Valid() && NameTxOf(tx, n, NameNew(hash)) && |a.scripts| == |a.prevPos|
    requires AllQuiet(a.scripts) || exists x, prev :: SpendsOp(a, x, prev)
    ensures n < |tx.vout|
    ensures NameDecision(site, names, tx, a)
              == if AllQuiet(a.scripts) && |hash| == 20 && Carried(site, tx, n) then Ok(None) else Rejected
  {
    hide ScanScripts, DecodeNameTx, HasNameOutput, Alone, AllQuiet, Quiet;
    var strict := PostLibcoinFork(site.env.testnet, site.Height());
    ScriptsLength(tx);
    AloneBound(Scripts(tx.vout), n, NameNew(hash));
    NameTxDecodes(tx, n, NameNew(hash), strict);
    InputsQuietOrNot(strict, a);
  }

  lemma InputsQuietOrNot(strict: bool, a: Inputs)
    requires |a.scripts| == |a.prevPos|
    requires AllQuiet(a.scripts) || exists x, prev :: SpendsOp(a, x, prev)
    ensures ScanScripts(strict, a.scripts, |a.scripts|).found <==> !AllQuiet(a.scripts)
    ensures !ScanScripts(strict, a.scripts, |a.scripts|).multiple
  {
    if AllQuiet(a.scripts) {
      assert a.scripts[..|a.scripts|] == a.scripts;
      ScanQuiet(strict, a.scripts, |a.scripts|);
    } else {
      var x, prev :| SpendsOp(a, x, prev);
      ScanAlone(strict, a.scripts, x, prev, |a.scripts|);
    }
  }

  /** Any other transaction is accepted exactly when it spends no name output, and has none either
      from block 212500 on (on the test network from 108000 on). */
  lemma OrdinaryExact(site: Site, names: map<Name, seq<NameIndex>>, tx: Tx, a: Inputs)
    requires site.Valid() && tx.nVersion != 0x7100 && |a.scripts| == |a.prevPos|
    requires AllQuiet(a.scripts) || exists x, prev :: SpendsOp(a, x, prev)
    ensures NameDecision(site, names, tx, a)
              == if AllQuiet(a.scripts)
                    && (site.Height() >= (if site.env.testnet then 108000 else 212500) ==>
                          forall i :: 0 <= i < |tx.vout| ==> !IsNameScript(tx.vout[i].scriptPubKey))
                 then Ok(None) else Rejected
  {
    hide ScanScripts, DecodeNameTx, AllQuiet, IsNameScript;
    InputsQuietOrNot(PostLibcoinFork(site.env.testnet, site.Height()), a);
  }
}
