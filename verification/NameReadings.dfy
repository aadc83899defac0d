/** When the rules before and after the fork read a transaction alike (src/namecoin.cpp). */
module NameReadings {
  import opened Common
  import opened ScriptCode
  import opened NameScript
  import opened ChainTypes
  import opened NameRules
  import opened Connect
  import opened Undo
  import opened TxLog
  import opened Owner
  import opened NameValues
  import NameDecisions
  import Rescan

  // ----- the old rule, script by script -----

  /** The arguments that the first `n` scripts leave behind, decoded or not. */
  function ArgsLeft(scripts: seq<Script>, n: nat): seq<Bytes>
    requires n <= |scripts|
  {
    if n == 0 then [] else ArgsLeft(scripts, n - 1) + ParseNameScript(scripts[n - 1]).args
  }

  /** The script decodes by the old rule: with all arguments left behind before it. */
  predicate OldDecodes(scripts: seq<Script>, i: nat)
    requires i < |scripts|
  {
    var p := ParseNameScript(scripts[i]);
    p.complete && ValidArity(p.op.GetOr(0), |ArgsLeft(scripts, i + 1)|)
  }

  lemma OldStep(scripts: seq<Script>, a: Scan, i: nat)
    requires i < |scripts| && !a.multiple && a.args == ArgsLeft(scripts, i)
    ensures var b, op := ScanStep(false, a, scripts[i], i), ParseNameScript(scripts[i]).op.GetOr(a.op);
            if OldDecodes(scripts, i) then
              (if a.found then b.multiple && b.found else b == Scan(true, false, i, op, ArgsLeft(scripts, i + 1)))
            else b == a.(op := op, args := ArgsLeft(scripts, i + 1))
  {
    CompleteHasOperation(scripts[i]);
    hide ParseNameScript;
  }

  /** The old rule is exact about which scripts decode by it. */
  lemma {:induction false} OldScanExact(scripts: seq<Script>, n: nat)
    requires n <= |scripts|
    ensures var a := ScanScripts(false, scripts, n);
            && (!a.multiple ==> a.args == ArgsLeft(scripts, n))
            && (!a.found ==> forall i :: 0 <= i < n ==> !OldDecodes(scripts, i))
            && (a.found && !a.multiple ==> forall i :: 0 <= i < n ==> (OldDecodes(scripts, i) <==> i == a.index))
            && (a.multiple ==> exists i, j :: 0 <= i < j < n && OldDecodes(scripts, i) && OldDecodes(scripts, j))
  {
    hide ParseNameScript, OldDecodes;
    if n > 0 {
      OldScanExact(scripts, n - 1);
      var a := ScanScripts(false, scripts, n - 1);
      if !a.multiple {
        OldStep(scripts, a, n - 1);
        hide ScanStep;
        if a.found && OldDecodes(scripts, n - 1) {
          assert OldDecodes(scripts, a.index);
        }
      }
    }
  }

  lemma {:induction false} FirstArgLeft(scripts: seq<Script>, i: nat, n: nat)
    requires i < n <= |scripts| && OldDecodes(scripts, i)
    ensures ArgsLeft(scripts, i + 1) != [] && ArgsLeft(scripts, n) != []
    ensures ArgsLeft(scripts, n)[0] == ArgsLeft(scripts, i + 1)[0]
    decreases n
  {
    hide ParseNameScript;
    if i + 1 < n {
      FirstArgLeft(scripts, i, n - 1);
    }
  }

  /** What is opened or updated, by the arguments of an operation. */
  predicate OpensOrUpdates(hash160: Bytes -> Bytes, d: NameTx, prevArgs: seq<Bytes>)
    requires ArgsCover(d)
  {
    && prevArgs != []
    && (d.op == 2 ==> NameDecisions.Committed(prevArgs[0]) == hash160(d.args[1] + d.args[0]))
    && (d.op == 3 ==> prevArgs[0] == d.args[0])
  }

  /** What the rescan asks of a transaction before the fork: one of the spent outputs that it can read,
      and no other, decodes by the old rule, and what it carries is the commitment opened, or the name
      updated. */
  lemma WorkaroundExact(src: Rescan.Source, tx: Tx, pos: DiskTxPos)
    ensures Rescan.NameBugWorkaround(src, tx) == Some(pos) <==>
              var spent, d := Rescan.ReadPrevOutputs(src, tx, |tx.vin|), DecodeNameTx(tx, false);
              && d.good && ArgsCover(d)
              && exists i ::
                   && 0 <= i < |spent.scripts| && spent.positions[i] == pos && OldDecodes(spent.scripts, i)
                   && (forall j :: 0 <= j < |spent.scripts| && OldDecodes(spent.scripts, j) ==> j == i)
                   && OpensOrUpdates(src.hash160, d, ArgsLeft(spent.scripts, i + 1))
  {
    var spent, d := Rescan.ReadPrevOutputs(src, tx, |tx.vin|), DecodeNameTx(tx, false);
    var n := |spent.scripts|;
    OldScanExact(spent.scripts, n);
    var a := ScanScripts(false, spent.scripts, n);
    hide ScanScripts, OldDecodes, ParseNameScript, Rescan.ReadPrevOutputs, DecodeNameTx;
    if d.good && ArgsCover(d) && a.found && !a.multiple {
      FirstArgLeft(spent.scripts, a.index, n);
      if d.op == 2 {
        NameDecisions.CommitmentExact(src.hash160, a.args[0], d.args[1], d.args[0]);
      }
    }
  }

  /** A name script decodes by the old rule exactly when no script before it leaves arguments. */
  lemma PartialArgsHide(scripts: seq<Script>, i: nat)
    requires i < |scripts| && IsNameScript(scripts[i])
    ensures OldDecodes(scripts, i) <==> ArgsLeft(scripts, i) == []
  {
    hide ParseNameScript;
    assert |ArgsLeft(scripts, i + 1)| == |ArgsLeft(scripts, i)| + |ParseNameScript(scripts[i]).args|;
  }

  /** Both rules keep the operation written last. */
  lemma {:induction false} SameOperation(scripts: seq<Script>, n: nat)
    requires n <= |scripts| && !ScanScripts(true, scripts, n).multiple && !ScanScripts(false, scripts, n).multiple
    ensures ScanScripts(true, scripts, n).op == ScanScripts(false, scripts, n).op
  {
    hide ParseNameScript;
    if n > 0 {
      SameOperation(scripts, n - 1);
    }
  }

  // ----- one output for both rules -----

  /** Output `i` carries the only script that decodes by either rule. */
  ghost predicate OnlyScript(scripts: seq<Script>, i: nat) {
    && i < |scripts| && IsNameScript(scripts[i]) && OldDecodes(scripts, i)
    && forall j :: 0 <= j < |scripts| && j != i ==> !IsNameScript(scripts[j]) && !OldDecodes(scripts, j)
  }

  /** The rules find one output, and the same one, exactly when some script is the only one. */
  lemma SameOutput(scripts: seq<Script>)
    ensures var a, b := ScanScripts(true, scripts, |scripts|), ScanScripts(false, scripts, |scripts|);
            (a.found && !a.multiple && b.found && !b.multiple && a.index == b.index) <==>
              exists i :: OnlyScript(scripts, i)
  {
    hide ParseNameScript, OldDecodes, IsNameScript, ScanScripts;
    StrictScanExact(scripts, |scripts|);
    OldScanExact(scripts, |scripts|);
    var a, b := ScanScripts(true, scripts, |scripts|), ScanScripts(false, scripts, |scripts|);
    if a.found && !a.multiple && b.found && !b.multiple && a.index == b.index {
      assert OnlyScript(scripts, a.index);
    }
    if i: nat :| OnlyScript(scripts, i) {
      assert IsNameScript(scripts[i]) && OldDecodes(scripts, i);
    }
  }

  lemma {:induction false} ArgsLeftPrefix(scripts: seq<Script>, m: nat, n: nat)
    requires m <= n <= |scripts|
    ensures ArgsLeft(scripts, m) <= ArgsLeft(scripts, n)
    decreases n
  {
    if m < n {
      ArgsLeftPrefix(scripts, m, n - 1);
    }
  }

  /** A transaction that both rules read at one output, and the new rule as a registration. */
  ghost predicate ReadAlike(tx: Tx) {
    Readable(tx, true) && exists i :: OnlyScript(Scripts(tx.vout), i)
  }

  /** It has the same value by both rules. */
  lemma AlikeSameValue(tx: Tx)
    requires ReadAlike(tx)
    ensures ReadValue(tx, true) == ReadValue(tx, false)
  {
    hide ParseNameScript, OldDecodes, ScanScripts, OnlyScript;
    var scripts := Scripts(tx.vout);
    SameOutput(scripts);
    StrictScanExact(scripts, |scripts|);
    OldScanExact(scripts, |scripts|);
    SameOperation(scripts, |scripts|);
    var a, b := ScanScripts(true, scripts, |scripts|), ScanScripts(false, scripts, |scripts|);
    OnlyArgs(scripts, a.index);
    ArgsLeftPrefix(scripts, a.index + 1, |scripts|);
    assert a.args <= b.args;
  }

  lemma OnlyArgs(scripts: seq<Script>, i: nat)
    requires exists j :: OnlyScript(scripts, j)
    requires i < |scripts| && IsNameScript(scripts[i])
    ensures ArgsLeft(scripts, i + 1) == ParseNameScript(scripts[i]).args
  {
    hide ParseNameScript;
    var j :| OnlyScript(scripts, j);
    assert i == j;
    PartialArgsHide(scripts, i);
  }

  /** Otherwise a registration by the new rule is missed by the old one, or found at another
      output. */
  lemma OtherwiseElsewhere(tx: Tx)
    requires Readable(tx, true) && !ReadAlike(tx)
    ensures var d, e := DecodeNameTx(tx, true), DecodeNameTx(tx, false); !e.good || e.nOut != d.nOut
    ensures var i := DecodeNameTx(tx, true).nOut;
            ArgsLeft(Scripts(tx.vout), i) != []
            || exists j :: 0 <= j < |tx.vout| && j != i && OldDecodes(Scripts(tx.vout), j)
  {
    hide ParseNameScript, OldDecodes, ScanScripts, IsNameScript, ReadValue;
    var scripts := Scripts(tx.vout);
    SameOutput(scripts);
    StrictScanExact(scripts, |scripts|);
    var i := DecodeNameTx(tx, true).nOut;
    assert IsNameScript(scripts[i]);
    PartialArgsHide(scripts, i);
    assert !OnlyScript(scripts, i);
  }

  // ----- over a branch -----

  /** The block was connected while the best block was on the other side of the fork. */
  predicate Straddles(testnet: bool, sites: seq<Site>, height: nat) {
    RuleUsed(testnet, sites, height) != PostLibcoinFork(testnet, height)
  }

  /** Only recorded transactions whose connection straddles the fork matter for the values, and
      among them only those that the two rules do not read alike. */
  lemma OnlyStraddlersMatter(testnet: bool, sites: seq<Site>, log: seq<Logged>, names: map<Name, seq<NameIndex>>)
    ensures SameValueByBothRules(testnet, sites, log, names) <==>
            forall k ::
              0 <= k < |log| && !Unrecorded(names, log[k].pos) && Straddles(testnet, sites, log[k].height)
              && !ReadAlike(log[k].tx) ==>
              ReadValue(log[k].tx, true) == ReadValue(log[k].tx, false)
  {
    hide ReadValue, ReadAlike, Unrecorded, RuleUsed, PostLibcoinFork;
    forall k | 0 <= k < |log| && ReadAlike(log[k].tx)
      ensures ReadValue(log[k].tx, true) == ReadValue(log[k].tx, false)
    {
      AlikeSameValue(log[k].tx);
    }
  }

  /** When every block is connected on top of the best chain, only the first block past the fork
      straddles it. */
  lemma InOrderStraddles(testnet: bool, sites: seq<Site>, height: nat)
    requires 1 <= height <= |sites| && sites[height - 1].best == height - 1
    ensures Straddles(testnet, sites, height) <==> height == if testnet then 108000 else BUG_WORKAROUND_BLOCK
  {
  }
}
