/** Where OP_CHECKMULTISIG finds keys and signatures, and who can spend an output for several keys
    (src/script.cpp). */
module MultisigSpending {
  import opened Common
  import opened ScriptCode
  import opened Compact
  import opened Multisig
  import opened ScriptMachine
  import opened Conditionals
  import opened EvalScript
  import opened NamePrefix
  import opened Spending
  import opened Instructions

  // ----- reading from the top or from the bottom -----

  function Mirrored(f: seq<nat>, n: nat): (g: seq<nat>)
    requires forall i :: 0 <= i < |f| ==> f[i] < n
    ensures |g| == |f| && forall i :: 0 <= i < |f| ==> g[i] == n - 1 - f[|f| - 1 - i]
  {
    seq(|f|, i requires 0 <= i < |f| => n - 1 - f[|f| - 1 - i])
  }

  lemma MirroredMatches(check: SigCheck, sigs: seq<Bytes>, keys: seq<Bytes>, f: seq<nat>)
    requires Matching(check, Reverse(sigs), Reverse(keys), f)
    ensures Matching(check, sigs, keys, Mirrored(f, |keys|))
  {
    var g := Mirrored(f, |keys|);
    forall i | 0 <= i < |g| ensures g[i] < |keys| && check(sigs[i], keys[g[i]]) {
      var j := |f| - 1 - i;
      assert check(Reverse(sigs)[j], Reverse(keys)[f[j]]);
    }
  }

  /** A matching of the reversed lists is one of the lists. */
  lemma ReversedMatchable(check: SigCheck, sigs: seq<Bytes>, keys: seq<Bytes>)
    ensures Matchable(check, Reverse(sigs), Reverse(keys)) <==> Matchable(check, sigs, keys)
  {
    if Matchable(check, Reverse(sigs), Reverse(keys)) {
      var f: seq<nat> :| Matching(check, Reverse(sigs), Reverse(keys), f);
      MirroredMatches(check, sigs, keys, f);
    }
    if Matchable(check, sigs, keys) {
      var f: seq<nat> :| Matching(check, sigs, keys, f);
      assert Reverse(Reverse(sigs)) == sigs && Reverse(Reverse(keys)) == keys;
      MirroredMatches(check, Reverse(sigs), Reverse(keys), f);
    }
  }

  // ----- the instruction -----

  /** What OP_CHECKMULTISIG takes off the stack: an extra element, the signatures, their number, the
      keys, and their number. */
  function MultisigStack(dummy: Bytes, sigs: seq<Bytes>, keys: seq<Bytes>): Stack {
    [dummy] + sigs + [GetVch(|sigs|)] + keys + [GetVch(|keys|)]
  }

  lemma SmallCount(n: nat)
    requires n <= 20
    ensures CastToBigNum(GetVch(n)) == Ok(n)
  {
    VchRoundTrip(n);
    if n == 0 {
      assert MpiLimit(0) == 1;
    } else {
      SmallNumber(n);
    }
  }

  lemma ReadFrom(base: Stack, dummy: Bytes, sigs: seq<Bytes>, keys: seq<Bytes>, nOpCount: nat)
    requires |sigs| <= |keys| <= 20 && nOpCount + |keys| <= 201
    ensures var stack := base + MultisigStack(dummy, sigs, keys);
            && ReadMultisig(stack, nOpCount) == Ok(MultisigArgs(Reverse(keys), Reverse(sigs), 3 + |keys| + |sigs|))
            && Drop(stack, 3 + |keys| + |sigs|) == base
  {
    hide GetVch, CastToBigNum;
    SmallCount(|sigs|);
    SmallCount(|keys|);
    var args := MultisigStack(dummy, sigs, keys);
    Tops(base, args);
    assert args[|args| - 1] == GetVch(|keys|) && args[|args| - 2 - |keys|] == GetVch(|sigs|);
    assert Elements(base + args, 2, |keys|) == Reverse(keys);
    assert Elements(base + args, 3 + |keys|, |sigs|) == Reverse(sigs);
  }

  /** An order-preserving injection of the signatures into the keys verifies every pair, over the code
      without those signatures. */
  ghost predicate SignedBy(c: Crypto, code: Script, sigs: seq<Bytes>, keys: seq<Bytes>) {
    exists f: seq<nat> ::
      && |f| == |sigs| && (forall i :: 0 <= i < |f| ==> f[i] < |keys|)
      && (forall i :: 0 <= i < |f| ==> c.checkSig(sigs[i], keys[f[i]], WithoutSignatures(code, Reverse(sigs))))
      && (forall i, j :: 0 <= i < j < |f| ==> f[i] < f[j])
  }

  lemma SignedMatches(c: Crypto, code: Script, sigs: seq<Bytes>, keys: seq<Bytes>)
    ensures SignedBy(c, code, sigs, keys) <==>
              Matchable(SigCheckIn(c, WithoutSignatures(code, Reverse(sigs))), sigs, keys)
  {
    var check := SigCheckIn(c, WithoutSignatures(code, Reverse(sigs)));
    if SignedBy(c, code, sigs, keys) {
      var f: seq<nat> :|
        && |f| == |sigs| && (forall i :: 0 <= i < |f| ==> f[i] < |keys|)
        && (forall i :: 0 <= i < |f| ==> c.checkSig(sigs[i], keys[f[i]], WithoutSignatures(code, Reverse(sigs))))
        && (forall i, j :: 0 <= i < j < |f| ==> f[i] < f[j]);
      assert Matching(check, sigs, keys, f);
    }
    if Matchable(check, sigs, keys) {
      var f: seq<nat> :| Matching(check, sigs, keys, f);
    }
  }

  /** The signatures are erased from the code one after the other, the last one on the stack first. */
  lemma ErasedInTurn(code: Script, sigs: seq<Bytes>, sig: Bytes)
    ensures WithoutSignatures(code, []) == code
    ensures WithoutSignatures(code, Reverse(sigs + [sig]))
              == WithoutSignatures(FindAndDelete(code, PushData(sig)), Reverse(sigs))
  {
    hide FindAndDelete, PushData;
    var r := Reverse(sigs + [sig]);
    assert r[0] == sig && r[1..] == Reverse(sigs);
  }

  lemma MultisigExecutes(c: Crypto, m: Machine, tail: Script)
    ensures Execute(c, Instr(174, [], tail), m) == CheckMultisigOp(c, false, m)
    ensures Execute(c, Instr(175, [], tail), m) == CheckMultisigOp(c, true, m)
  {
    hide CheckMultisigOp;
  }

  lemma MultisigOpFrom(c: Crypto, verify: bool, m: Machine, a: MultisigArgs, base: Stack, signed: bool)
    requires ReadMultisig(m.stack, m.nOpCount) == Ok(a) && Drop(m.stack, a.used) == base
    requires Greedy(SigCheckIn(c, WithoutSignatures(m.code, a.sigs)), a.sigs, a.keys) == signed
    ensures var r := CheckMultisigOp(c, verify, m);
            && (r.Ok? <==> !verify || signed)
            && (r.Ok? ==> r.value.altstack == m.altstack && r.value.code == m.code
                          && r.value.nOpCount == m.nOpCount + |a.keys|
                          && r.value.stack == (if verify then base else base + [if signed then [1] else []]))
  {
    hide ReadMultisig, WithoutSignatures, Greedy, GreedyChecks, Drop;
  }

  /** CHECKMULTISIG leaves true exactly when the signatures, in their order, are signatures of keys in
      theirs; CHECKMULTISIGVERIFY goes on exactly then. */
  lemma MultisigInstructions(c: Crypto, m: Machine, base: Stack, dummy: Bytes, sigs: seq<Bytes>, keys: seq<Bytes>,
                             tail: Script)
    requires |sigs| <= |keys| <= 20 && m.nOpCount + |keys| <= 201
    ensures var before := m.(stack := base + MultisigStack(dummy, sigs, keys));
            var r, s := Execute(c, Instr(174, [], tail), before), Execute(c, Instr(175, [], tail), before);
            && r.Ok? && r.value.stack == base + [if SignedBy(c, m.code, sigs, keys) then [1] else []]
            && r.value.altstack == m.altstack && r.value.code == m.code && r.value.nOpCount == m.nOpCount + |keys|
            && (s.Ok? <==> SignedBy(c, m.code, sigs, keys))
            && (s.Ok? ==> s.value.stack == base && s.value.altstack == m.altstack && s.value.code == m.code
                          && s.value.nOpCount == m.nOpCount + |keys|)
  {
    hide Execute, CheckMultisigOp, ReadMultisig, MultisigStack, WithoutSignatures, SignedBy, Greedy, Drop, Matchable;
    ReadFrom(base, dummy, sigs, keys, m.nOpCount);
    SignedMatches(c, m.code, sigs, keys);
    var check := SigCheckIn(c, WithoutSignatures(m.code, Reverse(sigs)));
    ReversedMatchable(check, sigs, keys);
    GreedyExact(check, Reverse(sigs), Reverse(keys));
    var before := m.(stack := base + MultisigStack(dummy, sigs, keys));
    var a := MultisigArgs(Reverse(keys), Reverse(sigs), 3 + |keys| + |sigs|);
    MultisigExecutes(c, before, tail);
    MultisigOpFrom(c, false, before, a, base, SignedBy(c, m.code, sigs, keys));
    MultisigOpFrom(c, true, before, a, base, SignedBy(c, m.code, sigs, keys));
  }

  /** Too few elements, or a wrong number of keys or signatures, fail. */
  lemma MultisigRefuses(c: Crypto, m: Machine, base: Stack, sigCount: int, keys: seq<Bytes>, keyCount: int,
                        tail: Script)
    requires |GetVch(keyCount)| <= 4 && |GetVch(sigCount)| <= 4
    ensures keyCount < 0 || keyCount > 20 || m.nOpCount + keyCount > 201 || |base| < keyCount + 1 ==>
              Execute(c, Instr(174, [], tail), m.(stack := base + [GetVch(keyCount)])).Rejected?
    ensures (sigCount < 0 || sigCount > |keys| || |base| < sigCount + 1) && |keys| <= 20 ==>
              Execute(c, Instr(174, [], tail),
                      m.(stack := base + [GetVch(sigCount)] + keys + [GetVch(|keys|)])).Rejected?
  {
    hide Execute, GetVch, Greedy, WithoutSignatures;
    VchRoundTrip(keyCount);
    VchRoundTrip(sigCount);
    MultisigExecutes(c, m.(stack := base + [GetVch(keyCount)]), tail);
    var stack := base + [GetVch(sigCount)] + keys + [GetVch(|keys|)];
    MultisigExecutes(c, m.(stack := stack), tail);
    if |keys| <= 20 {
      SmallCount(|keys|);
      assert Top(stack, 1) == GetVch(|keys|) && Top(stack, 2 + |keys|) == GetVch(sigCount);
    }
    assert Top(base + [GetVch(keyCount)], 1) == GetVch(keyCount);
  }

  // ----- an output for several keys -----

  /** `need` of the keys: number, keys, their number, CHECKMULTISIG. */
  function MultisigScript(need: byte, keys: seq<Bytes>): Script
    requires 1 <= need <= |keys| <= 16
  {
    [80 + need] + Pushes(keys) + [80 + |keys|] + [174]
  }

  /** The signature script leaves room for the script, and below the signatures one more element; its
      top `need` elements are signatures, in their order, of keys in theirs. */
  ghost predicate SuppliesMultisig(c: Crypto, scriptSig: Script, need: byte, keys: seq<Bytes>)
    requires 1 <= need <= |keys| <= 16
  {
    var m := NestedEvaluate(c, [], scriptSig);
    && m.Ok? && need + 1 <= |m.value.stack| <= 998 - |keys|
    && SignedBy(c, MultisigScript(need, keys), m.value.stack[|m.value.stack| - need..], keys)
  }

  lemma FinalMultisig(c: Crypto, m: Machine, stack: Stack, need: byte, keys: seq<Bytes>)
    requires 1 <= need <= |keys| <= 16 && m.nOpCount == 0 && m.altstack == [] && |stack| + 2 + |keys| <= 1000
    requires m.stack == stack + [GetVch(need)] + keys + [GetVch(|keys|)]
    ensures var r := RunBytes(c, [174], m, []);
            if |stack| < need + 1 then r.Rejected?
            else var base, sigs := stack[..|stack| - need - 1], stack[|stack| - need..];
                 r.Ok? && r.value.stack == base + [if SignedBy(c, m.code, sigs, keys) then [1] else []]
  {
    hide RunBytes, Execute, GetVch, SignedBy;
    var counted := m.(nOpCount := 1);
    assert [174] + [] == [174];
    RunOpcode(c, 174, [], m);
    SmallNumber(need);
    SmallNumber(|keys|);
    if |stack| < need + 1 {
      SmallNumber(1);
      MultisigRefuses(c, counted, stack, need, keys, 1, []);
      assert counted.(stack := stack + [GetVch(need)] + keys + [GetVch(|keys|)]) == counted;
    } else {
      var base, dummy, sigs := stack[..|stack| - need - 1], stack[|stack| - need - 1], stack[|stack| - need..];
      assert base + MultisigStack(dummy, sigs, keys) == m.stack;
      MultisigInstructions(c, counted, base, dummy, sigs, keys, []);
      assert counted.(stack := base + MultisigStack(dummy, sigs, keys)) == counted;
      var n := Execute(c, Instr(174, [], []), counted).value;
      RunNothing(c, n);
    }
  }

  /** The script on any stack with room for it. */
  lemma RunMultisig(c: Crypto, stack: Stack, need: byte, keys: seq<Bytes>)
    requires 1 <= need <= |keys| <= 16 && (forall k :: 0 <= k < |keys| ==> |keys[k]| <= 520)
    requires |stack| <= 1000
    ensures var script := MultisigScript(need, keys);
            var r := RunBytes(c, script, Start(stack, script), []);
            if |stack| < need + 1 || |stack| > 998 - |keys| then r.Rejected?
            else var base, sigs := stack[..|stack| - need - 1], stack[|stack| - need..];
                 r.Ok? && r.value.stack == base + [if SignedBy(c, script, sigs, keys) then [1] else []]
  {
    hide RunBytes, GetVch, SignedBy, Pushes;
    var script := MultisigScript(need, keys);
    var m := Start(stack, script);
    assert script == [OP_1 - 1 + need] + (Pushes(keys) + ([OP_1 - 1 + |keys|] + [174]));
    if |stack| >= 1000 {
      NumberOverflows(c, need, Pushes(keys) + ([OP_1 - 1 + |keys|] + [174]), m);
    } else {
      RunNumber(c, need, Pushes(keys) + ([OP_1 - 1 + |keys|] + [174]), m);
      var m1 := m.(stack := stack + [GetVch(need)]);
      if |stack| + 1 + |keys| > 1000 {
        PushesOverflow(c, keys, [OP_1 - 1 + |keys|] + [174], m1);
      } else {
        RunPushes(c, keys, [OP_1 - 1 + |keys|] + [174], m1);
        var m2 := m.(stack := stack + [GetVch(need)] + keys);
        if |stack| + 1 + |keys| >= 1000 {
          NumberOverflows(c, |keys|, [174], m2);
        } else {
          RunNumber(c, |keys|, [174], m2);
          FinalMultisig(c, m.(stack := stack + [GetVch(need)] + keys + [GetVch(|keys|)]), stack, need, keys);
        }
      }
    }
  }

  lemma MultisigScriptSize(need: byte, keys: seq<Bytes>)
    requires 1 <= need <= |keys| <= 16 && (forall k :: 0 <= k < |keys| ==> |keys[k]| <= 520)
    ensures |MultisigScript(need, keys)| <= 10000
  {
    hide Pushes;
    PushesSize(keys);
  }

  lemma EvaluatedStack(c: Crypto, scriptSig: Script)
    ensures NestedEvaluate(c, [], scriptSig).Ok? ==> |NestedEvaluate(c, [], scriptSig).value.stack| <= 1000
  {
    EvaluateNested(c, [], scriptSig);
    StackStaysLow(c, scriptSig, Start([], scriptSig), []);
    hide RunBytes;
  }

  lemma {:induction false} StackStaysLow(c: Crypto, s: Script, m: Machine, vfExec: seq<bool>)
    requires |m.stack| + |m.altstack| <= 1000
    ensures RunBytes(c, s, m, vfExec).Ok? ==> |RunBytes(c, s, m, vfExec).value.stack| <= 1000
    decreases |s|
  {
    hide FlatEffect, Count, GetOp;
    if s != [] && GetOp(s, 0).Op? {
      var r := GetOp(s, 0);
      var f := FlatStep(c, Instr(r.opcode, r.data, s[r.pc..]), m, vfExec);
      if f.Ok? {
        StackStaysLow(c, s[r.pc..], f.value.m, f.value.vfExec);
      }
    }
  }

  /** Whatever the signature script does, an output that asks for `need` of several keys is spent
      exactly when it leaves that many signatures by keys of the list, in the order of the list, on top
      of one extra element. */
  lemma MultisigSpent(c: Crypto, scriptSig: Script, need: byte, keys: seq<Bytes>)
    requires 1 <= need <= |keys| <= 16 && (forall k :: 0 <= k < |keys| ==> |keys[k]| <= 520)
    ensures Verifies(c, scriptSig, MultisigScript(need, keys)) <==> SuppliesMultisig(c, scriptSig, need, keys)
  {
    hide RunBytes, NestedRun, Decode, NestedEvaluate, MultisigScript, SignedBy, SetVch;
    var script := MultisigScript(need, keys);
    MultisigScriptSize(need, keys);
    EvaluatedStack(c, scriptSig);
    var m := NestedEvaluate(c, [], scriptSig);
    if m.Ok? {
      EvaluateNested(c, m.value.stack, script);
      RunMultisig(c, m.value.stack, need, keys);
      TruthOfBool();
    }
  }
}
