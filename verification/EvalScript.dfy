/** Evaluating a script (src/script.cpp). */
module EvalScript {
  import opened Common
  import opened ScriptCode
  import opened Compact
  import opened ScriptMachine
  import opened Multisig
  import opened Conditionals

  /** All instructions of a script, or None if one of them cannot be read. */
  function Decode(s: Script): Option<seq<Instr>>
    decreases |s|
  {
    if s == [] then Some([])
    else
      match GetOp(s, 0)
      case NoOp(_) => None
      case Op(opcode, data, next) =>
        match Decode(s[next..])
        case None => None
        case Some(code) => Some([Instr(opcode, data, s[next..])] + code)
  }

  /** The evaluation loop with the rest `s` of the script before it. */
  function RunBytes(c: Crypto, s: Script, m: Machine, vfExec: seq<bool>): Outcome<Machine>
    decreases |s|
  {
    if s == [] then
      if vfExec == [] then Ok(m) else Rejected
    else
      match GetOp(s, 0)
      case NoOp(_) => Rejected
      case Op(opcode, data, next) =>
        var f :- FlatStep(c, Instr(opcode, data, s[next..]), m, vfExec);
        RunBytes(c, s[next..], f.m, f.vfExec)
  }

  /** Reading as it goes comes to the same as reading the script first. */
  lemma {:induction false} RunBytesIsRun(c: Crypto, s: Script, m: Machine, vfExec: seq<bool>)
    ensures RunBytes(c, s, m, vfExec) == match Decode(s)
                                         case None => Rejected
                                         case Some(code) => Run(c, code, m, vfExec)
    decreases |s|
  {
    hide FlatStep, GetOp;
    if s != [] {
      match GetOp(s, 0) {
        case NoOp(_) =>
        case Op(opcode, data, next) =>
          var step := FlatStep(c, Instr(opcode, data, s[next..]), m, vfExec);
          RunBytesIsRun(c, s[next..], if step.Ok? then step.value.m else m,
                        if step.Ok? then step.value.vfExec else vfExec);
      }
    }
  }

  function Start(stack: Stack, script: Script): Machine {
    Machine(stack, [], 0, script, 0)
  }

  function Evaluate(c: Crypto, stack: Stack, script: Script): Outcome<Machine> {
    if |script| > MAX_SCRIPT_SIZE then Rejected else RunBytes(c, script, Start(stack, script), [])
  }

  /** Evaluation is the recursive interpretation of a script that can be read and is balanced. */
  lemma EvaluateIsNested(c: Crypto, stack: Stack, script: Script)
    ensures Evaluate(c, stack, script) ==
            if |script| > MAX_SCRIPT_SIZE || Decode(script) == None then Rejected
            else NestedRun(c, Decode(script).value, Start(stack, script))
  {
    hide RunBytes, Run, NestedRun, Decode;
    RunBytesIsRun(c, script, Start(stack, script), []);
    if Decode(script).Some? {
      FlatIsNested(c, Decode(script).value, Start(stack, script));
    }
  }

  // ----- the loop -----

  /** OP_CHECKMULTISIG and OP_CHECKMULTISIGVERIFY. */
  method CheckMultisigInPlace(c: Crypto, verify: bool, m: Machine) returns (ok: bool, n: Machine)
    ensures var r := CheckMultisigOp(c, verify, m);
            ok == r.Ok? && (ok ==> n == r.value)
    ensures n.nChecks - m.nChecks <= (if m.nOpCount <= MAX_OPS then MAX_OPS - m.nOpCount else 0)
    ensures ok ==> n.nOpCount <= MAX_OPS && n.nChecks - m.nChecks <= n.nOpCount - m.nOpCount
  {
    hide Greedy, GreedyChecks, ReadMultisig, CastToBool;
    n := m;
    match ReadMultisig(m.stack, m.nOpCount) {
      case Rejected => ok := false;
      case Ok(a) =>
        var scriptCode := WithoutSignatures(m.code, a.sigs);
        var fSuccess, nChecks := MatchSignatures(SigCheckIn(c, scriptCode), a.sigs, a.keys);
        n := n.(nOpCount := m.nOpCount + |a.keys|, nChecks := m.nChecks + nChecks,
                stack := Drop(m.stack, a.used) + [Truth(fSuccess)]);
        ok := true;
        if verify {
          ok := CastToBool(Truth(fSuccess));
          if ok {
            n := n.(stack := Drop(n.stack, 1));
          }
          assert (Drop(m.stack, a.used) + [Truth(fSuccess)])[..|m.stack| - a.used] == Drop(m.stack, a.used);
        }
    }
  }

  /** An executed instruction other than the conditionals; `n` counts the signature checks even
      when it fails. */
  method ExecuteInPlace(c: Crypto, i: Instr, m: Machine) returns (ok: bool, n: Machine)
    requires m.nChecks < m.nOpCount <= MAX_OPS || (i.opcode <= OP_16 && m.nChecks <= m.nOpCount <= MAX_OPS)
    ensures var r := Execute(c, i, m);
            ok == r.Ok? && (ok ==> n == r.value)
    ensures n.nChecks <= MAX_OPS
    ensures ok ==> n.nChecks <= n.nOpCount <= MAX_OPS
  {
    hide CheckMultisigOp, WithoutSignatures, Shuffle, PickOrRoll, Arithmetic, HashOp, GetVch, CastToBool;
    n := m;
    if i.opcode == OP_CHECKMULTISIG || i.opcode == OP_CHECKMULTISIGVERIFY {
      ok, n := CheckMultisigInPlace(c, i.opcode == OP_CHECKMULTISIGVERIFY, m);
    } else if i.opcode == OP_CHECKSIG || i.opcode == OP_CHECKSIGVERIFY {
      if |m.stack| < 2 {
        return false, n;
      }
      var vchSig, vchPubKey := Top(m.stack, 2), Top(m.stack, 1);
      var fSuccess := c.checkSig(vchSig, vchPubKey, WithoutSignatures(m.code, [vchSig]));
      n := n.(nChecks := n.nChecks + 1, stack := Drop(m.stack, 2));
      if i.opcode == OP_CHECKSIG || !CastToBool(Truth(fSuccess)) {
        n := n.(stack := n.stack + [Truth(fSuccess)]);
      }
      ok := i.opcode == OP_CHECKSIG || CastToBool(Truth(fSuccess));
    } else {
      match Execute(c, i, m) {
        case Rejected => ok := false;
        case Ok(r) => ok, n := true, r;
      }
    }
  }

  /** One round of the loop. */
  method StepInPlace(c: Crypto, i: Instr, m: Machine, vfExec: seq<bool>) returns (ok: bool, n: Machine, vf: seq<bool>)
    requires m.nChecks <= m.nOpCount <= MAX_OPS
    ensures var r := FlatStep(c, i, m, vfExec);
            ok == r.Ok? && (ok ==> n == r.value.m && vf == r.value.vfExec)
    ensures n.nChecks <= MAX_OPS
    ensures ok ==> n.nChecks <= n.nOpCount <= MAX_OPS
  {
    hide Execute, Disabled, CastToBool;
    n, vf := m, vfExec;
    var fExec := AllTrue(vfExec);
    if |i.data| > MAX_ELEMENT_SIZE {
      return false, n, vf;
    }
    if i.opcode > OP_16 {
      n := n.(nOpCount := n.nOpCount + 1);
      if n.nOpCount > MAX_OPS {
        return false, n, vf;
      }
    }
    if Disabled(i.opcode) {
      return false, n, vf;
    }
    if fExec || OP_IF <= i.opcode <= OP_ENDIF {
      if i.opcode == OP_IF || i.opcode == OP_NOTIF {
        var fValue := false;
        if fExec {
          if |n.stack| < 1 {
            return false, n, vf;
          }
          fValue := CastToBool(Top(n.stack, 1));
          if i.opcode == OP_NOTIF {
            fValue := !fValue;
          }
          n := n.(stack := Drop(n.stack, 1));
        }
        vf := vf + [fValue];
      } else if i.opcode == OP_ELSE || i.opcode == OP_ENDIF {
        if vf == [] {
          return false, n, vf;
        }
        vf := if i.opcode == OP_ELSE then vf[|vf| - 1 := !vf[|vf| - 1]] else vf[..|vf| - 1];
      } else if fExec {
        ok, n := ExecuteInPlace(c, i, n);
        if !ok {
          return;
        }
      } else {
        return false, n, vf;
      }
    }
    ok := |n.stack| + |n.altstack| <= MAX_STACK;
  }

  /** EvalScript.  Whatever the script, it makes at most 201 signature checks. */
  method EvalScript(c: Crypto, stack: Stack, script: Script) returns (ok: bool, m: Machine)
    ensures ok == Evaluate(c, stack, script).Ok? && (ok ==> m == Evaluate(c, stack, script).value)
    ensures m.nChecks <= 201
  {
    hide FlatStep, GetOp;
    m := Start(stack, script);
    if |script| > MAX_SCRIPT_SIZE {
      return false, m;
    }
    var vfExec: seq<bool> := [];
    var pc: nat := 0;
    assert script[0..] == script;
    while pc < |script|
      invariant pc <= |script| && m.nChecks <= m.nOpCount <= MAX_OPS
      invariant RunBytes(c, script[pc..], m, vfExec) == RunBytes(c, script, Start(stack, script), [])
      decreases |script| - pc
    {
      assert script[..pc] + script[pc..] == script;
      GetOpShift(script[..pc], script[pc..], 0);
      match GetOp(script, pc) {
        case NoOp(_) => return false, m;
        case Op(opcode, vchPushValue, next) =>
          assert script[pc..][next - pc..] == script[next..];
          ok, m, vfExec := StepInPlace(c, Instr(opcode, vchPushValue, script[next..]), m, vfExec);
          if !ok {
            return;
          }
          pc := next;
      }
    }
    ok := vfExec == [];
  }

  // ----- both scripts of an input -----

  /** Evaluation by the recursive interpreter. */
  function NestedEvaluate(c: Crypto, stack: Stack, script: Script): Outcome<Machine> {
    if |script| > MAX_SCRIPT_SIZE || Decode(script) == None then Rejected
    else NestedRun(c, Decode(script).value, Start(stack, script))
  }

  /** The public-key script, run on what the signature script leaves, ends with a number other
      than zero on top. */
  predicate Verifies(c: Crypto, scriptSig: Script, scriptPubKey: Script) {
    var m := NestedEvaluate(c, [], scriptSig);
    && m.Ok?
    && var n := NestedEvaluate(c, m.value.stack, scriptPubKey);
       n.Ok? && n.value.stack != [] && SetVch(Top(n.value.stack, 1)) != 0
  }

  /** VerifyScript.  The two flat loops decide as the recursive interpreter does, and together
      make at most 402 signature checks. */
  method VerifyScript(c: Crypto, scriptSig: Script, scriptPubKey: Script) returns (ok: bool, ghost nChecks: nat)
    ensures ok == Verifies(c, scriptSig, scriptPubKey)
    ensures nChecks <= 402
  {
    hide Evaluate, NestedRun, Decode, SetVch, CastToBool;
    EvaluateIsNested(c, [], scriptSig);
    var m, n;
    ok, m := EvalScript(c, [], scriptSig);
    nChecks := m.nChecks;
    if !ok {
      return;
    }
    EvaluateIsNested(c, m.stack, scriptPubKey);
    ok, n := EvalScript(c, m.stack, scriptPubKey);
    nChecks := nChecks + n.nChecks;
    if !ok || n.stack == [] {
      return false, nChecks;
    }
    TruthIsNonzero(n.stack[|n.stack| - 1]);
    ok := CastToBool(n.stack[|n.stack| - 1]);
  }
}
