/** The scripts that carry name operations: a prefix of pushes and drops before an ordinary
    script (src/namecoin.cpp, src/script.h). */
module NamePrefix {
  import opened Common
  import opened ScriptCode
  import opened NameScript
  import opened ChainTypes
  import opened NameRules
  import opened Compact
  import opened ScriptMachine
  import opened Multisig
  import opened Conditionals
  import opened EvalScript

  datatype NameOp =
    | NameNew(hash: Bytes)
    | NameFirstUpdate(name: Bytes, rand: Bytes, value: Bytes)
    | NameUpdate(name: Bytes, value: Bytes)
  {
    function Number(): (n: byte)
      ensures 1 <= n <= 3
    {
      match this
      case NameNew(_) => OP_NAME_NEW
      case NameFirstUpdate(_, _, _) => OP_NAME_FIRSTUPDATE
      case NameUpdate(_, _) => OP_NAME_UPDATE
    }

    function Args(): (args: seq<Bytes>)
      ensures 1 <= |args| <= 3
    {
      match this
      case NameNew(hash) => [hash]
      case NameFirstUpdate(name, rand, value) => [name, rand, value]
      case NameUpdate(name, value) => [name, value]
    }

    /** The instructions that take number and arguments off the stack again. */
    function Drops(): Script {
      match this
      case NameNew(_) => [OP_2DROP]
      case NameFirstUpdate(_, _, _) => [OP_2DROP, OP_2DROP]
      case NameUpdate(_, _) => [OP_2DROP, OP_DROP]
    }

    predicate Pushable(limit: nat) {
      forall k :: 0 <= k < |Args()| ==> |Args()[k]| <= limit
    }
  }

  function Pushes(args: seq<Bytes>): Script {
    if args == [] then [] else PushData(args[0]) + Pushes(args[1..])
  }

  function Prefix(op: NameOp): Script {
    [OP_1 - 1 + op.Number()] + Pushes(op.Args()) + op.Drops()
  }

  // ----- decoding -----

  lemma {:induction false} ReadPushes(pre: Script, args: seq<Bytes>, tail: Script)
    requires forall k :: 0 <= k < |args| ==> |args[k]| < 0x1_0000_0000
    requires tail != [] && DropLike(tail[0])
    ensures ReadArgs(pre + Pushes(args) + tail, |pre|) == ArgsRead(args, true, |pre| + |Pushes(args)| + 1)
    decreases |args|
  {
    hide PushData, GetOp;
    var s := pre + Pushes(args) + tail;
    if args == [] {
      assert s == pre + [tail[0]] + tail[1..];
      GetOpReadsOpcode(pre, tail[0], tail[1..]);
    } else {
      var rest := Pushes(args[1..]) + tail;
      assert s == pre + PushData(args[0]) + rest;
      GetOpReadsPush(pre, args[0], rest);
      var longer := pre + PushData(args[0]);
      assert s == longer + Pushes(args[1..]) + tail;
      ReadPushes(longer, args[1..], tail);
      assert args == [args[0]] + args[1..];
    }
  }

  lemma FirstByte(s: Script)
    ensures var r := GetOp(s, 0);
            && (s == [] ==> r == NoOp(0))
            && (s != [] ==> r.pc >= 1 && (r.Op? ==> r.opcode == s[0]))
            && (s != [] && DropLike(s[0]) ==> r == Op(s[0], [], 1))
  {
  }

  lemma SkipOnce(pre: Script, tail: Script)
    requires pre != []
    ensures SkipDrops(pre + tail, |pre|) == if tail != [] && DropLike(tail[0]) then SkipDrops(pre + tail, |pre| + 1)
                                            else |pre| + GetOp(tail, 0).pc - 1
  {
    hide GetOp;
    FirstByte(tail);
    GetOpShift(pre, tail, 0);
  }

  /** Where decoding stops behind the drops of a name script. */
  lemma SkipToRest(pre: Script, rest: Script)
    requires pre != []
    ensures SkipDrops(pre + rest, |pre|) == |pre| <==> StartsPlainly(rest)
  {
    hide GetOp, SkipDrops;
    FirstByte(rest);
    SkipOnce(pre, rest);
    if rest != [] && DropLike(rest[0]) {
      var longer, tail := pre + [rest[0]], rest[1..];
      assert longer + tail == pre + rest;
      FirstByte(tail);
      SkipOnce(longer, tail);
      SkipBound(pre + rest, |longer| + 1);
    }
  }

  lemma SkipBound(s: Script, pc: nat)
    ensures 0 < pc <= |s| ==> SkipDrops(s, pc) >= pc - 1
  {
  }

  /** The rest starts with a byte that GetOp reads as one instruction on its own and that is
      not one of DROP, 2DROP and NOP, unless it is the whole rest. */
  predicate StartsPlainly(rest: Script) {
    GetOp(rest, 0).pc == 1 && (DropLike(rest[0]) ==> |rest| == 1)
  }

  /** Decoding the script built for an operation gives the operation and its arguments back,
      and leaves the iterator at the rest exactly when the rest starts plainly. */
  lemma BuiltScriptDecodes(op: NameOp, rest: Script)
    requires op.Pushable(0xffff_ffff)
    ensures var p := ParseNameScript(Prefix(op) + rest);
            && IsNameScript(Prefix(op) + rest)
            && p.op == Some(op.Number()) && p.args == op.Args()
            && (p.pc == |Prefix(op)| <==> StartsPlainly(rest))
  {
    hide StartsPlainly, Pushes, GetOp, SkipDrops, ReadArgs;
    var s := Prefix(op) + rest;
    var first: Script := [OP_1 - 1 + op.Number()];
    var drops := op.Drops();
    assert s == [] + first + (Pushes(op.Args()) + drops + rest);
    GetOpReadsOpcode([], first[0], Pushes(op.Args()) + drops + rest);
    assert s == first + Pushes(op.Args()) + (drops + rest);
    ReadPushes(first, op.Args(), drops + rest);
    if |drops| == 2 {
      var pre := first + Pushes(op.Args()) + [drops[0]];
      assert s == pre + ([drops[1]] + rest);
      SkipOnce(pre, [drops[1]] + rest);
    }
    SkipToRest(Prefix(op), rest);
  }

  /** CScript::SetBitcoinAddress */
  function AddressScript(hash160: Bytes): Script {
    [OP_DUP, OP_HASH160] + PushData(hash160) + [OP_EQUALVERIFY, OP_CHECKSIG]
  }

  /** An address script starts plainly. */
  lemma AddressStartsPlainly(hash160: Bytes)
    ensures StartsPlainly(AddressScript(hash160))
  {
    var s := AddressScript(hash160);
    assert s[0] == OP_DUP;
  }

  // ----- evaluation -----

  lemma RunStep(c: Crypto, s: Script, m: Machine, opcode: byte, data: Bytes, next: nat)
    requires s != [] && GetOp(s, 0) == Op(opcode, data, next)
    ensures next <= |s|
    ensures RunBytes(c, s, m, []) == match FlatStep(c, Instr(opcode, data, s[next..]), m, [])
                                     case Rejected => Rejected
                                     case Ok(f) => RunBytes(c, s[next..], f.m, f.vfExec)
  {
    hide FlatStep, GetOp;
  }

  /** Evaluating the argument pushes puts the arguments on the stack. */
  lemma {:induction false} RunPushes(c: Crypto, args: seq<Bytes>, tail: Script, m: Machine)
    requires forall k :: 0 <= k < |args| ==> |args[k]| <= MAX_ELEMENT_SIZE
    requires |m.stack| + |args| + |m.altstack| <= MAX_STACK
    ensures RunBytes(c, Pushes(args) + tail, m, []) == RunBytes(c, tail, m.(stack := m.stack + args), [])
    decreases |args|
  {
    hide RunBytes, PushData, GetOp;
    if args == [] {
      assert Pushes(args) + tail == tail && m.stack + args == m.stack;
    } else {
      var rest := Pushes(args[1..]) + tail;
      var s := [] + PushData(args[0]) + rest;
      assert s == Pushes(args) + tail;
      GetOpReadsPush([], args[0], rest);
      var r := GetOp(s, 0);
      PushDataNonEmpty(args[0]);
      RunStep(c, s, m, r.opcode, r.data, r.pc);
      assert s[r.pc..] == rest;
      PushEffect(c, Instr(r.opcode, args[0], rest), m);
      RunPushes(c, args[1..], tail, m.(stack := m.stack + [args[0]]));
      assert m.stack + [args[0]] + args[1..] == m.stack + args;
    }
  }

  lemma PushDataNonEmpty(b: Bytes)
    ensures PushData(b) != []
  {
  }

  lemma PushEffect(c: Crypto, i: Instr, m: Machine)
    requires i.opcode <= OP_PUSHDATA4 && |i.data| <= MAX_ELEMENT_SIZE && |m.stack| + |m.altstack| < MAX_STACK
    ensures FlatStep(c, i, m, []) == Ok(Flat(m.(stack := m.stack + [i.data]), []))
  {
  }

  lemma DropEffect(c: Crypto, i: Instr, m: Machine)
    requires i.opcode in {OP_DROP, OP_2DROP} && i.data == [] && m.nOpCount < MAX_OPS
    requires |m.stack| >= (if i.opcode == OP_DROP then 1 else 2) && |m.stack| + |m.altstack| <= MAX_STACK
    ensures FlatStep(c, i, m, []) ==
            Ok(Flat(m.(stack := Drop(m.stack, if i.opcode == OP_DROP then 1 else 2), nOpCount := m.nOpCount + 1), []))
  {
  }

  /** Evaluating the drops takes number and arguments off the stack again. */
  lemma RunDrop(c: Crypto, opcode: byte, tail: Script, m: Machine)
    requires opcode in {OP_DROP, OP_2DROP} && m.nOpCount < MAX_OPS
    requires |m.stack| >= (if opcode == OP_DROP then 1 else 2) && |m.stack| + |m.altstack| <= MAX_STACK
    ensures RunBytes(c, [opcode] + tail, m, []) ==
            RunBytes(c, tail,
                     m.(stack := Drop(m.stack, if opcode == OP_DROP then 1 else 2), nOpCount := m.nOpCount + 1), [])
  {
    hide RunBytes, GetOp, FlatStep;
    var s := [] + [opcode] + tail;
    assert s == [opcode] + tail && s[1..] == tail;
    GetOpReadsOpcode([], opcode, tail);
    RunStep(c, s, m, opcode, [], 1);
    DropEffect(c, Instr(opcode, [], tail), m);
  }

  lemma NumberEffect(c: Crypto, i: Instr, n: byte, m: Machine)
    requires 1 <= n <= 16 && i.opcode == OP_1 - 1 + n && i.data == [] && |m.stack| + |m.altstack| < MAX_STACK
    ensures FlatStep(c, i, m, []) == Ok(Flat(m.(stack := m.stack + [GetVch(n)]), []))
  {
    hide GetVch;
  }

  lemma RunNumber(c: Crypto, n: byte, tail: Script, m: Machine)
    requires 1 <= n <= 16 && |m.stack| + |m.altstack| < MAX_STACK
    ensures RunBytes(c, [OP_1 - 1 + n] + tail, m, []) == RunBytes(c, tail, m.(stack := m.stack + [GetVch(n)]), [])
  {
    hide RunBytes, GetOp, FlatStep, GetVch;
    var opcode: byte := OP_1 - 1 + n;
    var s := [] + [opcode] + tail;
    assert s == [opcode] + tail && s[1..] == tail;
    GetOpReadsOpcode([], opcode, tail);
    RunStep(c, s, m, opcode, [], 1);
    NumberEffect(c, Instr(opcode, [], tail), n, m);
  }

  /** Evaluating the prefix costs as many counted instructions as it has drops, and nothing
      else. */
  lemma RunPrefix(c: Crypto, op: NameOp, rest: Script, m: Machine)
    requires op.Pushable(MAX_ELEMENT_SIZE)
    requires |m.stack| + |m.altstack| + |op.Args()| + 1 <= MAX_STACK && m.nOpCount + |op.Drops()| <= MAX_OPS
    ensures RunBytes(c, Prefix(op) + rest, m, []) == RunBytes(c, rest, m.(nOpCount := m.nOpCount + |op.Drops()|), [])
  {
    hide RunBytes, Pushes, GetVch;
    var args, drops := op.Args(), op.Drops();
    assert Prefix(op) + rest == [OP_1 - 1 + op.Number()] + (Pushes(args) + (drops + rest));
    RunNumber(c, op.Number(), Pushes(args) + (drops + rest), m);
    var m1 := m.(stack := m.stack + [GetVch(op.Number())]);
    RunPushes(c, args, drops + rest, m1);
    var m2 := m1.(stack := m1.stack + args);
    assert drops + rest == [drops[0]] + (drops[1..] + rest);
    RunDrop(c, drops[0], drops[1..] + rest, m2);
    if |drops| == 1 {
      assert drops[1..] + rest == rest;
      assert Drop(m2.stack, 2) == m.stack;
    } else {
      var m3 := m2.(stack := Drop(m2.stack, 2), nOpCount := m2.nOpCount + 1);
      assert drops[1..] + rest == [drops[1]] + rest;
      RunDrop(c, drops[1], rest, m3);
      assert Drop(m3.stack, if drops[1] == OP_DROP then 1 else 2) == m.stack;
    }
  }

  // ----- instruction counts -----

  function Counted(m: Machine, k: nat): Machine {
    m.(nOpCount := m.nOpCount + k)
  }

  lemma MultisigShift(c: Crypto, verify: bool, m: Machine, k: nat)
    ensures var r, q := CheckMultisigOp(c, verify, m), CheckMultisigOp(c, verify, Counted(m, k));
            && (r.Ok? ==> r.value.nOpCount >= m.nOpCount)
            && (m.nOpCount + k <= MAX_OPS ==> (q.Ok? <==> r.Ok? && r.value.nOpCount + k <= MAX_OPS))
            && (q.Ok? ==> q.value == Counted(r.value, k))
  {
    hide CastToBool, WithoutSignatures, Conclude, CastToBigNum, Greedy, GreedyChecks;
  }

  lemma ExecuteShift(c: Crypto, i: Instr, m: Machine, k: nat)
    ensures var r, q := Execute(c, i, m), Execute(c, i, Counted(m, k));
            && (r.Ok? ==> r.value.nOpCount >= m.nOpCount)
            && (m.nOpCount + k <= MAX_OPS ==> (q.Ok? <==> r.Ok? && r.value.nOpCount + k <= MAX_OPS))
            && (q.Ok? ==> q.value == Counted(r.value, k))
  {
    hide CheckMultisigOp, Shuffle, PickOrRoll, Arithmetic, HashOp, GetVch, CastToBool, WithoutSignatures, Conclude,
         CastToBigNum;
    MultisigShift(c, i.opcode == OP_CHECKMULTISIGVERIFY, m, k);
  }

  lemma StepShift(c: Crypto, i: Instr, m: Machine, vfExec: seq<bool>, k: nat)
    requires m.nOpCount + k <= MAX_OPS
    ensures var r, q := FlatStep(c, i, m, vfExec), FlatStep(c, i, Counted(m, k), vfExec);
            && (r.Ok? ==> r.value.m.nOpCount >= m.nOpCount)
            && (q.Ok? <==> r.Ok? && r.value.m.nOpCount + k <= MAX_OPS)
            && (q.Ok? ==> q.value == Flat(Counted(r.value.m, k), r.value.vfExec))
  {
    hide Execute, Disabled, CastToBool, AllTrue;
    var n := if i.opcode <= OP_16 then m else m.(nOpCount := m.nOpCount + 1);
    ExecuteShift(c, i, n, k);
    assert Counted(n, k)
             == if i.opcode <= OP_16 then Counted(m, k) else Counted(m, k).(nOpCount := Counted(m, k).nOpCount + 1);
  }

  /** Starting with `k` instructions already counted makes a difference only when the limit is
      reached. */
  lemma {:induction false} RunShift(c: Crypto, s: Script, m: Machine, vfExec: seq<bool>, k: nat)
    requires m.nOpCount + k <= MAX_OPS
    ensures var r, q := RunBytes(c, s, m, vfExec), RunBytes(c, s, Counted(m, k), vfExec);
            && (r.Ok? ==> r.value.nOpCount >= m.nOpCount)
            && (q.Ok? <==> r.Ok? && r.value.nOpCount + k <= MAX_OPS)
            && (q.Ok? ==> q.value == Counted(r.value, k))
    decreases |s|
  {
    hide GetOp, FlatStep;
    if s != [] {
      match GetOp(s, 0) {
        case NoOp(_) =>
        case Op(opcode, data, next) =>
          var i := Instr(opcode, data, s[next..]);
          StepShift(c, i, m, vfExec, k);
          match FlatStep(c, i, m, vfExec) {
            case Rejected =>
            case Ok(f) =>
              if f.m.nOpCount + k <= MAX_OPS {
                RunShift(c, s[next..], f.m, f.vfExec, k);
              } else {
                CountGrows(c, s[next..], f.m, f.vfExec);
              }
          }
      }
    }
  }

  lemma {:induction false} CountGrows(c: Crypto, s: Script, m: Machine, vfExec: seq<bool>)
    ensures RunBytes(c, s, m, vfExec).Ok? ==> RunBytes(c, s, m, vfExec).value.nOpCount >= m.nOpCount
    decreases |s|
  {
    hide GetOp, FlatStep;
    if s != [] {
      match GetOp(s, 0) {
        case NoOp(_) =>
        case Op(opcode, data, next) =>
          var i := Instr(opcode, data, s[next..]);
          StepGrows(c, i, m, vfExec);
          var f := FlatStep(c, i, m, vfExec);
          if f.Ok? {
            CountGrows(c, s[next..], f.value.m, f.value.vfExec);
          }
      }
    }
  }

  lemma StepGrows(c: Crypto, i: Instr, m: Machine, vfExec: seq<bool>)
    ensures FlatStep(c, i, m, vfExec).Ok? ==> FlatStep(c, i, m, vfExec).value.m.nOpCount >= m.nOpCount
  {
    hide Execute, Disabled, CastToBool, AllTrue;
    ExecuteShift(c, i, if i.opcode <= OP_16 then m else m.(nOpCount := m.nOpCount + 1), 0);
  }

  /** A name prefix is transparent: with room in the limits, the script with the prefix is
      accepted exactly when the rest is, within as many fewer instructions as the prefix has
      drops, and it leaves the same stack.  The signatures in the rest sign the whole script,
      prefix included. */
  lemma PrefixTransparent(c: Crypto, op: NameOp, rest: Script, stack: Stack)
    requires op.Pushable(MAX_ELEMENT_SIZE) && |Prefix(op) + rest| <= MAX_SCRIPT_SIZE
    requires |stack| + |op.Args()| + 1 <= MAX_STACK
    ensures var whole := Prefix(op) + rest;
            var k := |op.Drops()|;
            var r, q := RunBytes(c, rest, Start(stack, whole), []), Evaluate(c, stack, whole);
            && (q.Ok? <==> r.Ok? && r.value.nOpCount + k <= MAX_OPS)
            && (q.Ok? ==> q.value == Counted(r.value, k))
  {
    var whole := Prefix(op) + rest;
    hide RunBytes, Prefix;
    RunPrefix(c, op, rest, Start(stack, whole));
    RunShift(c, rest, Start(stack, whole), [], |op.Drops()|);
  }

  // ----- the operation DecodeNameTx reports -----

  /** The operation found by scanning a transaction's outputs is the last one written, which
      need not be that of the name output: an output that merely starts with a small number,
      and is no name script, overwrites it. */
  lemma OperationIsLastWritten(rand: Bytes, name: Bytes, value: Bytes)
    requires |rand| <= 0xffff_ffff && |name| <= 0xffff_ffff && |value| <= 0xffff_ffff
    ensures var op := NameFirstUpdate(name, rand, value);
            var a := ScanScripts(true, [Prefix(op), [OP_1]], 2);
            a.found && !a.multiple && a.index == 0 && a.args == op.Args() && a.op == OP_NAME_NEW
  {
    var op := NameFirstUpdate(name, rand, value);
    var scripts := [Prefix(op), [OP_1]];
    BuiltScriptDecodes(op, []);
    assert Prefix(op) + [] == scripts[0];
    hide Prefix;
    SingleNumber();
    assert ScanScripts(true, scripts, 0) == Scan(false, false, 0, 0, []);
    assert ScanScripts(true, scripts, 1) == ScanStep(true, Scan(false, false, 0, 0, []), scripts[0], 0);
  }

  lemma SingleNumber()
    ensures ParseNameScript([OP_1]) == NameParse(Some(1), [], false, 1)
  {
  }
}
