/** Who can spend an output that pays to an address, with or without a name prefix
    (src/script.cpp, src/script.h, src/namecoin.cpp). */
module Spending {
  import opened Common
  import opened ScriptCode
  import opened Compact
  import opened ScriptMachine
  import opened Conditionals
  import opened EvalScript
  import opened NamePrefix

  /** What a signer puts into the input that spends such an output. */
  function SpendScript(sig: Bytes, key: Bytes): Script {
    PushData(sig) + PushData(key)
  }

  // ----- one instruction at a time -----

  lemma OpcodeStep(c: Crypto, i: Instr, m: Machine)
    requires i.opcode > OP_16 && i.data == [] && !Disabled(i.opcode) && !(OP_IF <= i.opcode <= OP_ENDIF)
             && m.nOpCount < MAX_OPS
    ensures FlatStep(c, i, m, []) ==
            match Execute(c, i, m.(nOpCount := m.nOpCount + 1))
            case Rejected => Rejected
            case Ok(n) => if |n.stack| + |n.altstack| > MAX_STACK then Rejected else Ok(Flat(n, []))
  {
    hide Execute, Disabled;
  }

  lemma RunOpcode(c: Crypto, opcode: byte, tail: Script, m: Machine)
    requires opcode > OP_16 && !Disabled(opcode) && !(OP_IF <= opcode <= OP_ENDIF) && m.nOpCount < MAX_OPS
    ensures RunBytes(c, [opcode] + tail, m, []) ==
            match Execute(c, Instr(opcode, [], tail), m.(nOpCount := m.nOpCount + 1))
            case Rejected => Rejected
            case Ok(n) => if |n.stack| + |n.altstack| > MAX_STACK then Rejected else RunBytes(c, tail, n, [])
  {
    hide RunBytes, GetOp, Execute, Disabled, FlatStep;
    var s := [] + [opcode] + tail;
    assert s == [opcode] + tail && s[1..] == tail;
    GetOpReadsOpcode([], opcode, tail);
    RunStep(c, s, m, opcode, [], 1);
    OpcodeStep(c, Instr(opcode, [], tail), m);
  }

  lemma RunPush(c: Crypto, data: Bytes, tail: Script, m: Machine)
    requires |data| <= MAX_ELEMENT_SIZE && |m.stack| + |m.altstack| < MAX_STACK
    ensures RunBytes(c, PushData(data) + tail, m, []) == RunBytes(c, tail, m.(stack := m.stack + [data]), [])
  {
    hide RunBytes, PushData;
    assert Pushes([data]) == PushData(data) + Pushes([]) == PushData(data);
    RunPushes(c, [data], tail, m);
  }

  /** The signed code of an input: the whole public-key script without pushes of the signature. */
  function SignedCode(script: Script, sig: Bytes): Script {
    FindAndDelete(script, PushData(sig))
  }

  lemma OneSignature(code: Script, sig: Bytes)
    ensures WithoutSignatures(code, [sig]) == SignedCode(code, sig)
  {
    assert [sig][1..] == [];
  }

  /** A push or a number that finds both stacks full is refused. */
  lemma PushOverflows(c: Crypto, data: Bytes, tail: Script, m: Machine)
    requires |data| <= MAX_ELEMENT_SIZE && |m.stack| + |m.altstack| >= MAX_STACK
    ensures RunBytes(c, PushData(data) + tail, m, []).Rejected?
  {
    hide RunBytes, PushData, GetOp;
    var s := [] + PushData(data) + tail;
    assert s == PushData(data) + tail;
    GetOpReadsPush([], data, tail);
    var r := GetOp(s, 0);
    PushDataNonEmpty(data);
    RunStep(c, s, m, r.opcode, r.data, r.pc);
    FullStackRefuses(c, Instr(r.opcode, r.data, s[r.pc..]), m);
  }

  lemma NumberOverflows(c: Crypto, n: byte, tail: Script, m: Machine)
    requires 1 <= n <= 16 && |m.stack| + |m.altstack| >= MAX_STACK
    ensures RunBytes(c, [OP_1 - 1 + n] + tail, m, []).Rejected?
  {
    hide RunBytes, GetOp;
    var opcode: byte := OP_1 - 1 + n;
    var s := [] + [opcode] + tail;
    assert s == [opcode] + tail;
    GetOpReadsOpcode([], opcode, tail);
    RunStep(c, s, m, opcode, [], 1);
    FullStackRefuses(c, Instr(opcode, [], s[1..]), m);
  }

  lemma FullStackRefuses(c: Crypto, i: Instr, m: Machine)
    requires i.opcode <= OP_PUSHDATA4 || OP_1 <= i.opcode <= OP_16
    requires |m.stack| + |m.altstack| >= MAX_STACK
    ensures FlatStep(c, i, m, []).Rejected?
  {
    hide GetVch;
  }

  lemma {:induction false} PushesOverflow(c: Crypto, args: seq<Bytes>, tail: Script, m: Machine)
    requires forall k :: 0 <= k < |args| ==> |args[k]| <= MAX_ELEMENT_SIZE
    requires |m.stack| + |m.altstack| <= MAX_STACK < |m.stack| + |args| + |m.altstack|
    ensures RunBytes(c, Pushes(args) + tail, m, []).Rejected?
    decreases |args|
  {
    hide RunBytes, PushData;
    assert Pushes(args) + tail == PushData(args[0]) + (Pushes(args[1..]) + tail);
    if |m.stack| + |m.altstack| == MAX_STACK {
      PushOverflows(c, args[0], Pushes(args[1..]) + tail, m);
    } else {
      RunPush(c, args[0], Pushes(args[1..]) + tail, m);
      PushesOverflow(c, args[1..], tail, m.(stack := m.stack + [args[0]]));
    }
  }

  /** Without room for number and arguments a name script is refused. */
  lemma PrefixOverflows(c: Crypto, op: NameOp, rest: Script, m: Machine)
    requires op.Pushable(MAX_ELEMENT_SIZE) && |m.stack| + |m.altstack| + |op.Args()| + 1 > MAX_STACK
    ensures RunBytes(c, Prefix(op) + rest, m, []).Rejected?
  {
    hide RunBytes, Pushes, GetVch;
    var tail := Pushes(op.Args()) + (op.Drops() + rest);
    assert Prefix(op) + rest == [OP_1 - 1 + op.Number()] + tail;
    if |m.stack| + |m.altstack| >= MAX_STACK {
      NumberOverflows(c, op.Number(), tail, m);
    } else {
      RunNumber(c, op.Number(), tail, m);
      PushesOverflow(c, op.Args(), op.Drops() + rest, m.(stack := m.stack + [GetVch(op.Number())]));
    }
  }

  // ----- address scripts -----

  lemma RunEqualVerify(c: Crypto, x: Bytes, y: Bytes, tail: Script, m: Machine)
    requires m.nOpCount < MAX_OPS && |m.stack| + |m.altstack| <= MAX_STACK
    ensures RunBytes(c, [OP_EQUALVERIFY] + tail, m.(stack := m.stack + [x] + [y]), []) ==
            if x == y then RunBytes(c, tail, m.(nOpCount := m.nOpCount + 1), []) else Rejected
  {
    hide RunBytes;
    var n := m.(stack := m.stack + [x] + [y]);
    RunOpcode(c, OP_EQUALVERIFY, tail, n);
    assert Drop(n.stack, 2) == m.stack && Top(n.stack, 2) == x && Top(n.stack, 1) == y;
    assert CastToBool([1]) && !CastToBool([]);
  }

  lemma CheckKeyHash(c: Crypto, hash160: Bytes, tail: Script, m: Machine)
    requires m.stack != [] && m.nOpCount + 3 <= MAX_OPS && |hash160| <= MAX_ELEMENT_SIZE
    requires |m.stack| + |m.altstack| + 2 <= MAX_STACK
    ensures RunBytes(c, [OP_DUP, OP_HASH160] + PushData(hash160) + ([OP_EQUALVERIFY] + tail), m, []) ==
            if c.hash160(Top(m.stack, 1)) == hash160 then
              RunBytes(c, tail, m.(nOpCount := m.nOpCount + 3), [])
            else Rejected
  {
    hide RunBytes, PushData, WithoutSignatures;
    var key := Top(m.stack, 1);
    var rest := PushData(hash160) + ([OP_EQUALVERIFY] + tail);
    assert [OP_DUP, OP_HASH160] + PushData(hash160) + ([OP_EQUALVERIFY] + tail) == [OP_DUP] + ([OP_HASH160] + rest);
    RunOpcode(c, OP_DUP, [OP_HASH160] + rest, m);
    var m1 := m.(stack := m.stack + [key], nOpCount := m.nOpCount + 1);
    RunOpcode(c, OP_HASH160, rest, m1);
    assert Drop(m1.stack, 1) == m.stack;
    hide Execute;
    var m2 := m.(stack := m.stack + [c.hash160(key)], nOpCount := m.nOpCount + 2);
    RunPush(c, hash160, [OP_EQUALVERIFY] + tail, m2);
    RunEqualVerify(c, c.hash160(key), hash160, tail, m.(nOpCount := m.nOpCount + 2));
  }

  /** Without two more places on the stacks, or without anything on the stack, the test of the key
      is refused. */
  lemma KeyHashRefused(c: Crypto, hash160: Bytes, tail: Script, m: Machine)
    requires m.nOpCount + 3 <= MAX_OPS && |hash160| <= MAX_ELEMENT_SIZE
    requires m.stack == [] || |m.stack| + |m.altstack| + 2 > MAX_STACK
    ensures RunBytes(c, [OP_DUP, OP_HASH160] + PushData(hash160) + tail, m, []).Rejected?
  {
    hide RunBytes, PushData, WithoutSignatures;
    var rest := PushData(hash160) + tail;
    assert [OP_DUP, OP_HASH160] + PushData(hash160) + tail == [OP_DUP] + ([OP_HASH160] + rest);
    RunOpcode(c, OP_DUP, [OP_HASH160] + rest, m);
    if m.stack != [] && |m.stack| + |m.altstack| + 1 <= MAX_STACK {
      var m1 := m.(stack := m.stack + [Top(m.stack, 1)], nOpCount := m.nOpCount + 1);
      RunOpcode(c, OP_HASH160, rest, m1);
      assert Drop(m1.stack, 1) == m.stack;
      PushOverflows(c, hash160, tail, m.(stack := m.stack + [c.hash160(Top(m.stack, 1))], nOpCount := m.nOpCount + 2));
    }
  }

  /** Signature and key are the two upper elements of the stack, and there is room for the test. */
  predicate Offers(c: Crypto, hash160: Bytes, m: Machine) {
    |m.stack| >= 2 && |m.stack| + |m.altstack| + 2 <= MAX_STACK && c.hash160(Top(m.stack, 1)) == hash160
  }

  /** What an address script leaves. */
  function Checked(c: Crypto, m: Machine): Machine
    requires |m.stack| >= 2
  {
    var sig, key := Top(m.stack, 2), Top(m.stack, 1);
    m.(stack := Drop(m.stack, 2) + [Truth(c.checkSig(sig, key, SignedCode(m.code, sig)))], nOpCount := m.nOpCount + 4,
       nChecks := m.nChecks + 1)
  }

  /** An address script on any stack. */
  lemma RunAddress(c: Crypto, hash160: Bytes, m: Machine)
    requires m.nOpCount + 4 <= MAX_OPS && |hash160| <= MAX_ELEMENT_SIZE
    ensures RunBytes(c, AddressScript(hash160), m, []) == if Offers(c, hash160, m) then Ok(Checked(c, m)) else Rejected
  {
    hide RunBytes, PushData, WithoutSignatures;
    var tail: Script := [OP_CHECKSIG] + [];
    assert AddressScript(hash160) == [OP_DUP, OP_HASH160] + PushData(hash160) + ([OP_EQUALVERIFY] + tail);
    if m.stack == [] || |m.stack| + |m.altstack| + 2 > MAX_STACK {
      KeyHashRefused(c, hash160, [OP_EQUALVERIFY] + tail, m);
    } else {
      CheckKeyHash(c, hash160, tail, m);
      RunOpcode(c, OP_CHECKSIG, [], m.(nOpCount := m.nOpCount + 3));
      if |m.stack| >= 2 {
        OneSignature(m.code, Top(m.stack, 2));
        RunNothing(c, Checked(c, m));
      }
    }
  }

  lemma RunNothing(c: Crypto, m: Machine)
    ensures RunBytes(c, [], m, []) == Ok(m)
  {
  }

  lemma RunSpend(c: Crypto, sig: Bytes, key: Bytes)
    requires |sig| <= MAX_ELEMENT_SIZE && |key| <= MAX_ELEMENT_SIZE
    ensures NestedEvaluate(c, [], SpendScript(sig, key)) == Ok(Start([], SpendScript(sig, key)).(stack := [sig, key]))
  {
    hide RunBytes, PushData, NestedRun, Decode;
    var s := SpendScript(sig, key);
    PushSize(sig);
    PushSize(key);
    EvaluateIsNested(c, [], s);
    assert s + [] == s && s == PushData(sig) + PushData(key) && PushData(key) + [] == PushData(key);
    RunPush(c, sig, PushData(key), Start([], s));
    assert Start([], s).stack + [sig] == [sig];
    RunPush(c, key, [], Start([], s).(stack := [sig]));
    assert [sig] + [key] == [sig, key];
    RunNothing(c, Start([], s).(stack := [sig, key]));
  }

  lemma PushSize(b: Bytes)
    ensures |b| <= MAX_ELEMENT_SIZE ==> |PushData(b)| <= |b| + 3
  {
  }

  lemma PrefixSize(op: NameOp)
    requires op.Pushable(MAX_ELEMENT_SIZE)
    ensures |Prefix(op)| <= 3 + 3 * (MAX_ELEMENT_SIZE + 3)
  {
    PushesSize(op.Args());
    hide Pushes;
  }

  lemma {:induction false} PushesSize(args: seq<Bytes>)
    requires forall k :: 0 <= k < |args| ==> |args[k]| <= MAX_ELEMENT_SIZE
    ensures |Pushes(args)| <= |args| * (MAX_ELEMENT_SIZE + 3)
  {
    hide PushData;
    if args != [] {
      PushSize(args[0]);
      PushesSize(args[1..]);
    }
  }

  // ----- spending -----

  /** A signature and a key fit an output: the key has the hash, and the signature is one of that
      key over the script. */
  predicate MaySpend(c: Crypto, hash160: Bytes, sig: Bytes, key: Bytes, script: Script) {
    c.hash160(key) == hash160 && c.checkSig(sig, key, SignedCode(script, sig))
  }

  /** The signature script leaves at most `limit` elements, the upper two a fitting signature and
      key. */
  predicate Supplies(c: Crypto, scriptSig: Script, limit: nat, hash160: Bytes, script: Script) {
    var m := NestedEvaluate(c, [], scriptSig);
    m.Ok? && 2 <= |m.value.stack| <= limit && MaySpend(c, hash160, Top(m.value.stack, 2), Top(m.value.stack, 1), script)
  }

  /** Whatever the signature script does, an output that pays to an address is spent exactly when it
      leaves a fitting signature and key on top of the stack. */
  lemma AddressSpent(c: Crypto, scriptSig: Script, hash160: Bytes)
    requires |hash160| <= MAX_ELEMENT_SIZE
    ensures Verifies(c, scriptSig, AddressScript(hash160)) <==>
              Supplies(c, scriptSig, 998, hash160, AddressScript(hash160))
  {
    hide RunBytes, PushData, NestedRun, Decode, WithoutSignatures, NestedEvaluate, SetVch;
    var script := AddressScript(hash160);
    PushSize(hash160);
    var m := NestedEvaluate(c, [], scriptSig);
    if m.Ok? {
      EvaluateNested(c, m.value.stack, script);
      RunAddress(c, hash160, Start(m.value.stack, script));
      TruthOfBool();
    }
  }

  lemma EvaluateNested(c: Crypto, stack: Stack, script: Script)
    ensures Evaluate(c, stack, script) == NestedEvaluate(c, stack, script)
  {
    EvaluateIsNested(c, stack, script);
  }

  lemma TruthOfBool()
    ensures SetVch(Truth(true)) != 0 && SetVch(Truth(false)) == 0
  {
    TruthIsNonzero(Truth(true));
    TruthIsNonzero(Truth(false));
  }

  /** A name output is spent exactly like its address: by a signature of the key with that hash,
      over the whole script, name prefix included, with room for the prefix. */
  lemma NameOutputSpent(c: Crypto, op: NameOp, scriptSig: Script, hash160: Bytes)
    requires op.Pushable(MAX_ELEMENT_SIZE) && |hash160| <= MAX_ELEMENT_SIZE
    ensures var whole := Prefix(op) + AddressScript(hash160);
            Verifies(c, scriptSig, whole) <==> Supplies(c, scriptSig, 999 - |op.Args()|, hash160, whole)
  {
    hide RunBytes, PushData, NestedRun, Decode, WithoutSignatures, NestedEvaluate, Prefix, SetVch;
    var whole := Prefix(op) + AddressScript(hash160);
    PushSize(hash160);
    PrefixSize(op);
    var m := NestedEvaluate(c, [], scriptSig);
    if m.Ok? {
      var stack := m.value.stack;
      EvaluateNested(c, stack, whole);
      if |stack| + |op.Args()| + 1 <= MAX_STACK {
        PrefixTransparent(c, op, AddressScript(hash160), stack);
        RunAddress(c, hash160, Start(stack, whole));
        TruthOfBool();
      } else {
        PrefixOverflows(c, op, AddressScript(hash160), Start(stack, whole));
      }
    }
  }

  /** The usual signature script supplies exactly the signature and the key it names. */
  lemma SpendSupplies(c: Crypto, sig: Bytes, key: Bytes, limit: nat, hash160: Bytes, script: Script)
    requires |sig| <= MAX_ELEMENT_SIZE && |key| <= MAX_ELEMENT_SIZE && limit >= 2
    ensures Supplies(c, SpendScript(sig, key), limit, hash160, script) <==> MaySpend(c, hash160, sig, key, script)
  {
    hide NestedEvaluate, WithoutSignatures;
    RunSpend(c, sig, key);
  }
}
