/** What the instructions of the script machine do to the stack, by their bytes (src/script.cpp). */
module Instructions {
  import opened Common
  import opened ScriptCode
  import opened Compact
  import opened ScriptMachine
  import opened Conditionals

  /** Executing the instruction with `before` on top of the stack leaves `after` in its place. */
  predicate Does(c: Crypto, m: Machine, base: Stack, opcode: byte, before: Stack, after: Stack) {
    Execute(c, Instr(opcode, [], []), m.(stack := base + before)) == Ok(m.(stack := base + after))
  }

  /** Executing the instruction on this stack fails. */
  predicate Refuses(c: Crypto, m: Machine, opcode: byte, stack: Stack) {
    Execute(c, Instr(opcode, [], []), m.(stack := stack)).Rejected?
  }

  lemma Tops(base: Stack, args: Stack)
    ensures forall i :: 1 <= i <= |args| ==> Top(base + args, i) == args[|args| - i]
    ensures Drop(base + args, |args|) == base
  {
  }

  // ----- moving elements about -----

  lemma TwoDrop(base: Stack, y: Bytes, z: Bytes)
    ensures Shuffle(109, base + [y, z]) == Ok(base + [])
  {
    Tops(base, [y, z]);
    assert base + [] == base;
  }

  lemma TwoDup(base: Stack, y: Bytes, z: Bytes)
    ensures Shuffle(110, base + [y, z]) == Ok(base + [y, z, y, z])
  {
    Tops(base, [y, z]);
    assert base + [y, z] + [y, z] == base + [y, z, y, z];
  }

  lemma ThreeDup(base: Stack, x: Bytes, y: Bytes, z: Bytes)
    ensures Shuffle(111, base + [x, y, z]) == Ok(base + [x, y, z, x, y, z])
  {
    Tops(base, [x, y, z]);
    assert base + [x, y, z] + [x, y, z] == base + [x, y, z, x, y, z];
  }

  lemma TwoOver(base: Stack, w: Bytes, x: Bytes, y: Bytes, z: Bytes)
    ensures Shuffle(112, base + [w, x, y, z]) == Ok(base + [w, x, y, z, w, x])
  {
    Tops(base, [w, x, y, z]);
    assert base + [w, x, y, z] + [w, x] == base + [w, x, y, z, w, x];
  }

  lemma TwoRot(base: Stack, u: Bytes, v: Bytes, w: Bytes, x: Bytes, y: Bytes, z: Bytes)
    ensures Shuffle(113, base + [u, v, w, x, y, z]) == Ok(base + [w, x, y, z, u, v])
  {
    Tops(base, [u, v, w, x, y, z]);
  }

  lemma TwoSwap(base: Stack, w: Bytes, x: Bytes, y: Bytes, z: Bytes)
    ensures Shuffle(114, base + [w, x, y, z]) == Ok(base + [y, z, w, x])
  {
    Tops(base, [w, x, y, z]);
  }

  lemma DropOne(base: Stack, z: Bytes)
    ensures Shuffle(117, base + [z]) == Ok(base + [])
  {
    Tops(base, [z]);
    assert base + [] == base;
  }

  lemma Dup(base: Stack, z: Bytes)
    ensures Shuffle(118, base + [z]) == Ok(base + [z, z])
  {
    Tops(base, [z]);
    assert base + [z] + [z] == base + [z, z];
  }

  lemma Nip(base: Stack, y: Bytes, z: Bytes)
    ensures Shuffle(119, base + [y, z]) == Ok(base + [z])
  {
    Tops(base, [y, z]);
  }

  lemma Over(base: Stack, y: Bytes, z: Bytes)
    ensures Shuffle(120, base + [y, z]) == Ok(base + [y, z, y])
  {
    Tops(base, [y, z]);
    assert base + [y, z] + [y] == base + [y, z, y];
  }

  lemma Rot(base: Stack, x: Bytes, y: Bytes, z: Bytes)
    ensures Shuffle(123, base + [x, y, z]) == Ok(base + [y, z, x])
  {
    Tops(base, [x, y, z]);
  }

  lemma Swap(base: Stack, y: Bytes, z: Bytes)
    ensures Shuffle(124, base + [y, z]) == Ok(base + [z, y])
  {
    Tops(base, [y, z]);
  }

  lemma Tuck(base: Stack, y: Bytes, z: Bytes)
    ensures Shuffle(125, base + [y, z]) == Ok(base + [z, y, z])
  {
    Tops(base, [y, z]);
  }

  lemma ShuffleExecutes(c: Crypto, m: Machine, base: Stack, opcode: byte, before: Stack, after: Stack)
    requires IsShuffle(opcode) && Shuffle(opcode, base + before) == Ok(base + after)
    ensures Does(c, m, base, opcode, before, after)
  {
    hide Shuffle;
  }

  /** The instructions that move elements about, each on top of any stack. */
  lemma StackInstructions(c: Crypto, m: Machine, base: Stack, u: Bytes, v: Bytes, w: Bytes, x: Bytes, y: Bytes,
                          z: Bytes)
    ensures Does(c, m, base, 109, [y, z], [])
    ensures Does(c, m, base, 110, [y, z], [y, z, y, z])
    ensures Does(c, m, base, 111, [x, y, z], [x, y, z, x, y, z])
    ensures Does(c, m, base, 112, [w, x, y, z], [w, x, y, z, w, x])
    ensures Does(c, m, base, 113, [u, v, w, x, y, z], [w, x, y, z, u, v])
    ensures Does(c, m, base, 114, [w, x, y, z], [y, z, w, x])
    ensures Does(c, m, base, 117, [z], [])
    ensures Does(c, m, base, 118, [z], [z, z])
    ensures Does(c, m, base, 119, [y, z], [z])
    ensures Does(c, m, base, 120, [y, z], [y, z, y])
    ensures Does(c, m, base, 123, [x, y, z], [y, z, x])
    ensures Does(c, m, base, 124, [y, z], [z, y])
    ensures Does(c, m, base, 125, [y, z], [z, y, z])
  {
    hide Shuffle, Does;
    TwoDrop(base, y, z);
    ShuffleExecutes(c, m, base, 109, [y, z], []);
    TwoDup(base, y, z);
    ShuffleExecutes(c, m, base, 110, [y, z], [y, z, y, z]);
    ThreeDup(base, x, y, z);
    ShuffleExecutes(c, m, base, 111, [x, y, z], [x, y, z, x, y, z]);
    TwoOver(base, w, x, y, z);
    ShuffleExecutes(c, m, base, 112, [w, x, y, z], [w, x, y, z, w, x]);
    TwoRot(base, u, v, w, x, y, z);
    ShuffleExecutes(c, m, base, 113, [u, v, w, x, y, z], [w, x, y, z, u, v]);
    TwoSwap(base, w, x, y, z);
    ShuffleExecutes(c, m, base, 114, [w, x, y, z], [y, z, w, x]);
    DropOne(base, z);
    ShuffleExecutes(c, m, base, 117, [z], []);
    Dup(base, z);
    ShuffleExecutes(c, m, base, 118, [z], [z, z]);
    Nip(base, y, z);
    ShuffleExecutes(c, m, base, 119, [y, z], [z]);
    Over(base, y, z);
    ShuffleExecutes(c, m, base, 120, [y, z], [y, z, y]);
    Rot(base, x, y, z);
    ShuffleExecutes(c, m, base, 123, [x, y, z], [y, z, x]);
    Swap(base, y, z);
    ShuffleExecutes(c, m, base, 124, [y, z], [z, y]);
    Tuck(base, y, z);
    ShuffleExecutes(c, m, base, 125, [y, z], [z, y, z]);
  }

  /** On a stack too low they fail. */
  lemma StackTooLow(c: Crypto, m: Machine, stack: Stack)
    ensures |stack| < 1 ==> Refuses(c, m, 115, stack) && Refuses(c, m, 117, stack) && Refuses(c, m, 118, stack)
    ensures |stack| < 2 ==>
              && Refuses(c, m, 109, stack) && Refuses(c, m, 110, stack) && Refuses(c, m, 119, stack)
              && Refuses(c, m, 120, stack) && Refuses(c, m, 121, stack) && Refuses(c, m, 122, stack)
              && Refuses(c, m, 124, stack) && Refuses(c, m, 125, stack)
    ensures |stack| < 3 ==> Refuses(c, m, 111, stack) && Refuses(c, m, 123, stack)
    ensures |stack| < 4 ==> Refuses(c, m, 112, stack) && Refuses(c, m, 114, stack)
    ensures |stack| < 6 ==> Refuses(c, m, 113, stack)
  {
  }

  /** IFDUP, DEPTH, VERIFY, SIZE, and the two that compare bytes. */
  lemma TestInstructions(c: Crypto, m: Machine, base: Stack, y: Bytes, z: Bytes)
    ensures Does(c, m, base, 115, [z], if CastToBool(z) then [z, z] else [z])
    ensures Does(c, m, base, 116, [], [GetVch(|base|)])
    ensures if CastToBool(z) then Does(c, m, base, 105, [z], []) else Refuses(c, m, 105, base + [z])
    ensures Does(c, m, base, 130, [z], [z, GetVch(|z|)])
    ensures Does(c, m, base, 135, [y, z], [if y == z then [1] else []])
    ensures if y == z then Does(c, m, base, 136, [y, z], []) else Refuses(c, m, 136, base + [y, z])
  {
    hide GetVch;
    Tops(base, [z]);
    Tops(base, [y, z]);
    assert base + [] == base && base + [z] + [z] == base + [z, z]
           && base + [z] + [GetVch(|z|)] == base + [z, GetVch(|z|)];
  }

  /** Small numbers: 1 to 16, and minus one; every other opcode up to 78 pushes its data. */
  lemma PushInstructions(c: Crypto, m: Machine, base: Stack, opcode: byte, data: Bytes)
    ensures opcode <= 78 ==> Execute(c, Instr(opcode, data, []), m.(stack := base)) == Ok(m.(stack := base + [data]))
    ensures 81 <= opcode <= 96 ==> Does(c, m, base, opcode, [], [[opcode - 80]])
    ensures Does(c, m, base, 79, [], [[0x81]])
  {
    assert base + [] == base;
    if 81 <= opcode <= 96 {
      SmallNumber(opcode - 80);
    }
    MinusOne();
    hide GetVch;
  }

  lemma SmallNumber(n: nat)
    requires 1 <= n < 128
    ensures GetVch(n) == [n]
  {
    assert MpiLimit(0) == 1 && MpiLimit(1) == 128 by {
      assert Pow256(0) == 1;
    }
    LengthUnique(n, 1);
    assert Digits(n, 1) == [n] by {
      assert n / 256 == 0 && n % 256 == n;
    }
    hide MpiLength;
  }

  lemma MinusOne()
    ensures GetVch(-1) == [0x81]
  {
    assert MpiLimit(0) == 1 && MpiLimit(1) == 128 by {
      assert Pow256(0) == 1;
    }
    LengthUnique(1, 1);
    assert Digits(1, 1) == [1];
    hide MpiLength;
  }

  /** PICK copies and ROLL moves the element `n` below the top. */
  lemma PickAndRoll(c: Crypto, m: Machine, base: Stack, x: Bytes, above: Stack)
    requires |GetVch(|above|)| <= 4
    ensures Does(c, m, base, 121, [x] + above + [GetVch(|above|)], [x] + above + [x])
    ensures Does(c, m, base, 122, [x] + above + [GetVch(|above|)], above + [x])
  {
    hide GetVch, SetVch;
    VchRoundTrip(|above|);
    var args, n := [x] + above + [GetVch(|above|)], |above|;
    Tops(base, args);
    var t := Drop(base + args, 1);
    assert t == base + ([x] + above) && t[|t| - n - 1] == x;
    assert t[..|t| - n - 1] == base && t[|t| - n..] == above;
    assert t + [x] == base + ([x] + above + [x]) && base + above + [x] == base + (above + [x]);
  }

  /** The alternative stack takes the top element and gives it back. */
  lemma AltStack(c: Crypto, m: Machine, base: Stack, z: Bytes)
    ensures Execute(c, Instr(107, [], []), m.(stack := base + [z]))
              == Ok(m.(stack := base, altstack := m.altstack + [z]))
    ensures Execute(c, Instr(108, [], []), m.(stack := base, altstack := m.altstack + [z]))
              == Ok(m.(stack := base + [z]))
    ensures Refuses(c, m, 107, [])
    ensures m.altstack == [] ==> Refuses(c, m, 108, base)
  {
    Tops(base, [z]);
    Tops(m.altstack, [z]);
  }

  // ----- numbers -----

  /** The byte form of an operand: at most four bytes. */
  predicate Operand(a: int) {
    |GetVch(a)| <= 4
  }

  lemma OperandReads(a: int)
    requires Operand(a)
    ensures CastToBigNum(GetVch(a)) == Ok(a)
  {
    VchRoundTrip(a);
  }

  lemma ArithmeticExecutes(c: Crypto, m: Machine, opcode: byte, stack: Stack)
    requires IsUnary(opcode) || IsBinary(opcode) || opcode == 165
    ensures Execute(c, Instr(opcode, [], []), m.(stack := stack)) == OnStack(m, Arithmetic(opcode, stack))
  {
    hide Arithmetic;
  }

  lemma UnaryEffect(c: Crypto, m: Machine, base: Stack, opcode: byte, a: int)
    requires IsUnary(opcode) && Operand(a)
    ensures Does(c, m, base, opcode, [GetVch(a)], [GetVch(Unary(opcode, a))])
  {
    hide GetVch, CastToBigNum, Unary, Execute;
    OperandReads(a);
    Tops(base, [GetVch(a)]);
    ArithmeticExecutes(c, m, opcode, base + [GetVch(a)]);
  }

  /** Instructions on one number. */
  lemma UnaryInstructions(c: Crypto, m: Machine, base: Stack, a: int)
    requires Operand(a)
    ensures Does(c, m, base, 139, [GetVch(a)], [GetVch(a + 1)]) && Does(c, m, base, 140, [GetVch(a)], [GetVch(a - 1)])
    ensures Does(c, m, base, 143, [GetVch(a)], [GetVch(-a)])
    ensures Does(c, m, base, 144, [GetVch(a)], [GetVch(if a < 0 then -a else a)])
    ensures Does(c, m, base, 145, [GetVch(a)], [GetVch(if a == 0 then 1 else 0)])
    ensures Does(c, m, base, 146, [GetVch(a)], [GetVch(if a == 0 then 0 else 1)])
  {
    hide Does, GetVch;
    UnaryEffect(c, m, base, 139, a);
    UnaryEffect(c, m, base, 140, a);
    UnaryEffect(c, m, base, 143, a);
    UnaryEffect(c, m, base, 144, a);
    UnaryEffect(c, m, base, 145, a);
    UnaryEffect(c, m, base, 146, a);
  }

  lemma BinaryArithmetic(base: Stack, opcode: byte, x: Bytes, y: Bytes, a: int, b: int)
    requires IsBinary(opcode) && CastToBigNum(x) == Ok(a) && CastToBigNum(y) == Ok(b)
    ensures Arithmetic(opcode, base + [x, y]) == Conclude(opcode == 157, base, GetVch(Binary(opcode, a, b)))
  {
    hide GetVch, CastToBigNum, CastToBool, Binary, Conclude;
    Tops(base, [x, y]);
  }

  lemma BinaryEffect(c: Crypto, m: Machine, base: Stack, opcode: byte, a: int, b: int)
    requires IsBinary(opcode) && Operand(a) && Operand(b)
    ensures opcode != 157 ==> Does(c, m, base, opcode, [GetVch(a), GetVch(b)], [GetVch(Binary(opcode, a, b))])
    ensures opcode == 157 && CastToBool(GetVch(Binary(157, a, b))) ==> Does(c, m, base, 157, [GetVch(a), GetVch(b)], [])
    ensures opcode == 157 && !CastToBool(GetVch(Binary(157, a, b))) ==>
              Refuses(c, m, 157, base + [GetVch(a), GetVch(b)])
  {
    hide GetVch, CastToBigNum, CastToBool, Binary, Arithmetic, Execute, IsBinary;
    OperandReads(a);
    OperandReads(b);
    BinaryArithmetic(base, opcode, GetVch(a), GetVch(b), a, b);
    ArithmeticExecutes(c, m, opcode, base + [GetVch(a), GetVch(b)]);
    assert base + [] == base;
  }

  /** A truth value as the number that the comparisons leave. */
  function Flag(holds: bool): Bytes {
    GetVch(if holds then 1 else 0)
  }

  lemma FlagIsTruth(holds: bool)
    ensures CastToBool(Flag(holds)) == holds
  {
    TruthIsNonzero(Flag(holds));
    VchRoundTrip(if holds then 1 else 0);
  }

  /** Instructions on two numbers. */
  lemma BinaryInstructions(c: Crypto, m: Machine, base: Stack, a: int, b: int)
    requires Operand(a) && Operand(b)
    ensures var args := [GetVch(a), GetVch(b)];
            && Does(c, m, base, 147, args, [GetVch(a + b)]) && Does(c, m, base, 148, args, [GetVch(a - b)])
            && Does(c, m, base, 154, args, [Flag(a != 0 && b != 0)])
            && Does(c, m, base, 155, args, [Flag(a != 0 || b != 0)])
            && Does(c, m, base, 156, args, [Flag(a == b)]) && Does(c, m, base, 158, args, [Flag(a != b)])
            && Does(c, m, base, 159, args, [Flag(a < b)]) && Does(c, m, base, 160, args, [Flag(a > b)])
            && Does(c, m, base, 161, args, [Flag(a <= b)]) && Does(c, m, base, 162, args, [Flag(a >= b)])
            && Does(c, m, base, 163, args, [GetVch(if a < b then a else b)])
            && Does(c, m, base, 164, args, [GetVch(if a > b then a else b)])
            && (if a == b then Does(c, m, base, 157, args, []) else Refuses(c, m, 157, base + args))
  {
    hide Does, Refuses, GetVch, CastToBool;
    BinaryEffect(c, m, base, 147, a, b);
    BinaryEffect(c, m, base, 148, a, b);
    BinaryEffect(c, m, base, 154, a, b);
    BinaryEffect(c, m, base, 155, a, b);
    BinaryEffect(c, m, base, 156, a, b);
    BinaryEffect(c, m, base, 157, a, b);
    BinaryEffect(c, m, base, 158, a, b);
    BinaryEffect(c, m, base, 159, a, b);
    BinaryEffect(c, m, base, 160, a, b);
    BinaryEffect(c, m, base, 161, a, b);
    BinaryEffect(c, m, base, 162, a, b);
    BinaryEffect(c, m, base, 163, a, b);
    BinaryEffect(c, m, base, 164, a, b);
    FlagIsTruth(a == b);
  }

  /** WITHIN takes a number, the lowest and the first too high. */
  lemma Within(c: Crypto, m: Machine, base: Stack, a: int, lo: int, hi: int)
    requires Operand(a) && Operand(lo) && Operand(hi)
    ensures Does(c, m, base, 165, [GetVch(a), GetVch(lo), GetVch(hi)], [if lo <= a < hi then [1] else []])
  {
    OperandReads(a);
    OperandReads(lo);
    OperandReads(hi);
    hide GetVch, CastToBigNum, Execute;
    Tops(base, [GetVch(a), GetVch(lo), GetVch(hi)]);
    ArithmeticExecutes(c, m, 165, base + [GetVch(a), GetVch(lo), GetVch(hi)]);
  }

  /** An operand of more than four bytes is refused. */
  lemma LongOperands(c: Crypto, m: Machine, base: Stack, z: Bytes, opcode: byte)
    requires |z| > 4 && (139 <= opcode <= 140 || 143 <= opcode <= 148 || 154 <= opcode <= 165)
    ensures Refuses(c, m, opcode, base + [z])
  {
    Tops(base, [z]);
    hide GetVch, SetVch;
  }

  // ----- hashes, signatures, and what fails -----

  /** Each hash instruction puts its own hash in the place of the top element. */
  lemma HashInstructions(c: Crypto, m: Machine, base: Stack, z: Bytes)
    ensures Does(c, m, base, 166, [z], [c.ripemd160(z)]) && Does(c, m, base, 167, [z], [c.sha1(z)])
    ensures Does(c, m, base, 168, [z], [c.sha256(z)]) && Does(c, m, base, 169, [z], [c.hash160(z)])
    ensures Does(c, m, base, 170, [z], [c.hash256(z)])
  {
    Tops(base, [z]);
  }

  /** CHECKSIG checks the lower of the two elements against the upper one, over the code behind the
      last CODESEPARATOR without that signature. */
  lemma CheckSigInstructions(c: Crypto, m: Machine, base: Stack, sig: Bytes, key: Bytes, tail: Script)
    ensures Execute(c, Instr(171, [], tail), m) == Ok(m.(code := tail))
    ensures var ok := c.checkSig(sig, key, FindAndDelete(m.code, PushData(sig)));
            && Execute(c, Instr(172, [], tail), m.(stack := base + [sig, key]))
                 == Ok(m.(stack := base + [if ok then [1] else []], nChecks := m.nChecks + 1))
            && Execute(c, Instr(173, [], tail), m.(stack := base + [sig, key]))
                 == if ok then Ok(m.(stack := base, nChecks := m.nChecks + 1)) else Rejected
  {
    hide FindAndDelete, PushData;
    Tops(base, [sig, key]);
    assert [sig][1..] == [];
    assert WithoutSignatures(m.code, [sig]) == FindAndDelete(m.code, PushData(sig));
  }

  /** RETURN, and every byte that is no instruction, fails; NOPs do nothing. */
  lemma Others(c: Crypto, m: Machine, opcode: byte)
    ensures opcode in {80, 98, 101, 102, 106, 137, 138} || opcode > 185 ==> Refuses(c, m, opcode, m.stack)
    ensures opcode == 97 || 176 <= opcode <= 185 ==> Execute(c, Instr(opcode, [], []), m) == Ok(m)
  {
    assert m.(stack := m.stack) == m;
  }

  /** The disabled instructions fail wherever they stand, executed or not. */
  lemma DisabledFail(opcode: byte, data: Bytes, tail: Script, m: Machine)
    ensures opcode in {126, 127, 128, 129, 131, 132, 133, 134, 141, 142, 149, 150, 151, 152, 153} ==>
              Count(Instr(opcode, data, tail), m).Rejected?
    ensures |data| > 520 ==> Count(Instr(opcode, data, tail), m).Rejected?
    ensures opcode > 96 && m.nOpCount >= 201 ==> Count(Instr(opcode, data, tail), m).Rejected?
    ensures opcode <= 125 && |data| <= 520 ==>
              Count(Instr(opcode, data, tail), m)
                == if opcode <= 96 then Ok(m)
                else if m.nOpCount < 201 then Ok(m.(nOpCount := m.nOpCount + 1)) else Rejected
    ensures Limit(m).Ok? <==> |m.stack| + |m.altstack| <= 1000
  {
  }

  /** IF takes the top element as the condition of its branch and NOTIF its negation, when all around
      it is executed; ELSE negates the innermost condition and ENDIF ends it; what is not executed
      leaves the machine alone, but VERIF and VERNOTIF fail even there. */
  lemma ConditionInstructions(c: Crypto, m: Machine, base: Stack, z: Bytes, vfExec: seq<bool>, opcode: byte,
                              data: Bytes, tail: Script)
    ensures AllTrue(vfExec) ==>
              && FlatEffect(c, Instr(99, data, tail), m.(stack := base + [z]), vfExec)
                   == Ok(Flat(m.(stack := base), vfExec + [CastToBool(z)]))
              && FlatEffect(c, Instr(100, data, tail), m.(stack := base + [z]), vfExec)
                   == Ok(Flat(m.(stack := base), vfExec + [!CastToBool(z)]))
              && FlatEffect(c, Instr(99, data, tail), m.(stack := []), vfExec).Rejected?
              && FlatEffect(c, Instr(100, data, tail), m.(stack := []), vfExec).Rejected?
    ensures !AllTrue(vfExec) ==>
              && FlatEffect(c, Instr(99, data, tail), m, vfExec) == Ok(Flat(m, vfExec + [false]))
              && FlatEffect(c, Instr(100, data, tail), m, vfExec) == Ok(Flat(m, vfExec + [false]))
              && (opcode !in {99, 100, 103, 104} ==>
                    FlatEffect(c, Instr(opcode, data, tail), m, vfExec)
                      == if opcode == 101 || opcode == 102 then Rejected else Ok(Flat(m, vfExec)))
    ensures FlatEffect(c, Instr(103, data, tail), m, vfExec)
              == if vfExec == [] then Rejected else Ok(Flat(m, vfExec[|vfExec| - 1 := !vfExec[|vfExec| - 1]]))
    ensures FlatEffect(c, Instr(104, data, tail), m, vfExec)
              == if vfExec == [] then Rejected else Ok(Flat(m, vfExec[..|vfExec| - 1]))
  {
    hide CastToBool, AllTrue, Execute;
    Tops(base, [z]);
  }
}
