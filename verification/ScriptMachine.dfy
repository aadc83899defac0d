/** The instructions of the script machine (src/script.cpp).  Every `return false` and every
    exception of the evaluation loop is `Rejected`. */
module ScriptMachine {
  import opened Common
  import opened ScriptCode
  import opened Multisig
  import opened Compact

  const OP_1NEGATE := 79
  const OP_IF := 99
  const OP_NOTIF := 100
  const OP_VERIF := 101
  const OP_VERNOTIF := 102
  const OP_ELSE := 103
  const OP_ENDIF := 104
  const OP_VERIFY := 105
  const OP_TOALTSTACK := 107
  const OP_FROMALTSTACK := 108
  const OP_2DUP := 110
  const OP_3DUP := 111
  const OP_2OVER := 112
  const OP_2ROT := 113
  const OP_2SWAP := 114
  const OP_IFDUP := 115
  const OP_DEPTH := 116
  const OP_DUP := 118
  const OP_NIP := 119
  const OP_OVER := 120
  const OP_PICK := 121
  const OP_ROLL := 122
  const OP_ROT := 123
  const OP_SWAP := 124
  const OP_TUCK := 125
  const OP_SIZE := 130
  const OP_EQUAL := 135
  const OP_EQUALVERIFY := 136
  const OP_1ADD := 139
  const OP_1SUB := 140
  const OP_NEGATE := 143
  const OP_ABS := 144
  const OP_NOT := 145
  const OP_0NOTEQUAL := 146
  const OP_ADD := 147
  const OP_SUB := 148
  const OP_BOOLAND := 154
  const OP_BOOLOR := 155
  const OP_NUMEQUAL := 156
  const OP_NUMEQUALVERIFY := 157
  const OP_NUMNOTEQUAL := 158
  const OP_LESSTHAN := 159
  const OP_GREATERTHAN := 160
  const OP_LESSTHANOREQUAL := 161
  const OP_MIN := 163
  const OP_MAX := 164
  const OP_WITHIN := 165
  const OP_RIPEMD160 := 166
  const OP_SHA1 := 167
  const OP_SHA256 := 168
  const OP_HASH160 := 169
  const OP_HASH256 := 170
  const OP_CODESEPARATOR := 171
  const OP_CHECKSIG := 172
  const OP_CHECKSIGVERIFY := 173
  const OP_CHECKMULTISIG := 174
  const OP_CHECKMULTISIGVERIFY := 175
  const OP_NOP1 := 176
  const OP_NOP10 := 185

  const MAX_SCRIPT_SIZE := 10000
  const MAX_ELEMENT_SIZE := 520
  const MAX_OPS := 201
  const MAX_STACK := 1000
  const MAX_KEYS := 20

  /** Instructions that are refused wherever they occur, executed or not. */
  predicate Disabled(opcode: byte) {
    126 <= opcode <= 129 || 131 <= opcode <= 134 || 141 <= opcode <= 142 || 149 <= opcode <= 153
  }

  /** The hash functions, and signature checking for the input being verified: signature, key,
      and the code that is signed. */
  datatype Crypto = Crypto(
    ripemd160: Bytes -> Bytes,
    sha1: Bytes -> Bytes,
    sha256: Bytes -> Bytes,
    hash160: Bytes -> Bytes,
    hash256: Bytes -> Bytes,
    checkSig: (Bytes, Bytes, Script) -> bool)

  type Stack = seq<Bytes>

  /** Both stacks, the instructions counted so far, the script from the last code separator on,
      and (not in the program) the signature checks made so far. */
  datatype Machine = Machine(stack: Stack, altstack: Stack, nOpCount: nat, code: Script, nChecks: nat)

  /** An instruction, and the script behind it. */
  datatype Instr = Instr(opcode: byte, data: Bytes, tail: Script)

  // ----- numbers and truth -----

  function CastToBigNum(b: Bytes): Outcome<int> {
    if |b| > 4 then Rejected else Ok(SetVch(b))
  }

  function CastToBool(b: Bytes): bool {
    if b == [] then false
    else if b[0] != 0 then !(|b| == 1 && b[0] == 0x80)
    else CastToBool(b[1..])
  }

  lemma {:induction false} BigEndianZero(bs: Bytes)
    ensures BigEndian(bs) == 0 <==> forall k :: 0 <= k < |bs| ==> bs[k] == 0
  {
    if bs != [] {
      BigEndianZero(bs[..|bs| - 1]);
      assert forall k :: 0 <= k < |bs| - 1 ==> bs[k] == bs[..|bs| - 1][k];
    }
  }

  lemma {:induction false} FalseForm(b: Bytes)
    ensures !CastToBool(b) <==> (forall k :: 0 <= k < |b| - 1 ==> b[k] == 0) && (b != [] ==> b[|b| - 1] in {0, 0x80})
  {
    if b != [] {
      FalseForm(b[1..]);
      assert b == [b[0]] + b[1..];
      if |b| > 1 {
        assert b[|b| - 1] == b[1..][|b| - 2];
        assert forall k :: 0 < k < |b| - 1 ==> b[k] == b[1..][k - 1];
        assert forall k :: 0 <= k < |b| - 2 ==> b[1..][k] == b[k + 1];
      }
    }
  }

  /** A vector counts as true exactly when the number it stands for is not zero; negative zero
      is false too. */
  lemma TruthIsNonzero(b: Bytes)
    ensures CastToBool(b) <==> SetVch(b) != 0
  {
    FalseForm(b);
    if b != [] {
      var r := Reverse(b);
      var m := if r[0] >= 128 then r[0 := r[0] - 128] else r;
      BigEndianZero(m);
      forall k | 0 < k < |b| ensures m[k] == b[|b| - 1 - k] {
      }
      forall k | 0 <= k < |b| - 1 ensures b[k] == m[|b| - 1 - k] {
      }
      assert m[0] == 0 <==> b[|b| - 1] in {0, 0x80};
      assert SetVch(b) == 0 <==> BigEndian(m) == 0;
    }
  }

  function Truth(f: bool): Bytes {
    if f then [1] else []
  }

  // ----- erasing signatures from the signed code -----

  /** CScript::FindAndDelete for a non-empty `b`, with the iterator at `pc`. */
  function DeleteFrom(s: Script, pc: nat, b: Bytes): Script
    requires pc <= |s| && b != []
    decreases |s| - pc, |s|
  {
    if pc + |b| <= |s| && s[pc..pc + |b|] == b then DeleteFrom(s[..pc] + s[pc + |b|..], pc, b)
    else
      match GetOp(s, pc)
      case NoOp(_) => s
      case Op(_, _, next) => DeleteFrom(s, next, b)
  }

  function FindAndDelete(s: Script, b: Bytes): Script {
    if b == [] then s else DeleteFrom(s, 0, b)
  }

  /** What is signed: the code without the signatures (each erased as a push). */
  function WithoutSignatures(code: Script, sigs: seq<Bytes>): Script
    decreases |sigs|
  {
    if sigs == [] then code else WithoutSignatures(FindAndDelete(code, PushData(sigs[0])), sigs[1..])
  }

  // ----- instructions on the main stack -----

  /** stacktop(-i) */
  function Top(s: Stack, i: nat): Bytes
    requires 1 <= i <= |s|
  {
    s[|s| - i]
  }

  /** The stack without its top `n` elements. */
  function Drop(s: Stack, n: nat): Stack
    requires n <= |s|
  {
    s[..|s| - n]
  }

  predicate IsShuffle(opcode: byte) {
    OP_2DROP <= opcode <= OP_TUCK && opcode != OP_PICK && opcode != OP_ROLL
  }

  /** How many elements a shuffling instruction needs. */
  function ShuffleDepth(opcode: byte): nat {
    if opcode in {OP_2DROP, OP_2DUP, OP_NIP, OP_OVER, OP_SWAP, OP_TUCK} then 2
    else if opcode in {OP_3DUP, OP_ROT} then 3
    else if opcode in {OP_2OVER, OP_2SWAP} then 4
    else if opcode == OP_2ROT then 6
    else if opcode == OP_DEPTH then 0
    else 1
  }

  function Shuffle(opcode: byte, s: Stack): Outcome<Stack>
    requires IsShuffle(opcode)
  {
    if |s| < ShuffleDepth(opcode) then Rejected
    else if opcode == OP_2DROP then Ok(Drop(s, 2))
    else if opcode == OP_2DUP then Ok(s + [Top(s, 2), Top(s, 1)])
    else if opcode == OP_3DUP then Ok(s + [Top(s, 3), Top(s, 2), Top(s, 1)])
    else if opcode == OP_2OVER then Ok(s + [Top(s, 4), Top(s, 3)])
    else if opcode == OP_2ROT then Ok(Drop(s, 6) + [Top(s, 4), Top(s, 3), Top(s, 2), Top(s, 1), Top(s, 6), Top(s, 5)])
    else if opcode == OP_2SWAP then Ok(Drop(s, 4) + [Top(s, 2), Top(s, 1), Top(s, 4), Top(s, 3)])
    else if opcode == OP_IFDUP then Ok(if CastToBool(Top(s, 1)) then s + [Top(s, 1)] else s)
    else if opcode == OP_DEPTH then Ok(s + [GetVch(|s|)])
    else if opcode == OP_DROP then Ok(Drop(s, 1))
    else if opcode == OP_DUP then Ok(s + [Top(s, 1)])
    else if opcode == OP_NIP then Ok(Drop(s, 2) + [Top(s, 1)])
    else if opcode == OP_OVER then Ok(s + [Top(s, 2)])
    else if opcode == OP_ROT then Ok(Drop(s, 3) + [Top(s, 2), Top(s, 1), Top(s, 3)])
    else if opcode == OP_SWAP then Ok(Drop(s, 2) + [Top(s, 1), Top(s, 2)])
    else Ok(Drop(s, 2) + [Top(s, 1), Top(s, 2), Top(s, 1)])
  }

  function PickOrRoll(opcode: byte, s: Stack): Outcome<Stack> {
    if |s| < 2 then Rejected
    else
      var n :- CastToBigNum(Top(s, 1));
      var t := Drop(s, 1);
      if n < 0 || n >= |t| then Rejected
      else
        var v := t[|t| - n - 1];
        if opcode == OP_ROLL then Ok(t[..|t| - n - 1] + t[|t| - n..] + [v]) else Ok(t + [v])
  }

  predicate IsUnary(opcode: byte) {
    opcode in {OP_1ADD, OP_1SUB, OP_NEGATE, OP_ABS, OP_NOT, OP_0NOTEQUAL}
  }

  function Unary(opcode: byte, a: int): int {
    if opcode == OP_1ADD then a + 1
    else if opcode == OP_1SUB then a - 1
    else if opcode == OP_NEGATE then -a
    else if opcode == OP_ABS then (if a < 0 then -a else a)
    else if opcode == OP_NOT then (if a == 0 then 1 else 0)
    else if a != 0 then 1 else 0
  }

  predicate IsBinary(opcode: byte) {
    opcode in {OP_ADD, OP_SUB} || OP_BOOLAND <= opcode <= OP_MAX
  }

  function Binary(opcode: byte, a: int, b: int): int {
    if opcode == OP_ADD then a + b
    else if opcode == OP_SUB then a - b
    else if opcode == OP_MIN then (if a < b then a else b)
    else if opcode == OP_MAX then (if a > b then a else b)
    else
      var holds :=
        if opcode == OP_BOOLAND then a != 0 && b != 0
        else if opcode == OP_BOOLOR then a != 0 || b != 0
        else if opcode == OP_NUMEQUAL || opcode == OP_NUMEQUALVERIFY then a == b
        else if opcode == OP_NUMNOTEQUAL then a != b
        else if opcode == OP_LESSTHAN then a < b
        else if opcode == OP_GREATERTHAN then a > b
        else if opcode == OP_LESSTHANOREQUAL then a <= b
        else a >= b;
      if holds then 1 else 0
  }

  /** The end of an instruction with a VERIFY form: a true result is dropped, a false one refused. */
  function Conclude(verify: bool, s: Stack, result: Bytes): Outcome<Stack> {
    if !verify then Ok(s + [result])
    else if CastToBool(result) then Ok(s)
    else Rejected
  }

  function Arithmetic(opcode: byte, s: Stack): Outcome<Stack>
    requires IsUnary(opcode) || IsBinary(opcode) || opcode == OP_WITHIN
  {
    if IsUnary(opcode) then
      if |s| < 1 then Rejected
      else
        var a :- CastToBigNum(Top(s, 1));
        Ok(Drop(s, 1) + [GetVch(Unary(opcode, a))])
    else if IsBinary(opcode) then
      if |s| < 2 then Rejected
      else
        var a :- CastToBigNum(Top(s, 2));
        var b :- CastToBigNum(Top(s, 1));
        Conclude(opcode == OP_NUMEQUALVERIFY, Drop(s, 2), GetVch(Binary(opcode, a, b)))
    else
      if |s| < 3 then Rejected
      else
        var a :- CastToBigNum(Top(s, 3));
        var lo :- CastToBigNum(Top(s, 2));
        var hi :- CastToBigNum(Top(s, 1));
        Ok(Drop(s, 3) + [Truth(lo <= a < hi)])
  }

  function HashOp(c: Crypto, opcode: byte, s: Stack): Outcome<Stack> {
    if |s| < 1 then Rejected
    else
      var v := Top(s, 1);
      var h :=
        if opcode == OP_RIPEMD160 then c.ripemd160(v)
        else if opcode == OP_SHA1 then c.sha1(v)
        else if opcode == OP_SHA256 then c.sha256(v)
        else if opcode == OP_HASH160 then c.hash160(v)
        else c.hash256(v);
      Ok(Drop(s, 1) + [h])
  }

  // ----- signatures -----

  function CheckSigOp(c: Crypto, verify: bool, m: Machine): Outcome<Machine> {
    if |m.stack| < 2 then Rejected
    else
      var sig := Top(m.stack, 2);
      var ok := c.checkSig(sig, Top(m.stack, 1), WithoutSignatures(m.code, [sig]));
      var s :- Conclude(verify, Drop(m.stack, 2), Truth(ok));
      Ok(m.(stack := s, nChecks := m.nChecks + 1))
  }

  /** `n` stack elements from stacktop(-i) downwards. */
  function Elements(s: Stack, i: nat, n: nat): (e: seq<Bytes>)
    requires i >= 1 && i + n - 1 <= |s|
    ensures |e| == n && forall k :: 0 <= k < n ==> e[k] == Top(s, i + k)
  {
    seq(n, k requires 0 <= k < n => Top(s, i + k))
  }

  /** What OP_CHECKMULTISIG finds on the stack. */
  datatype MultisigArgs = MultisigArgs(keys: seq<Bytes>, sigs: seq<Bytes>, used: nat)

  function ReadMultisig(s: Stack, nOpCount: nat): (r: Outcome<MultisigArgs>)
    ensures r.Ok? ==>
        r.value.used <= |s| && |r.value.sigs| <= |r.value.keys| <= MAX_KEYS && nOpCount + |r.value.keys| <= MAX_OPS
  {
    if |s| < 1 then Rejected
    else
      var nKeys :- CastToBigNum(Top(s, 1));
      if nKeys < 0 || nKeys > MAX_KEYS || nOpCount + nKeys > MAX_OPS || |s| < 2 + nKeys then Rejected
      else
        var nSigs :- CastToBigNum(Top(s, 2 + nKeys));
        if nSigs < 0 || nSigs > nKeys || |s| < 3 + nKeys + nSigs then Rejected
        else Ok(MultisigArgs(Elements(s, 2, nKeys), Elements(s, 3 + nKeys, nSigs), 3 + nKeys + nSigs))
  }

  function SigCheckIn(c: Crypto, code: Script): SigCheck {
    (sig, key) => c.checkSig(sig, key, code)
  }

  function CheckMultisigOp(c: Crypto, verify: bool, m: Machine): Outcome<Machine> {
    var a :- ReadMultisig(m.stack, m.nOpCount);
    var check := SigCheckIn(c, WithoutSignatures(m.code, a.sigs));
    var s :- Conclude(verify, Drop(m.stack, a.used), Truth(Greedy(check, a.sigs, a.keys)));
    Ok(m.(stack := s, nOpCount := m.nOpCount + |a.keys|, nChecks := m.nChecks + GreedyChecks(check, a.sigs, a.keys)))
  }

  // ----- one instruction -----

  function OnStack(m: Machine, r: Outcome<Stack>): Outcome<Machine> {
    var s :- r;
    Ok(m.(stack := s))
  }

  /** The effect of an executed instruction other than the conditionals. */
  function Execute(c: Crypto, i: Instr, m: Machine): Outcome<Machine> {
    if i.opcode <= OP_PUSHDATA4 then Ok(m.(stack := m.stack + [i.data]))
    else if i.opcode == OP_1NEGATE || OP_1 <= i.opcode <= OP_16 then
      Ok(m.(stack := m.stack + [GetVch(i.opcode - (OP_1 - 1))]))
    else if i.opcode == OP_NOP || OP_NOP1 <= i.opcode <= OP_NOP10 then Ok(m)
    else if i.opcode == OP_VERIFY then
      if |m.stack| < 1 || !CastToBool(Top(m.stack, 1)) then Rejected else Ok(m.(stack := Drop(m.stack, 1)))
    else if i.opcode == OP_TOALTSTACK then
      if |m.stack| < 1 then Rejected else Ok(m.(stack := Drop(m.stack, 1), altstack := m.altstack + [Top(m.stack, 1)]))
    else if i.opcode == OP_FROMALTSTACK then
      if |m.altstack| < 1 then Rejected
      else Ok(m.(stack := m.stack + [Top(m.altstack, 1)], altstack := Drop(m.altstack, 1)))
    else if i.opcode == OP_PICK || i.opcode == OP_ROLL then OnStack(m, PickOrRoll(i.opcode, m.stack))
    else if IsShuffle(i.opcode) then OnStack(m, Shuffle(i.opcode, m.stack))
    else if i.opcode == OP_SIZE then
      if |m.stack| < 1 then Rejected else Ok(m.(stack := m.stack + [GetVch(|Top(m.stack, 1)|)]))
    else if i.opcode == OP_EQUAL || i.opcode == OP_EQUALVERIFY then
      if |m.stack| < 2 then Rejected
      else OnStack(m, Conclude(i.opcode == OP_EQUALVERIFY, Drop(m.stack, 2), Truth(Top(m.stack, 2) == Top(m.stack, 1))))
    else if IsUnary(i.opcode) || IsBinary(i.opcode) || i.opcode == OP_WITHIN then
      OnStack(m, Arithmetic(i.opcode, m.stack))
    else if OP_RIPEMD160 <= i.opcode <= OP_HASH256 then OnStack(m, HashOp(c, i.opcode, m.stack))
    else if i.opcode == OP_CODESEPARATOR then Ok(m.(code := i.tail))
    else if i.opcode == OP_CHECKSIG || i.opcode == OP_CHECKSIGVERIFY then
      CheckSigOp(c, i.opcode == OP_CHECKSIGVERIFY, m)
    else if i.opcode == OP_CHECKMULTISIG || i.opcode == OP_CHECKMULTISIGVERIFY then
      CheckMultisigOp(c, i.opcode == OP_CHECKMULTISIGVERIFY, m)
    else Rejected
  }

  /** The tests and the counting that come before any instruction, executed or not. */
  function Count(i: Instr, m: Machine): Outcome<Machine> {
    if |i.data| > MAX_ELEMENT_SIZE || Disabled(i.opcode) then Rejected
    else if i.opcode <= OP_16 then Ok(m)
    else if m.nOpCount + 1 > MAX_OPS then Rejected
    else Ok(m.(nOpCount := m.nOpCount + 1))
  }

  function Limit(m: Machine): Outcome<Machine> {
    if |m.stack| + |m.altstack| > MAX_STACK then Rejected else Ok(m)
  }

  /** The value an IF or NOTIF puts on the stack of conditions, and the machine after it. */
  function Test(opcode: byte, fExec: bool, m: Machine): Outcome<(Machine, bool)> {
    if !fExec then Ok((m, false))
    else if |m.stack| < 1 then Rejected
    else Ok((m.(stack := Drop(m.stack, 1)), CastToBool(Top(m.stack, 1)) != (opcode == OP_NOTIF)))
  }
}
