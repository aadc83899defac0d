/** The 58 symbols (src/base58.h): digits and letters without zero, capital I and O, and small l. */
module Base58Alphabet {

  function LetterCode(i: nat): int {
    if i < 9 then '1' as int + i
    else if i < 17 then 'A' as int + (i - 9)
    else if i < 22 then 'J' as int + (i - 17)
    else if i < 33 then 'P' as int + (i - 22)
    else if i < 44 then 'a' as int + (i - 33)
    else 'm' as int + (i - 44)
  }

  /** pszBase58[i] */
  function Symbol(i: nat): (c: char)
    requires i < 58
    ensures c as int == LetterCode(i)
  {
    if i < 9 then "123456789"[i]
    else if i < 17 then "ABCDEFGH"[i - 9]
    else if i < 22 then "JKLMN"[i - 17]
    else if i < 33 then "PQRSTUVWXYZ"[i - 22]
    else if i < 44 then "abcdefghijk"[i - 33]
    else "mnopqrstuvwxyz"[i - 44]
  }
}

/** Base-58 text (src/base58.h). */
module Base58 {
  import opened Common
  import opened Base58Alphabet
  import opened Compact

  predicate IsSpace(c: char) {
    c in {' ', '\t', '\n', '\r', '\U{000B}', '\U{000C}'}
  }

  /** strchr(pszBase58, c): the position of a character in the alphabet, or 58. */
  function DigitFrom(c: char, i: nat): (d: nat)
    requires i <= 58
    ensures i <= d <= 58 && (d < 58 ==> Symbol(d) == c) && (d == 58 ==> forall j :: i <= j < 58 ==> Symbol(j) != c)
    decreases 58 - i
  {
    if i == 58 || Symbol(i) == c then i else DigitFrom(c, i + 1)
  }

  function DigitOf(c: char): (d: nat)
    ensures d <= 58
  {
    DigitFrom(c, 0)
  }

  lemma AlphabetDistinct(i: nat, j: nat)
    requires i < j < 58
    ensures Symbol(i) != Symbol(j)
  {
    hide Symbol;
  }

  lemma NoBlankInAlphabet(i: nat)
    requires i < 58
    ensures !IsSpace(Symbol(i)) && Symbol(i) != '\0'
  {
    hide Symbol;
  }

  lemma DigitOfDigit(d: nat)
    requires d < 58
    ensures DigitOf(Symbol(d)) == d
  {
    hide Symbol;
    var e := DigitOf(Symbol(d));
    if e < d {
      AlphabetDistinct(e, d);
    }
  }

  // ----- encoding -----

  /** The digits of the division loop, least significant first. */
  function Digits58(n: nat): (ds: seq<nat>)
    ensures forall i :: 0 <= i < |ds| ==> ds[i] < 58
  {
    if n == 0 then [] else [n % 58] + Digits58(n / 58)
  }

  function Letters(ds: seq<nat>): (s: string)
    requires forall i :: 0 <= i < |ds| ==> ds[i] < 58
    ensures |s| == |ds|
  {
    seq(|ds|, i requires 0 <= i < |ds| => Symbol(ds[i]))
  }

  function LeadingZeros(v: seq<int>): (n: nat)
    ensures n <= |v| && (forall i :: 0 <= i < n ==> v[i] == 0) && (n < |v| ==> v[n] != 0)
  {
    if v == [] || v[0] != 0 then 0 else 1 + LeadingZeros(v[1..])
  }

  function Ones(n: nat): string {
    seq(n, _ => Symbol(0))
  }

  function Encode(v: Bytes): string {
    Ones(LeadingZeros(v)) + Reverse(Letters(Digits58(BigEndian(v))))
  }

  lemma {:induction false} BigEndianOfZeroFirst(v: Bytes)
    ensures BigEndian([0] + v) == BigEndian(v)
    decreases |v|
  {
    var w := [0] + v;
    if v != [] {
      BigEndianOfZeroFirst(v[..|v| - 1]);
      assert w[..|w| - 1] == [0] + v[..|v| - 1];
    }
  }

  /** The division loop of EncodeBase58. */
  method DivisionLoop(n: nat) returns (str: string)
    ensures str == Letters(Digits58(n))
  {
    hide Digits58, Letters, Symbol;
    var bn := n;
    str := "";
    while bn > 0
      invariant bn >= 0 && str + Letters(Digits58(bn)) == Letters(Digits58(n))
      decreases bn
    {
      NextDigit(bn);
      var c := bn % 58;
      bn := bn / 58;
      str := str + [Symbol(c)];
    }
    NextDigit(0);
  }

  /** EncodeBase58. */
  method EncodeBase58(v: Bytes) returns (str: string)
    ensures str == Encode(v)
  {
    hide Digits58, ToMpi, Letters, Symbol, FromMpi;
    var vchTmp := Reverse(v) + [0];
    SetPositive(v);
    var bn := SetVch(vchTmp);
    str := DivisionLoop(bn);
    ghost var body := str;
    var p := 0;
    while p < |v| && v[p] == 0
      invariant 0 <= p <= LeadingZeros(v) && str == body + Ones(p)
    {
      p := p + 1;
      str := str + [Symbol(0)];
    }
    ReverseBehind(body, p);
    str := Reverse(str);
  }

  lemma SetPositive(v: Bytes)
    ensures SetVch(Reverse(v) + [0]) == BigEndian(v)
  {
    assert Reverse(Reverse(v) + [0]) == [0] + v;
    BigEndianOfZeroFirst(v);
  }

  lemma ReverseBehind(s: string, n: nat)
    ensures Reverse(s + Ones(n)) == Ones(n) + Reverse(s)
  {
    hide Symbol;
  }

  lemma NextDigit(n: nat)
    ensures n == 0 ==> Letters(Digits58(n)) == []
    ensures n > 0 ==> Letters(Digits58(n)) == [Symbol(n % 58)] + Letters(Digits58(n / 58))
  {
    hide Symbol;
  }

  // ----- decoding -----

  predicate AtEnd(s: string, p: nat) {
    p >= |s| || s[p] == '\0'
  }

  function SkipSpaces(s: string, p: nat): (q: nat)
    requires p <= |s|
    ensures p <= q <= |s|
    decreases |s| - p
  {
    if p < |s| && IsSpace(s[p]) then SkipSpaces(s, p + 1) else p
  }

  /** The multiplication loop; blanks are allowed behind the last digit. */
  function Accumulate(s: string, p: nat, bn: nat): Outcome<nat>
    requires p <= |s|
    decreases |s| - p
  {
    if AtEnd(s, p) then Ok(bn)
    else if DigitOf(s[p]) < 58 then Accumulate(s, p + 1, bn * 58 + DigitOf(s[p]))
    else if AtEnd(s, SkipSpaces(s, p)) then Ok(bn)
    else Rejected
  }

  function LeadingOnes(s: string, p: nat): (n: nat)
    requires p <= |s|
    ensures p + n <= |s| && (forall i :: p <= i < p + n ==> s[i] == Symbol(0))
            && (p + n < |s| ==> s[p + n] != Symbol(0))
    decreases |s| - p
  {
    if p < |s| && s[p] == Symbol(0) then 1 + LeadingOnes(s, p + 1) else 0
  }

  /** The bytes of a number, most significant first, without the byte that only carries the
      sign. */
  function Magnitude(bn: nat): Bytes {
    Trim(ToMpi(bn))
  }

  function Zeros(n: nat): Bytes {
    seq(n, _ => 0)
  }

  function Decode(s: string): Outcome<Bytes> {
    var start := SkipSpaces(s, 0);
    var bn :- Accumulate(s, start, 0);
    Ok(Zeros(LeadingOnes(s, start)) + Magnitude(bn))
  }

  /** The multiplication loop of DecodeBase58. */
  method MultiplicationLoop(s: string, psz: nat) returns (ok: bool, bn: nat)
    requires psz <= |s|
    ensures ok == Accumulate(s, psz, 0).Ok? && (ok ==> bn == Accumulate(s, psz, 0).value)
  {
    hide DigitOf, IsSpace;
    bn := 0;
    var p: nat := psz;
    while !AtEnd(s, p)
      invariant p <= |s| && Accumulate(s, p, bn) == Accumulate(s, psz, 0)
      decreases |s| - p
    {
      var d := DigitOf(s[p]);
      if d == 58 {
        ghost var q := p;
        while p < |s| && IsSpace(s[p])
          invariant p <= |s| && SkipSpaces(s, p) == SkipSpaces(s, q)
        {
          p := p + 1;
        }
        ok := AtEnd(s, p);
        return;
      }
      bn := bn * 58 + d;
      p := p + 1;
    }
    ok := true;
  }

  lemma ReverseParts<T>(s: seq<T>)
    ensures Reverse(Reverse(s)) == s
    ensures s != [] ==> Reverse(s[..|s| - 1]) == Reverse(s)[1..] && Reverse(s)[0] == s[|s| - 1]
    ensures s != [] ==> Reverse(s[1..]) == Reverse(s)[..|s| - 1] && Reverse(s)[|s| - 1] == s[0]
    ensures |s| >= 2 ==> Reverse(s)[1] == s[|s| - 2]
  {
  }

  function Trim(m: Bytes): Bytes {
    if |m| >= 2 && m[0] == 0 && m[1] >= 0x80 then m[1..] else m
  }

  lemma TrimReversed(v: Bytes)
    ensures Trim(Reverse(v)) == Reverse(if |v| >= 2 && v[|v| - 1] == 0 && v[|v| - 2] >= 0x80 then v[..|v| - 1] else v)
  {
    ReverseParts(v);
    hide Reverse;
  }

  method TrimmedBytes(bn: nat) returns (vchTmp: Bytes)
    ensures Reverse(vchTmp) == Magnitude(bn)
  {
    hide ToMpi, Reverse, Trim;
    vchTmp := GetVch(bn);
    ReverseParts(ToMpi(bn));
    TrimReversed(vchTmp);
    var m := |vchTmp|;
    if m >= 2 && vchTmp[m - 1] == 0 && vchTmp[m - 2] >= 0x80 {
      vchTmp := vchTmp[..m - 1];
    }
  }

  /** DecodeBase58. */
  method DecodeBase58(s: string) returns (ok: bool, vchRet: Bytes)
    ensures ok == Decode(s).Ok? && (ok ==> vchRet == Decode(s).value)
  {
    hide ToMpi, DigitOf, Symbol, Magnitude, Accumulate, IsSpace;
    vchRet := [];
    var psz: nat := 0;
    while psz < |s| && IsSpace(s[psz])
      invariant psz <= |s| && SkipSpaces(s, psz) == SkipSpaces(s, 0)
    {
      psz := psz + 1;
    }
    var bn;
    ok, bn := MultiplicationLoop(s, psz);
    if !ok {
      return;
    }
    var vchTmp := TrimmedBytes(bn);
    var nLeadingZeros, p := 0, psz;
    while p < |s| && s[p] == Symbol(0)
      invariant psz <= p <= |s| && nLeadingZeros == p - psz
      invariant nLeadingZeros + LeadingOnes(s, p) == LeadingOnes(s, psz)
    {
      nLeadingZeros := nLeadingZeros + 1;
      p := p + 1;
    }
    vchRet := Zeros(nLeadingZeros) + Reverse(vchTmp);
  }

  // ----- the bytes of a number -----

  predicate NoLeadingZero(v: Bytes) {
    v == [] || v[0] != 0
  }

  lemma {:induction false} DigitsDrop(t: nat, m: nat)
    requires t < Pow256(m)
    ensures Digits(t, m + 1) == [0] + Digits(t, m)
    decreases m
  {
    if m > 0 {
      DigitsDrop(t / 256, m - 1);
    }
  }

  lemma MagnitudeExact(n: nat)
    ensures NoLeadingZero(Magnitude(n)) && BigEndian(Magnitude(n)) == n
  {
    hide Digits, BigEndian, LengthFrom;
    var m := MpiLength(n);
    if m == 0 {
      DigitsValue(n, 0);
    } else {
      DigitsValue(n, m);
      FirstDigit(n, m);
      if Digits(n, m)[0] == 0 {
        SmallQuotient(n, Pow256(m - 1));
        if m >= 2 {
          DigitsDrop(n, m - 1);
          FirstDigit(n, m - 1);
          QuotientAtLeast(n, Pow256(m - 2), 128);
          DigitsValue(n, m - 1);
        }
      }
    }
  }

  lemma SmallQuotient(t: nat, d: nat)
    requires d > 0
    ensures t / d == 0 ==> t < d
  {
    DivMod(t, d);
  }

  lemma {:induction false} BigEndianUnique(a: Bytes, b: Bytes)
    requires NoLeadingZero(a) && NoLeadingZero(b) && BigEndian(a) == BigEndian(b)
    ensures a == b
    decreases |a|
  {
    if a == [] {
      if b != [] {
        NonzeroValue(b);
      }
    } else if b == [] {
      NonzeroValue(a);
    } else {
      var x, y := a[..|a| - 1], b[..|b| - 1];
      assert BigEndian(a) == BigEndian(x) * 256 + a[|a| - 1] && BigEndian(b) == BigEndian(y) * 256 + b[|b| - 1];
      BigEndianUnique(x, y);
      assert a == x + [a[|a| - 1]] && b == y + [b[|b| - 1]];
    }
  }

  lemma {:induction false} NonzeroValue(b: Bytes)
    requires b != [] && b[0] != 0
    ensures BigEndian(b) > 0
    decreases |b|
  {
    if |b| > 1 {
      NonzeroValue(b[..|b| - 1]);
    }
  }

  lemma {:induction false} ZerosValue(n: nat, v: Bytes)
    ensures BigEndian(Zeros(n) + v) == BigEndian(v)
    decreases n
  {
    if n == 0 {
      assert Zeros(0) + v == v;
    } else {
      ZerosValue(n - 1, v);
      BigEndianOfZeroFirst(Zeros(n - 1) + v);
      assert Zeros(n) + v == [0] + (Zeros(n - 1) + v);
    }
  }

  // ----- the digits of a number -----

  /** The value after reading further digits, most significant first. */
  function ValueFrom(bn: nat, es: seq<nat>): nat
    decreases |es|
  {
    if es == [] then bn else ValueFrom(bn * 58 + es[0], es[1..])
  }

  predicate Small(es: seq<nat>) {
    forall i :: 0 <= i < |es| ==> es[i] < 58
  }

  lemma {:induction false} ValueOfLonger(bn: nat, es: seq<nat>, d: nat)
    ensures ValueFrom(bn, es + [d]) == ValueFrom(bn, es) * 58 + d
    decreases |es|
  {
    if es != [] {
      ValueOfLonger(bn * 58 + es[0], es[1..], d);
      assert (es + [d])[1..] == es[1..] + [d];
    } else {
      assert es + [d] == [d];
    }
  }

  /** The digits of a number, most significant first. */
  function Spelled(n: nat): (es: seq<nat>)
    ensures Small(es)
  {
    Reverse(Digits58(n))
  }

  lemma SpelledNext(n: nat, d: nat)
    requires d < 58 && (n > 0 || d > 0)
    ensures Spelled(n * 58 + d) == Spelled(n) + [d]
    ensures Spelled(0) == []
  {
    assert (n * 58 + d) % 58 == d && (n * 58 + d) / 58 == n;
    assert Digits58(n * 58 + d) == [d] + Digits58(n);
    hide Digits58;
  }

  lemma {:induction false} DigitsValue58(n: nat)
    ensures ValueFrom(0, Spelled(n)) == n
    ensures if n == 0 then Spelled(n) == [] else Spelled(n) != [] && Spelled(n)[0] != 0
    decreases n
  {
    hide Spelled;
    if n == 0 {
      SpelledNext(0, 1);
    } else {
      var q, d := n / 58, n % 58;
      DigitsValue58(q);
      SpelledNext(q, d);
      ValueOfLonger(0, Spelled(q), d);
    }
  }

  lemma {:induction false} DigitsUnique58(es: seq<nat>)
    requires Small(es) && (es != [] ==> es[0] != 0)
    ensures Spelled(ValueFrom(0, es)) == es
    ensures es != [] ==> ValueFrom(0, es) > 0
    decreases |es|
  {
    hide Spelled, ValueFrom;
    if es == [] {
      NoDigits();
    } else {
      var front, d := es[..|es| - 1], es[|es| - 1];
      assert es == front + [d];
      DigitsUnique58(front);
      ValueOfLonger(0, front, d);
      NoDigits();
      SpelledNext(ValueFrom(0, front), d);
    }
  }

  lemma NoDigits()
    ensures ValueFrom(0, []) == 0 && Spelled(0) == []
  {
    SpelledNext(0, 1);
  }

  /** The loop reads a run of symbols to the end of the text. */
  lemma {:induction false} AccumulateSymbols(s: string, p: nat, bn: nat, es: seq<nat>)
    requires Small(es) && p <= |s| && s[p..] == Letters(es)
    ensures Accumulate(s, p, bn) == Ok(ValueFrom(bn, es))
    decreases |es|
  {
    hide Symbol, DigitOf, IsSpace;
    if es != [] {
      assert s[p] == s[p..][0] == Symbol(es[0]);
      DigitOfDigit(es[0]);
      NoBlankInAlphabet(es[0]);
      assert s[p + 1..] == s[p..][1..] == Letters(es[1..]);
      AccumulateSymbols(s, p + 1, bn * 58 + es[0], es[1..]);
    }
  }

  lemma {:induction false} ValueOfZeros(k: nat, es: seq<nat>)
    ensures ValueFrom(0, seq(k, _ => 0) + es) == ValueFrom(0, es)
    decreases k
  {
    var zeros := seq(k, _ => 0);
    if k == 0 {
      assert zeros + es == es;
    } else {
      ValueOfZeros(k - 1, es);
      assert (zeros + es)[1..] == seq(k - 1, _ => 0) + es;
    }
  }

  /** Decoding a text that consists of `k` symbols for zero and further digits. */
  lemma DecodeSymbols(k: nat, es: seq<nat>)
    requires Small(es) && (es != [] ==> es[0] != 0)
    ensures Decode(Ones(k) + Letters(es)) == Ok(Zeros(k) + Magnitude(ValueFrom(0, es)))
  {
    hide Symbol, Magnitude, Accumulate, IsSpace, DigitOf, ValueFrom;
    var s, all := Ones(k) + Letters(es), seq(k, _ => 0) + es;
    assert s == Letters(all) && s[0..] == s;
    AccumulateSymbols(s, 0, 0, all);
    ValueOfZeros(k, es);
    if s != [] {
      NoBlankInAlphabet(all[0]);
    }
    OnesAreLeading(s, 0, k, es);
  }

  lemma {:induction false} OnesAreLeading(s: string, p: nat, k: nat, es: seq<nat>)
    requires Small(es) && (es != [] ==> es[0] != 0) && p <= |s| && s[p..] == Ones(k) + Letters(es)
    ensures LeadingOnes(s, p) == k
    decreases k
  {
    hide Symbol;
    if k > 0 {
      assert s[p] == s[p..][0];
      assert s[p + 1..] == s[p..][1..] == Ones(k - 1) + Letters(es);
      OnesAreLeading(s, p + 1, k - 1, es);
    } else if es != [] {
      assert s[p] == s[p..][0] == Symbol(es[0]);
      AlphabetDistinct(0, es[0]);
    }
  }

  // ----- what the text means -----

  const ALPHABET := "123456789" + "ABCDEFGH" + "JKLMN" + "PQRSTUVWXYZ" + "abcdefghijk" + "mnopqrstuvwxyz"

  lemma AlphabetExact(i: nat)
    requires i < 58
    ensures |ALPHABET| == 58 && Symbol(i) == ALPHABET[i]
  {
  }

  /** The text starts with a symbol '1' for every leading zero byte; the rest are the digits of the
      big-endian number, most significant first and without leading zeros. */
  lemma EncodeMeans(v: Bytes) returns (zeros: nat, es: seq<nat>)
    ensures zeros <= |v| && (forall i :: 0 <= i < zeros ==> v[i] == 0) && (zeros < |v| ==> v[zeros] != 0)
    ensures |Encode(v)| == zeros + |es| && (forall i :: 0 <= i < zeros ==> Encode(v)[i] == '1')
    ensures forall i :: 0 <= i < |es| ==> es[i] < 58 && Encode(v)[zeros + i] == ALPHABET[es[i]]
    ensures ValueFrom(0, es) == BigEndian(v) && (es != [] ==> es[0] != 0)
  {
    hide BigEndian, Spelled, Symbol, ValueFrom;
    zeros, es := LeadingZeros(v), Spelled(BigEndian(v));
    SpelledLetters(BigEndian(v));
    DigitsValue58(BigEndian(v));
    AlphabetExact(0);
    forall i | 0 <= i < |es| ensures es[i] < 58 && Letters(es)[i] == ALPHABET[es[i]] {
      AlphabetExact(es[i]);
    }
  }

  // ----- round trips -----

  /** Decoding undoes encoding, for every byte vector: leading zero bytes come back, and all of
      them if there is nothing else. */
  lemma DecodeUndoesEncode(v: Bytes)
    ensures Decode(Encode(v)) == Ok(v)
  {
    hide Magnitude, BigEndian, Spelled, Decode, Symbol, ValueFrom;
    var k, n := LeadingZeros(v), BigEndian(v);
    var es := Spelled(n);
    SpelledLetters(n);
    DigitsValue58(n);
    DecodeSymbols(k, es);
    assert v == Zeros(k) + v[k..];
    ZerosValue(k, v[k..]);
    MagnitudeExact(n);
    BigEndianUnique(Magnitude(n), v[k..]);
  }

  lemma SpelledLetters(n: nat)
    ensures Reverse(Letters(Digits58(n))) == Letters(Spelled(n))
  {
    hide Symbol, Digits58;
  }

  /** A text of nothing but symbols always decodes, and is the encoding of what it decodes to:
      no two such texts stand for the same bytes. */
  lemma EncodeUndoesDecode(es: seq<nat>)
    requires Small(es)
    ensures Decode(Letters(es)).Ok? && Encode(Decode(Letters(es)).value) == Letters(es)
  {
    hide Magnitude, BigEndian, Spelled, Decode, Symbol, ValueFrom;
    var k := LeadingZeros(es);
    var ds := es[k..];
    assert Letters(es) == Ones(k) + Letters(ds);
    DecodeSymbols(k, ds);
    var n := ValueFrom(0, ds);
    DigitsUnique58(ds);
    MagnitudeExact(n);
    ZerosValue(k, Magnitude(n));
    ZerosLead(k, Magnitude(n));
    SpelledLetters(n);
  }

  lemma {:induction false} ZerosLead(k: nat, v: Bytes)
    requires NoLeadingZero(v)
    ensures LeadingZeros(Zeros(k) + v) == k
    decreases k
  {
    if k == 0 {
      assert Zeros(0) + v == v;
    } else {
      ZerosLead(k - 1, v);
      assert (Zeros(k) + v)[1..] == Zeros(k - 1) + v;
    }
  }

  // ----- which texts decode -----

  /** Nothing but blanks: tab, line feed, vertical tab, form feed, carriage return, space. */
  predicate Blanks(s: string) {
    forall i :: 0 <= i < |s| ==> s[i] as int in {9, 10, 11, 12, 13, 32}
  }

  /** The text behind its end: nothing, or whatever follows the character that ends it. */
  predicate Over(tail: string) {
    tail == "" || tail[0] as int == 0
  }

  lemma BlankIsSpace(c: char)
    ensures IsSpace(c) <==> c as int in {9, 10, 11, 12, 13, 32}
  {
  }

  lemma BlankIsNoSymbol(c: char)
    requires c as int in {0, 9, 10, 11, 12, 13, 32}
    ensures DigitOf(c) == 58 && c != Symbol(0)
  {
    hide LetterCode;
    var d := DigitOf(c);
    BlankIsSpace(c);
    NoBlankInAlphabet(0);
    if d < 58 {
      NoBlankInAlphabet(d);
    }
  }

  lemma {:induction false} SkipRun(s: string, p: nat, q: nat)
    requires p <= q <= |s| && Blanks(s[p..q]) && (q < |s| ==> !IsSpace(s[q]))
    ensures SkipSpaces(s, p) == q
    decreases q - p
  {
    hide IsSpace;
    if p < q {
      assert s[p..q][0] == s[p];
      BlankIsSpace(s[p]);
      assert s[p + 1..q] == s[p..q][1..];
      SkipRun(s, p + 1, q);
    }
  }

  lemma {:induction false} SkippedBlanks(s: string, p: nat)
    requires p <= |s|
    ensures Blanks(s[p..SkipSpaces(s, p)]) && (SkipSpaces(s, p) < |s| ==> !IsSpace(s[SkipSpaces(s, p)]))
    decreases |s| - p
  {
    hide IsSpace;
    if p < |s| && IsSpace(s[p]) {
      SkippedBlanks(s, p + 1);
      BlankIsSpace(s[p]);
      var q := SkipSpaces(s, p);
      assert s[p..q] == [s[p]] + s[p + 1..q];
    }
  }

  lemma {:induction false} AccumulateRun(s: string, p: nat, bn: nat, es: seq<nat>)
    requires Small(es) && p + |es| <= |s| && s[p..p + |es|] == Letters(es)
    ensures Accumulate(s, p, bn) == Accumulate(s, p + |es|, ValueFrom(bn, es))
    decreases |es|
  {
    hide Symbol, DigitOf, IsSpace;
    if es != [] {
      assert s[p] == s[p..p + |es|][0] == Symbol(es[0]);
      DigitOfDigit(es[0]);
      NoBlankInAlphabet(es[0]);
      assert s[p + 1..p + |es|] == s[p..p + |es|][1..] == Letters(es[1..]);
      AccumulateRun(s, p + 1, bn * 58 + es[0], es[1..]);
    }
  }

  /** Behind the symbols come blanks and the end. */
  lemma AccumulateStops(s: string, q: nat, bn: nat, post: string, tail: string)
    requires q <= |s| && s[q..] == post + tail && Blanks(post) && Over(tail)
    ensures Accumulate(s, q, bn) == Ok(bn)
    ensures q < |s| ==> s[q] != Symbol(0)
  {
    hide Symbol, DigitOf, IsSpace, Accumulate;
    if q < |s| {
      assert s[q] == (post + tail)[0];
      BlankIsNoSymbol(s[q]);
    }
    if post != "" {
      var r := q + |post|;
      assert s[q..r] == s[q..][..|post|] == post;
      if r < |s| {
        assert s[r] == s[q..][|post|] == tail[0];
        BlankIsSpace(s[r]);
      }
      SkipRun(s, q, r);
      AccumulateAtBlank(s, q, bn);
    } else {
      AccumulateAtEnd(s, q, bn);
    }
  }

  lemma AccumulateAtBlank(s: string, q: nat, bn: nat)
    requires q < |s| && DigitOf(s[q]) == 58 && AtEnd(s, SkipSpaces(s, q))
    ensures Accumulate(s, q, bn) == Ok(bn)
  {
  }

  lemma AccumulateAtEnd(s: string, q: nat, bn: nat)
    requires q <= |s| && AtEnd(s, q)
    ensures Accumulate(s, q, bn) == Ok(bn)
  {
  }

  lemma {:induction false} OnesOfRun(s: string, p: nat, es: seq<nat>)
    requires Small(es) && p + |es| <= |s| && s[p..p + |es|] == Letters(es)
    requires p + |es| < |s| ==> s[p + |es|] != Symbol(0)
    ensures LeadingOnes(s, p) == LeadingZeros(es)
    decreases |es|
  {
    hide Symbol;
    if es != [] {
      assert s[p] == s[p..p + |es|][0] == Symbol(es[0]);
      assert s[p + 1..p + |es|] == s[p..p + |es|][1..] == Letters(es[1..]);
      if es[0] == 0 {
        OnesOfRun(s, p + 1, es[1..]);
      } else {
        AlphabetDistinct(0, es[0]);
      }
    }
  }

  /** Blanks on both sides of a run of symbols make no difference. */
  lemma BlanksIgnored(pre: string, es: seq<nat>, post: string, tail: string)
    requires Blanks(pre) && Small(es) && Blanks(post) && Over(tail)
    ensures Decode(pre + Letters(es) + post + tail) == Decode(Letters(es))
  {
    hide Symbol, DigitOf, IsSpace, Accumulate, ValueFrom, Magnitude, Letters;
    var s, p := pre + Letters(es) + post + tail, |pre|;
    if es != [] || post == "" {
      DecodeAt(s, p, es, post, tail);
      assert s[..p] == pre;
    } else {
      assert Letters(es) == "";
      DecodeAt(s, p + |post|, es, "", tail);
      assert s[..p + |post|] == pre + post;
    }
    DecodeAt(Letters(es), 0, es, "", "");
  }

  lemma DecodeAt(s: string, p: nat, es: seq<nat>, post: string, tail: string)
    requires p <= |s| && Blanks(s[..p]) && Small(es) && Blanks(post) && Over(tail)
    requires s[p..] == Letters(es) + post + tail
    requires es != [] || post == ""
    ensures Decode(s) == Ok(Zeros(LeadingZeros(es)) + Magnitude(ValueFrom(0, es)))
  {
    hide Symbol, DigitOf, IsSpace, Accumulate, ValueFrom, Magnitude, Letters;
    var q := p + |es|;
    assert s[p..q] == s[p..][..|es|] == Letters(es);
    assert s[q..] == s[p..][|es|..] == post + tail;
    if p < |s| {
      if es != [] {
        FirstLetter(s, p, es);
        NoBlankInAlphabet(es[0]);
      } else {
        BlankIsSpace(s[p]);
      }
    }
    assert s[0..p] == s[..p];
    SkipRun(s, 0, p);
    AccumulateRun(s, p, 0, es);
    AccumulateStops(s, q, ValueFrom(0, es), post, tail);
    OnesOfRun(s, p, es);
  }

  lemma FirstLetter(s: string, p: nat, es: seq<nat>)
    requires Small(es) && es != [] && p + |es| <= |s| && s[p..p + |es|] == Letters(es)
    ensures s[p] == Symbol(es[0])
  {
    assert s[p] == s[p..p + |es|][0];
  }

  lemma DecodedNumber(s: string)
    requires Decode(s).Ok?
    ensures Accumulate(s, SkipSpaces(s, 0), 0).Ok?
  {
  }

  lemma Whole(s: string, p: nat, a: string, b: string, c: string)
    requires p <= |s| && s[p..] == a + b + c
    ensures s == s[..p] + a + b + c
  {
    assert s == s[..p] + s[p..];
  }

  /** And no other text decodes. */
  lemma DecodedText(s: string) returns (pre: string, es: seq<nat>, post: string, tail: string)
    requires Decode(s).Ok?
    ensures Blanks(pre) && Small(es) && Blanks(post) && Over(tail) && s == pre + Letters(es) + post + tail
  {
    hide Symbol, Accumulate, Letters, Decode, SkipSpaces, Blanks;
    var p := SkipSpaces(s, 0);
    DecodedNumber(s);
    SkippedBlanks(s, 0);
    pre := s[..p];
    assert s[0..p] == pre;
    es, post, tail := AccumulatedText(s, p, 0);
    Whole(s, p, Letters(es), post, tail);
  }

  lemma {:induction false} AccumulatedText(s: string, p: nat, bn: nat)
    returns (es: seq<nat>, post: string, tail: string)
    requires p <= |s| && Accumulate(s, p, bn).Ok?
    ensures Small(es) && Blanks(post) && Over(tail) && s[p..] == Letters(es) + post + tail
    decreases |s| - p
  {
    hide Symbol, DigitOf, IsSpace;
    if AtEnd(s, p) {
      es, post, tail := [], "", s[p..];
    } else if DigitOf(s[p]) < 58 {
      var ds;
      ds, post, tail := AccumulatedText(s, p + 1, bn * 58 + DigitOf(s[p]));
      es := [DigitOf(s[p])] + ds;
      assert s[p..] == [s[p]] + s[p + 1..];
      DigitIsSymbol(s[p]);
      assert Letters(es) == [s[p]] + Letters(ds);
    } else {
      var q := SkipSpaces(s, p);
      SkippedBlanks(s, p);
      es, post, tail := [], s[p..q], s[q..];
      assert s[p..] == post + tail;
    }
  }

  lemma DigitIsSymbol(c: char)
    requires DigitOf(c) < 58
    ensures Symbol(DigitOf(c)) == c
  {
  }

  // ----- checked forms -----

  type Checksum = f: Bytes -> Bytes | forall v :: |f(v)| == 4 witness (v: Bytes) => [0, 0, 0, 0]

  /** EncodeBase58Check; `sum` gives the first four bytes of the hash. */
  function EncodeCheck(sum: Checksum, v: Bytes): string {
    Encode(v + sum(v))
  }

  function DecodeCheck(sum: Checksum, s: string): Outcome<Bytes> {
    var v :- Decode(s);
    if |v| < 4 then Rejected
    else
      var payload := v[..|v| - 4];
      if sum(payload) != v[|v| - 4..] then Rejected else Ok(payload)
  }

  /** Every payload is recovered, and what a checked text of symbols decodes to encodes to it. */
  lemma CheckedRoundTrip(sum: Checksum, v: Bytes)
    ensures DecodeCheck(sum, EncodeCheck(sum, v)) == Ok(v)
  {
    hide Encode, Decode;
    DecodeUndoesEncode(v + sum(v));
  }

  lemma CheckedTextIsCanonical(sum: Checksum, es: seq<nat>)
    requires Small(es) && DecodeCheck(sum, Letters(es)).Ok?
    ensures EncodeCheck(sum, DecodeCheck(sum, Letters(es)).value) == Letters(es)
  {
    hide Encode, Decode;
    EncodeUndoesDecode(es);
    var v := Decode(Letters(es)).value;
    assert v == v[..|v| - 4] + v[|v| - 4..];
  }
}
