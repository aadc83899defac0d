/** Big numbers in MPI format, compact targets, and the difficulty retarget
    (src/bignum.h, src/main.cpp). */
module Compact {
  import opened Common

  // ----- the MPI byte format -----

  function BigEndian(bs: Bytes): nat {
    if bs == [] then 0 else BigEndian(bs[..|bs| - 1]) * 256 + bs[|bs| - 1]
  }

  /** The `m` low bytes of `t`, most significant first. */
  function Digits(t: nat, m: nat): (bs: Bytes)
    ensures |bs| == m
    decreases m
  {
    if m == 0 then [] else Digits(t / 256, m - 1) + [t % 256]
  }

  /** The first number that no longer fits in `m` bytes with a clear sign bit. */
  function MpiLimit(m: nat): nat {
    if m == 0 then 1 else 128 * Pow256(m - 1)
  }

  lemma MpiLimitGrows(m: nat)
    ensures MpiLimit(m) < MpiLimit(m + 1) && MpiLimit(m + 1) >= 2
  {
  }

  /** Number of bytes BN_bn2mpi needs for the magnitude `t`, at least `m`. */
  function LengthFrom(t: nat, m: nat): (r: nat)
    ensures r >= m && t < MpiLimit(r) && (r > m ==> t >= MpiLimit(r - 1))
    decreases t - MpiLimit(m)
  {
    if t < MpiLimit(m) then m
    else
      MpiLimitGrows(m);
      LengthFrom(t, m + 1)
  }

  function MpiLength(t: nat): nat {
    LengthFrom(t, 0)
  }

  /** BN_bn2mpi without its length prefix. */
  function ToMpi(v: int): Bytes {
    if v >= 0 then Digits(v, MpiLength(v))
    else
      var bs := Digits(-v, MpiLength(-v));
      if bs == [] || bs[0] >= 128 then bs else bs[0 := bs[0] + 128]
  }

  /** BN_mpi2bn: the top bit of the first byte is the sign. */
  function FromMpi(bs: Bytes): int {
    if bs == [] then 0
    else if bs[0] >= 128 then -(BigEndian(bs[0 := bs[0] - 128]) as int)
    else BigEndian(bs)
  }

  lemma {:induction false} DigitsValue(t: nat, m: nat)
    requires t < Pow256(m)
    ensures BigEndian(Digits(t, m)) == t
    decreases m
  {
    if m > 0 {
      DigitsValue(t / 256, m - 1);
      assert Digits(t, m)[..m - 1] == Digits(t / 256, m - 1);
    }
  }

  lemma {:induction false} FirstDigit(t: nat, m: nat)
    requires m > 0 && t < Pow256(m)
    ensures Digits(t, m)[0] == t / Pow256(m - 1)
    decreases m
  {
    if m == 1 {
      assert Digits(t, 1) == Digits(t / 256, 0) + [t % 256];
    } else {
      FirstDigit(t / 256, m - 1);
      DivTwice(t, 256, Pow256(m - 2));
      assert Digits(t, m)[0] == Digits(t / 256, m - 1)[0];
    }
  }

  lemma {:induction false} MulMonotone(a: nat, b: nat, d: nat)
    requires a <= b
    ensures a * d <= b * d
  {
  }

  lemma QuotientUnique(p: nat, q: nat, s: nat, r: nat, d: nat)
    requires p * d + s == q * d + r && s < d && r < d
    ensures p == q
  {
    if p < q {
      MulMonotone(p + 1, q, d);
    }
    if q < p {
      MulMonotone(q + 1, p, d);
    }
  }

  lemma DivMod(t: nat, d: nat)
    requires d > 0
    ensures t == (t / d) * d + t % d && t % d < d
  {
  }

  lemma DivUnique(t: nat, d: nat, q: nat, r: nat)
    requires d > 0 && t == q * d + r && r < d
    ensures t / d == q
  {
    DivMod(t, d);
    QuotientUnique(t / d, q, t % d, r, d);
  }

  lemma Compose(p: nat, b: nat, s: nat, a: nat, r: nat)
    requires s < b && r < a
    ensures (p * b + s) * a + r == p * (a * b) + (s * a + r)
    ensures s * a + r < a * b
  {
    assert (p * b + s) * a == (p * b) * a + s * a;
    assert (p * b) * a == p * (b * a);
    MulMonotone(s + 1, b, a);
    assert (s + 1) * a == s * a + a;
  }

  lemma DivTwice(t: nat, a: nat, b: nat)
    requires a > 0 && b > 0
    ensures (t / a) / b == t / (a * b)
  {
    var q, r := t / a, t % a;
    var p, s := q / b, q % b;
    DivMod(t, a);
    DivMod(q, b);
    Compose(p, b, s, a, r);
    DivUnique(t, a * b, p, s * a + r);
  }

  /** The sign bit is free in the bytes of a magnitude, so the sign can be put there and the
      number read back. */
  lemma MpiRoundTrip(v: int)
    ensures FromMpi(ToMpi(v)) == v
  {
    var t := if v >= 0 then v else -v;
    var m := MpiLength(t);
    var bs := Digits(t, m);
    if t > 0 {
      SignBitFree(t, m);
      DigitsValue(t, m);
    }
    SignRoundTrip(bs, v < 0);
    assert t == 0 ==> bs == [];
    hide BigEndian, Digits, MpiLength;
  }

  lemma SignRoundTrip(bs: Bytes, negative: bool)
    requires bs != [] ==> bs[0] < 128
    ensures FromMpi(if negative && bs != [] then bs[0 := bs[0] + 128] else bs)
              == if negative then -(BigEndian(bs) as int) else BigEndian(bs)
  {
    if negative && bs != [] {
      var signed := bs[0 := bs[0] + 128];
      assert signed[0 := signed[0] - 128] == bs;
    }
  }

  lemma SignBitFree(t: nat, m: nat)
    requires m > 0 && t < MpiLimit(m)
    ensures t < Pow256(m) && Digits(t, m)[0] < 128
  {
    FirstDigit(t, m);
    DivBelow(t, Pow256(m - 1), 128);
  }

  lemma DivBelow(t: nat, d: nat, k: nat)
    requires d > 0 && t < k * d
    ensures t / d < k
  {
    DivMod(t, d);
    if t / d >= k {
      MulMonotone(k, t / d, d);
      assert false;
    }
  }

  /** CBigNum::setvch and CBigNum::getvch. */
  function SetVch(b: Bytes): int {
    FromMpi(Reverse(b))
  }

  function GetVch(v: int): Bytes {
    Reverse(ToMpi(v))
  }

  lemma VchRoundTrip(v: int)
    ensures SetVch(GetVch(v)) == v
  {
    MpiRoundTrip(v);
    assert Reverse(Reverse(ToMpi(v))) == ToMpi(v);
  }

  // ----- compact targets -----

  /** The bytes that SetCompact hands to BN_mpi2bn: the three mantissa bytes, then zeros, cut
      or extended to the size in the top byte. */
  function CompactBytes(n: nat): Bytes {
    seq(n / 0x100_0000 % 256,
        i => if i == 0 then n / 0x1_0000 % 256 else if i == 1 then n / 256 % 256 else if i == 2 then n % 256 else 0)
  }

  function SetCompact(n: nat): int {
    FromMpi(CompactBytes(n))
  }

  function ByteAt(bs: Bytes, i: nat): byte {
    if i < |bs| then bs[i] else 0
  }

  /** The size and the first three bytes of the MPI form, in an unsigned int. */
  function GetCompact(v: int): nat {
    var bs := ToMpi(v);
    (|bs| * 0x100_0000 + ByteAt(bs, 0) * 0x1_0000 + ByteAt(bs, 1) * 256 + ByteAt(bs, 2)) % 0x1_0000_0000
  }

  lemma CompactFields(c: nat, size: nat, a: byte, b: byte, d: byte)
    requires size < 256 && c == size * 0x100_0000 + a * 0x1_0000 + b * 256 + d
    ensures c < 0x1_0000_0000 && c / 0x100_0000 == size && c / 0x100_0000 % 256 == size
    ensures c / 0x1_0000 % 256 == a && c / 256 % 256 == b && c % 256 == d
  {
    assert c / 256 == size * 0x1_0000 + a * 256 + b;
    assert c / 0x1_0000 == size * 256 + a;
  }

  /** The size and mantissa written by GetCompact are what SetCompact reads. */
  lemma CompactBytesOfGetCompact(v: int)
    requires |ToMpi(v)| < 256
    ensures var bs, cs := ToMpi(v), CompactBytes(GetCompact(v));
            |cs| == |bs| && forall i :: 0 <= i < |bs| ==> cs[i] == if i < 3 then bs[i] else 0
  {
    hide ToMpi;
    var bs := ToMpi(v);
    CompactFields(|bs| * 0x100_0000 + ByteAt(bs, 0) * 0x1_0000 + ByteAt(bs, 1) * 256 + ByteAt(bs, 2),
                  |bs|, ByteAt(bs, 0), ByteAt(bs, 1), ByteAt(bs, 2));
  }

  lemma {:induction false} LeadingDigits(t: nat, m: nat)
    requires m >= 3
    ensures Digits(t, m)[..3] == Digits(t / Pow256(m - 3), 3)
    decreases m
  {
    if m == 3 {
      assert Digits(t, 3)[..3] == Digits(t, 3);
    } else {
      LeadingDigits(t / 256, m - 1);
      DivTwice(t, 256, Pow256(m - 4));
      assert Digits(t, m)[..3] == Digits(t / 256, m - 1)[..3];
    }
  }

  lemma {:induction false} TrailingZeros(bs: Bytes, zeros: Bytes)
    requires forall i :: 0 <= i < |zeros| ==> zeros[i] == 0
    ensures BigEndian(bs + zeros) == BigEndian(bs) * Pow256(|zeros|)
    decreases |zeros|
  {
    if zeros == [] {
      assert bs + zeros == bs;
    } else {
      var front := zeros[..|zeros| - 1];
      assert (bs + zeros)[..|bs + zeros| - 1] == bs + front;
      TrailingZeros(bs, front);
      Associate(BigEndian(bs), Pow256(|front|));
    }
  }

  lemma Associate(a: nat, b: nat)
    ensures a * b * 256 == a * (256 * b)
  {
  }

  /** The unit of the last mantissa byte of a target. */
  function Unit(t: nat): (p: nat)
    ensures p >= 1
  {
    if MpiLength(t) < 3 then 1 else Pow256(MpiLength(t) - 3)
  }

  lemma DivByOne(t: nat)
    ensures t / 1 == t
  {
  }

  /** GetCompact keeps three bytes: SetCompact gives back the target rounded down to its unit. */
  lemma RoundsToUnit(t: nat)
    requires MpiLength(t) < 256
    ensures SetCompact(GetCompact(t)) == t / Unit(t) * Unit(t)
  {
    var m := MpiLength(t);
    var bs, cs := Digits(t, m), CompactBytes(GetCompact(t));
    CompactBytesOfGetCompact(t);
    if m > 0 {
      SignBitFree(t, m);
      DigitsValue(t, m);
    }
    hide CompactBytes, GetCompact, MpiLength;
    if m < 3 {
      assert cs == bs;
      DivByOne(t);
    } else {
      LongMantissa(t, m, cs);
    }
  }

  lemma LongMantissa(t: nat, m: nat, cs: Bytes)
    requires m >= 3 && t < MpiLimit(m) && |cs| == m
    requires forall i :: 0 <= i < m ==> cs[i] == if i < 3 then Digits(t, m)[i] else 0
    ensures FromMpi(cs) == t / Pow256(m - 3) * Pow256(m - 3)
  {
    hide Digits, BigEndian, MpiLimit, Pow256, FromMpi;
    var lead, q, p := Digits(t, m)[..3], t / Pow256(m - 3), Pow256(m - 3);
    SignBitFree(t, m);
    LeadingDigits(t, m);
    MantissaFits(t, m);
    DigitsValue(q, 3);
    assert lead[0] == Digits(t, m)[0];
    assert cs == lead + cs[3..];
    hide *;
    MantissaThenZeros(lead, cs[3..], q, p);
  }

  lemma MantissaThenZeros(lead: Bytes, zeros: Bytes, q: nat, p: nat)
    requires lead != [] && lead[0] < 128 && BigEndian(lead) == q && p == Pow256(|zeros|)
    requires forall i :: 0 <= i < |zeros| ==> zeros[i] == 0
    ensures FromMpi(lead + zeros) == q * p
  {
    hide BigEndian;
    TrailingZeros(lead, zeros);
  }

  lemma PowSplit(m: nat)
    requires m >= 3
    ensures MpiLimit(m) == 0x80_0000 * Pow256(m - 3)
    ensures MpiLimit(m - 1) == 0x8000 * Pow256(m - 3)
  {
    assert Pow256(m - 2) == 256 * Pow256(m - 3) && Pow256(m - 1) == 256 * Pow256(m - 2);
  }

  lemma MantissaFits(t: nat, m: nat)
    requires m >= 3 && t < MpiLimit(m)
    ensures t / Pow256(m - 3) < 0x80_0000 && Pow256(3) == 0x100_0000
  {
    PowSplit(m);
    DivBelow(t, Pow256(m - 3), 0x80_0000);
    assert Pow256(1) == 256 && Pow256(2) == 0x1_0000;
  }

  /** A compact target is never above the target, and loses less than one part in 2^15. */
  lemma CompactLoss(t: nat)
    requires MpiLength(t) < 256
    ensures 0 <= SetCompact(GetCompact(t)) <= t
    ensures t > 0 ==> 0x8000 * (t - SetCompact(GetCompact(t))) < t
  {
    RoundsToUnit(t);
    var m, p := MpiLength(t), Unit(t);
    DivMod(t, p);
    if m < 3 {
      DivByOne(t);
    } else {
      PowSplit(m);
      hide SetCompact, GetCompact, Pow256, MpiLimit;
      assert t >= 0x8000 * p;
    }
  }

  lemma {:induction false} MpiLimitMonotone(a: nat, b: nat)
    requires a <= b
    ensures MpiLimit(a) <= MpiLimit(b)
    decreases b
  {
    if a < b {
      MpiLimitGrows(b - 1);
      MpiLimitMonotone(a, b - 1);
    }
  }

  lemma LengthUnique(t: nat, m: nat)
    requires m > 0 && MpiLimit(m - 1) <= t < MpiLimit(m)
    ensures MpiLength(t) == m
  {
    var r := MpiLength(t);
    if r < m {
      MpiLimitMonotone(r, m - 1);
    } else if r > m {
      MpiLimitMonotone(m, r - 1);
    }
  }

  lemma QuotientOfMultiple(q: nat, p: nat)
    requires p > 0
    ensures q * p / p == q
  {
    DivUnique(q * p, p, q, 0);
  }

  /** Rounding to a unit does not change the unit, and rounding again changes nothing. */
  lemma RoundingStable(t: nat)
    ensures var p := Unit(t); var r := t / p * p;
            MpiLength(r) == MpiLength(t) && r / p * p == r
  {
    var m, p := MpiLength(t), Unit(t);
    var q := t / p;
    var r := q * p;
    QuotientOfMultiple(q, p);
    DivMod(t, p);
    if m < 3 {
      DivByOne(t);
    } else {
      PowSplit(m);
      QuotientAtLeast(t, p, 0x8000);
      MulMonotone(0x8000, q, p);
      hide MpiLimit, Pow256, MpiLength;
      LengthUnique(r, m);
    }
  }

  lemma QuotientAtLeast(t: nat, d: nat, k: nat)
    requires d > 0 && t >= k * d
    ensures t / d >= k
  {
    DivMod(t, d);
    if t / d < k {
      MulMonotone(t / d + 1, k, d);
    }
  }

  /** Going through a compact target once more changes nothing: neither the target nor the
      compact form. */
  lemma CompactIdempotent(t: nat)
    requires MpiLength(t) < 256
    ensures var r := SetCompact(GetCompact(t));
            r >= 0 && SetCompact(GetCompact(r)) == r && GetCompact(r) == GetCompact(t)
  {
    var r := SetCompact(GetCompact(t));
    RoundsToUnit(t);
    RoundingStable(t);
    RoundsToUnit(r);
    SameLeadingBytes(t, r);
  }

  /** A target and its rounding have the same length and the same first three bytes. */
  lemma SameLeadingBytes(t: nat, r: nat)
    requires r == t / Unit(t) * Unit(t) && MpiLength(r) == MpiLength(t)
    ensures GetCompact(r) == GetCompact(t)
  {
    var m, p := MpiLength(t), Unit(t);
    if m < 3 {
      DivByOne(t);
    } else {
      LeadingDigits(t, m);
      LeadingDigits(r, m);
      QuotientOfMultiple(t / p, p);
      var a, b := Digits(t, m), Digits(r, m);
      assert a[..3] == b[..3];
      assert a[0] == a[..3][0] && a[1] == a[..3][1] && a[2] == a[..3][2];
      assert b[0] == b[..3][0] && b[1] == b[..3][1] && b[2] == b[..3][2];
      hide Digits, MpiLength, Pow256;
    }
  }

  // ----- retargeting -----

  const TARGET_TIMESPAN := 14 * 24 * 60 * 60

  /** The limited measurement of how long the last period took. */
  function Limited(actual: int): (r: nat)
    ensures TARGET_TIMESPAN / 4 <= r <= TARGET_TIMESPAN * 4
  {
    if actual < TARGET_TIMESPAN / 4 then TARGET_TIMESPAN / 4
    else if actual > TARGET_TIMESPAN * 4 then TARGET_TIMESPAN * 4
    else actual
  }

  /** The new target before it is made compact. */
  function ScaledTarget(prev: nat, actual: int, limit: nat): nat {
    var product: nat := prev * Limited(actual);
    var scaled := product / TARGET_TIMESPAN;
    if scaled > limit then limit else scaled
  }

  /** The retarget step of GetNextWorkRequired, for an old target that is not negative. */
  function Retarget(nBits: nat, actual: int, limit: nat): nat
    requires SetCompact(nBits) >= 0
  {
    GetCompact(ScaledTarget(SetCompact(nBits), actual, limit))
  }

  lemma ScaledBounds(prev: nat, actual: int, limit: nat)
    ensures var next := ScaledTarget(prev, actual, limit);
            && next <= limit && next <= 4 * prev
            && (next == limit || next >= prev / 4)
  {
    var t := Limited(actual);
    MulMonotone(t, TARGET_TIMESPAN * 4, prev);
    MulMonotone(TARGET_TIMESPAN / 4, t, prev);
    var product: nat := prev * t;
    assert product == t * prev;
    QuarterToFour(prev, product);
  }

  lemma QuarterToFour(prev: nat, product: nat)
    requires (TARGET_TIMESPAN / 4) * prev <= product <= (TARGET_TIMESPAN * 4) * prev
    ensures prev / 4 <= product / TARGET_TIMESPAN <= 4 * prev
  {
  }

  /** A retarget moves the target by a factor of four at most, up to the rounding of the
      compact form, and never above the limit. */
  lemma RetargetBounds(nBits: nat, actual: int, limit: nat)
    requires SetCompact(nBits) >= 0 && MpiLength(limit) < 256
    ensures var prev := SetCompact(nBits);
            var next := SetCompact(Retarget(nBits, actual, limit));
            && 0 <= next <= limit && next <= 4 * prev
            && (0x8000 * next >= 0x7fff * (prev / 4) || (limit < prev / 4 && 0x8000 * next >= 0x7fff * limit))
  {
    var prev: nat := SetCompact(nBits);
    var scaled := ScaledTarget(prev, actual, limit);
    ScaledBounds(prev, actual, limit);
    LengthMonotone(scaled, limit);
    hide SetCompact, GetCompact, ScaledTarget, MpiLength;
    CompactLoss(scaled);
  }

  lemma ThreeBytes(a: byte, b: byte, d: byte)
    ensures BigEndian([a, b, d]) == a * 0x1_0000 + b * 256 + d
  {
    hide BigEndian;
    var none: Bytes := [];
    AppendByte(none, a);
    AppendByte([a], b);
    AppendByte([a, b], d);
    assert none + [a] == [a] && [a] + [b] == [a, b] && [a, b] + [d] == [a, b, d];
    NoBytes();
  }

  lemma AppendByte(front: Bytes, d: byte)
    ensures BigEndian(front + [d]) == BigEndian(front) * 256 + d
  {
    assert (front + [d])[..|front|] == front;
  }

  lemma NoBytes()
    ensures BigEndian([]) == 0
  {
  }

  /** What a compact form of size at least three with a clear sign bit stands for. */
  lemma CompactValue(size: nat, a: byte, b: byte, d: byte)
    requires 3 <= size < 256 && a < 128
    ensures SetCompact(size * 0x100_0000 + a * 0x1_0000 + b * 256 + d)
              == (a * 0x1_0000 + b * 256 + d) * Pow256(size - 3)
  {
    hide BigEndian, Pow256;
    var c := size * 0x100_0000 + a * 0x1_0000 + b * 256 + d;
    CompactFields(c, size, a, b, d);
    var lead: Bytes := [a, b, d];
    var zeros: Bytes := seq(size - 3, _ => 0);
    assert CompactBytes(c) == lead + zeros;
    TrailingZeros(lead, zeros);
    ThreeBytes(a, b, d);
  }

  lemma LengthMonotone(s: nat, t: nat)
    requires s <= t
    ensures MpiLength(s) <= MpiLength(t)
  {
    if MpiLength(s) > MpiLength(t) {
      MpiLimitMonotone(MpiLength(t), MpiLength(s) - 1);
    }
  }

  /** GetBlockWork: the expected number of hashes behind a block. */
  function BlockWork(nBits: nat): nat {
    var target := SetCompact(nBits);
    if target <= 0 then 0 else 0x1_0000000000000000_0000000000000000_0000000000000000_0000000000000000 / (target + 1)
  }

  lemma FourBytes(n: nat)
    ensures Pow256(n + 4) == 0x1_0000_0000 * Pow256(n)
  {
    assert Pow256(n + 1) == 256 * Pow256(n);
    assert Pow256(n + 2) == 256 * Pow256(n + 1);
    assert Pow256(n + 3) == 256 * Pow256(n + 2);
    assert Pow256(n + 4) == 256 * Pow256(n + 3);
  }

  lemma EightBytes(n: nat)
    ensures Pow256(n + 8) == 0x1_0000_0000_0000_0000 * Pow256(n)
  {
    FourBytes(n);
    FourBytes(n + 4);
  }

  lemma TwoTo256()
    ensures Pow256(32) == 0x1_0000000000000000_0000000000000000_0000000000000000_0000000000000000
  {
    EightBytes(0);
    EightBytes(8);
    EightBytes(16);
    EightBytes(24);
  }

  /** The work of a block is 2^256 divided by its target plus one, rounded down; a block without a
      target has none. */
  lemma WorkExact(nBits: nat)
    ensures SetCompact(nBits) <= 0 ==> BlockWork(nBits) == 0
    ensures SetCompact(nBits) > 0 ==>
              var work, t := BlockWork(nBits), SetCompact(nBits);
              work == Pow256(32) / (t + 1) && work * (t + 1) <= Pow256(32) < (work + 1) * (t + 1)
  {
    TwoTo256();
    hide SetCompact, Pow256;
    if SetCompact(nBits) > 0 {
      QuotientBounds(Pow256(32), SetCompact(nBits) + 1);
    }
  }

  lemma QuotientBounds(t: nat, d: nat)
    requires d > 0
    ensures (t / d) * d <= t < (t / d + 1) * d
  {
    DivMod(t, d);
  }

  /** A lower target is never less work. */
  lemma LowerTargetMoreWork(a: nat, b: nat)
    requires 0 < SetCompact(a) <= SetCompact(b)
    ensures BlockWork(a) >= BlockWork(b)
  {
    WorkExact(a);
    WorkExact(b);
    hide SetCompact, BlockWork, Pow256;
    var v, s: nat, t: nat := BlockWork(b), SetCompact(a) + 1, SetCompact(b) + 1;
    MulMonotone(s, t, v);
    QuotientAtLeast(Pow256(32), s, v);
  }

  lemma TwiceBelow(p: nat, s: nat, t: nat, v: nat)
    requires 2 * s <= t && v * t <= p
    ensures (2 * v) * s <= p
  {
    MulMonotone(2 * s, t, v);
    assert (2 * v) * s == (2 * s) * v;
  }

  /** Half the target is at least twice the work. */
  lemma HalfTargetTwiceWork(a: nat, b: nat)
    requires 0 < SetCompact(a) && 2 * (SetCompact(a) + 1) <= SetCompact(b) + 1 <= Pow256(32)
    ensures BlockWork(a) >= 2 * BlockWork(b) > 0
  {
    WorkExact(a);
    WorkExact(b);
    hide SetCompact, BlockWork, Pow256;
    var v, s: nat, t: nat := BlockWork(b), SetCompact(a) + 1, SetCompact(b) + 1;
    TwiceBelow(Pow256(32), s, t, v);
    QuotientAtLeast(Pow256(32), s, 2 * v);
    QuotientAtLeast(Pow256(32), t, 1);
  }

  lemma CancelFactor(t: nat, a: nat, b: nat)
    requires t > 0 && t * a <= t * b
    ensures a <= b
  {
    if a > b {
      MulMonotone(b + 1, a, t);
    }
  }

  lemma OneMore(p: nat, s: nat, t: nat, v: nat)
    requires 0 < s < t && s * t <= (t - s) * p && v * t <= p
    ensures (v + 1) * s <= p
  {
    MulMonotone(v * t, p, s);
    assert t * ((v + 1) * s) == (v * t) * s + s * t;
    assert (t - s) * p == t * p - p * s;
    CancelFactor(t, (v + 1) * s, p);
  }

  /** Two targets far enough apart for one unit of work: the lower one is strictly more work. */
  lemma StrictlyMoreWork(a: nat, b: nat)
    requires 0 < SetCompact(a) < SetCompact(b)
    requires (SetCompact(a) + 1) * (SetCompact(b) + 1) <= (SetCompact(b) - SetCompact(a)) * Pow256(32)
    ensures BlockWork(a) > BlockWork(b)
  {
    WorkExact(a);
    WorkExact(b);
    hide SetCompact, BlockWork, Pow256;
    var v, s: nat, t: nat := BlockWork(b), SetCompact(a) + 1, SetCompact(b) + 1;
    OneMore(Pow256(32), s, t, v);
    QuotientAtLeast(Pow256(32), s, v + 1);
  }

  // ----- the retarget follows the time -----

  lemma Quarter(prev: nat)
    ensures prev * 302400 / TARGET_TIMESPAN == prev / 4
  {
    DivTwice(prev * 302400, 302400, 4);
    QuotientOfMultiple(prev, 302400);
  }

  lemma FourTimes(prev: nat)
    ensures prev * 4838400 / TARGET_TIMESPAN == 4 * prev
  {
    assert prev * 4838400 == (4 * prev) * TARGET_TIMESPAN;
    QuotientOfMultiple(4 * prev, TARGET_TIMESPAN);
  }

  /** The new target before it is made compact: the old one times the time the period took over two
      weeks, when that is between three and a half days and eight weeks; a quarter or four times the
      old one outside; and never more than the limit. */
  lemma ScaledExact(prev: nat, actual: int, limit: nat)
    ensures var next := ScaledTarget(prev, actual, limit);
            && (actual < 302400 ==> next == if prev / 4 > limit then limit else prev / 4)
            && (actual > 4838400 ==> next == if 4 * prev > limit then limit else 4 * prev)
            && (302400 <= actual <= 4838400 && next < limit ==>
                  1209600 * next <= prev * actual < 1209600 * (next + 1))
            && (302400 <= actual <= 4838400 && next == limit ==> 1209600 * limit <= prev * actual)
  {
    Quarter(prev);
    FourTimes(prev);
    if 302400 <= actual <= 4838400 {
      assert Limited(actual) == actual;
      var product: nat := prev * actual;
      DivMod(product, TARGET_TIMESPAN);
      if product / TARGET_TIMESPAN > limit {
        MulMonotone(limit, product / TARGET_TIMESPAN, TARGET_TIMESPAN);
      }
    }
  }

  /** A longer period never lowers the target. */
  lemma ScaledMonotone(prev: nat, actual: int, later: int, limit: nat)
    requires actual <= later
    ensures ScaledTarget(prev, actual, limit) <= ScaledTarget(prev, later, limit)
  {
    var a, b := Limited(actual), Limited(later);
    MulMonotone(a, b, prev);
    assert prev * a == a * prev && prev * b == b * prev;
    QuotientAtLeast(prev * b, TARGET_TIMESPAN, prev * a / TARGET_TIMESPAN);
  }

  /** `next` is `exact` up to the rounding of the compact form. */
  ghost predicate RoundsTo(exact: nat, next: int) {
    0 <= next <= exact && 0x8000 * next >= 0x7fff * exact
  }

  /** The target a retarget leads to, rounding included. */
  lemma RetargetExact(nBits: nat, actual: int, limit: nat)
    requires SetCompact(nBits) >= 0 && MpiLength(limit) < 256
    ensures var prev := SetCompact(nBits);
            var next := SetCompact(Retarget(nBits, actual, limit));
            && (actual < 302400 ==> RoundsTo(if prev / 4 > limit then limit else prev / 4, next))
            && (actual > 4838400 ==> RoundsTo(if 4 * prev > limit then limit else 4 * prev, next))
            && (302400 <= actual <= 4838400 && 1209600 * limit <= prev * actual ==> RoundsTo(limit, next))
            && (302400 <= actual <= 4838400 && prev * actual < 1209600 * limit ==>
                  1209600 * next <= prev * actual && 0x7fff * (prev * actual) < 0x8000 * 1209600 * (next + 1))
  {
    hide SetCompact, GetCompact, ScaledTarget, MpiLength;
    var prev: nat := SetCompact(nBits);
    var scaled := ScaledTarget(prev, actual, limit);
    ScaledBounds(prev, actual, limit);
    ScaledExact(prev, actual, limit);
    LengthMonotone(scaled, limit);
    CompactLoss(scaled);
    var product, next := prev * actual, SetCompact(GetCompact(scaled));
    if 302400 <= actual <= 4838400 && product < 1209600 * limit {
      RoundedQuotient(scaled, next, product);
    }
  }

  lemma RoundedQuotient(scaled: nat, next: int, product: int)
    requires 1209600 * scaled <= product < 1209600 * (scaled + 1)
    requires 0 <= next <= scaled && 0x8000 * next >= 0x7fff * scaled
    ensures 1209600 * next <= product && 0x7fff * product < 0x8000 * 1209600 * (next + 1)
  {
  }
}
