/** The byte formats of transactions and blocks (src/serialize.h, src/main.h, src/auxpow.h).
    A reader takes bytes from the front and returns a value and the bytes left over. */
module Serialize {
  import opened Common
  import ChainTypes
  import Compact
  import Connect

  type Reader<T> = Bytes -> Outcome<(T, Bytes)>

  const MAX_SIZE := 0x0200_0000
  const BLOCK_VERSION_AUXPOW := 256

  // ----- integers -----

  function ReadUInt(n: nat, s: Bytes): (r: Outcome<(nat, Bytes)>)
    ensures r.Ok? ==> |r.value.1| + n == |s|
  {
    if |s| < n then Rejected else Ok((LittleEndian(s[..n]), s[n..]))
  }

  /** Two's complement of `n` bytes. */
  function WriteInt(v: int, n: nat): (s: Bytes)
    ensures |s| == n
  {
    LowBytes(v % Pow256(n), n)
  }

  function ReadInt(n: nat, s: Bytes): (r: Outcome<(int, Bytes)>)
    ensures r.Ok? ==> |r.value.1| + n == |s|
  {
    var (u, rest) :- ReadUInt(n, s);
    Ok((if 2 * u < Pow256(n) then u else u - Pow256(n), rest))
  }

  predicate FitsUInt(v: int, n: nat) {
    0 <= v < Pow256(n)
  }

  predicate FitsInt(v: int, n: nat) {
    -(Pow256(n) as int) <= 2 * v < Pow256(n)
  }

  lemma UIntInverse(v: nat, n: nat, rest: Bytes)
    requires FitsUInt(v, n)
    ensures ReadUInt(n, LowBytes(v, n) + rest) == Ok((v, rest))
  {
    LowBytesValue(v, n);
    assert (LowBytes(v, n) + rest)[..n] == LowBytes(v, n);
  }

  lemma ModNegative(v: int, p: nat)
    requires p > 0
    ensures 0 <= v < p ==> v % p == v
    ensures -(p as int) <= v < 0 ==> v % p == v + p
  {
  }

  lemma IntInverse(v: int, n: nat, rest: Bytes)
    requires FitsInt(v, n)
    ensures ReadInt(n, WriteInt(v, n) + rest) == Ok((v, rest))
  {
    hide LowBytes, ReadUInt;
    ModNegative(v, Pow256(n));
    UIntInverse(v % Pow256(n), n, rest);
  }

  // ----- compact sizes -----

  function WriteCompactSize(n: nat): Bytes {
    if n < 253 then [n]
    else if n <= 0xffff then [253] + LowBytes(n, 2)
    else if n <= 0xffff_ffff then [254] + LowBytes(n, 4)
    else [255] + LowBytes(n, 8)
  }

  function ReadCompactSize(s: Bytes): (r: Outcome<(nat, Bytes)>)
    ensures r.Ok? ==> |r.value.1| < |s|
  {
    if s == [] then Rejected
    else
      var (n, rest) :- if s[0] < 253 then Ok((s[0] as nat, s[1..]))
                       else ReadUInt(if s[0] == 253 then 2 else if s[0] == 254 then 4 else 8, s[1..]);
      if n > MAX_SIZE then Rejected else Ok((n, rest))
  }

  lemma SizeFits(n: nat)
    ensures n <= 0xffff ==> FitsUInt(n, 2)
    ensures n <= 0xffff_ffff ==> FitsUInt(n, 4)
  {
    assert Pow256(1) == 256 && Pow256(2) == 0x1_0000;
    assert Pow256(3) == 0x100_0000 && Pow256(4) == 0x1_0000_0000;
  }

  lemma CompactSizeInverse(n: nat, rest: Bytes)
    requires n <= 0x200_0000
    ensures ReadCompactSize(WriteCompactSize(n) + rest) == Ok((n, rest))
    ensures |WriteCompactSize(n)| == Connect.CompactSizeLength(n)
  {
    hide LowBytes, ReadUInt;
    SizeFits(n);
    var s := WriteCompactSize(n) + rest;
    if 253 <= n {
      var w := if n <= 0xffff then 2 else 4;
      UIntInverse(n, w, rest);
      assert s[1..] == LowBytes(n, w) + rest;
    } else {
      assert s[1..] == rest;
    }
  }

  // ----- vectors -----

  function WriteAll<T>(write: T -> Bytes, v: seq<T>): Bytes {
    if v == [] then [] else write(v[0]) + WriteAll(write, v[1..])
  }

  function WriteVector<T>(write: T -> Bytes, v: seq<T>): Bytes {
    WriteCompactSize(|v|) + WriteAll(write, v)
  }

  ghost predicate Consumes<T>(read: Reader<T>) {
    forall s :: read(s).Ok? ==> |read(s).value.1| <= |s|
  }

  function ReadAll<T>(read: Reader<T>, n: nat, s: Bytes): (r: Outcome<(seq<T>, Bytes)>)
    ensures r.Ok? ==> |r.value.0| == n
    ensures r.Ok? && Consumes(read) ==> |r.value.1| <= |s|
    decreases n
  {
    if n == 0 then Ok(([], s))
    else
      var (x, more) :- read(s);
      var (v, rest) :- ReadAll(read, n - 1, more);
      Ok(([x] + v, rest))
  }

  function ReadVector<T>(read: Reader<T>, s: Bytes): (r: Outcome<(seq<T>, Bytes)>)
    ensures r.Ok? && Consumes(read) ==> |r.value.1| < |s|
  {
    var (n, more) :- ReadCompactSize(s);
    ReadAll(read, n, more)
  }

  /** `read` undoes `write` on valid values, whatever follows. */
  ghost predicate Inverse<T(!new)>(write: T -> Bytes, read: Reader<T>, valid: T -> bool) {
    forall x, rest :: valid(x) ==> read(write(x) + rest) == Ok((x, rest))
  }

  lemma {:induction false} AllInverse<T(!new)>(write: T -> Bytes, read: Reader<T>, valid: T -> bool, v: seq<T>,
                                               rest: Bytes)
    requires Inverse(write, read, valid) && forall i :: 0 <= i < |v| ==> valid(v[i])
    ensures ReadAll(read, |v|, WriteAll(write, v) + rest) == Ok((v, rest))
    decreases |v|
  {
    if v == [] {
      assert WriteAll(write, v) + rest == rest;
    } else {
      AllInverse(write, read, valid, v[1..], rest);
      assert WriteAll(write, v) + rest == write(v[0]) + (WriteAll(write, v[1..]) + rest);
      assert valid(v[0]);
      assert v == [v[0]] + v[1..];
    }
  }

  lemma VectorInverse<T(!new)>(write: T -> Bytes, read: Reader<T>, valid: T -> bool, v: seq<T>, rest: Bytes)
    requires Inverse(write, read, valid) && |v| <= MAX_SIZE && forall i :: 0 <= i < |v| ==> valid(v[i])
    ensures ReadVector(read, WriteVector(write, v) + rest) == Ok((v, rest))
  {
    hide WriteAll, ReadAll, ReadCompactSize, WriteCompactSize, Inverse;
    CompactSizeInverse(|v|, WriteAll(write, v) + rest);
    assert WriteVector(write, v) + rest == WriteCompactSize(|v|) + (WriteAll(write, v) + rest);
    AllInverse(write, read, valid, v, rest);
  }

  function SumOfSizes<T>(size: T -> nat, v: seq<T>): nat {
    if v == [] then 0 else size(v[0]) + SumOfSizes(size, v[1..])
  }

  ghost predicate SizeOf<T>(write: T -> Bytes, size: T -> nat, v: seq<T>) {
    forall x :: x in v ==> |write(x)| == size(x)
  }

  lemma {:induction false} AllSize<T>(write: T -> Bytes, size: T -> nat, v: seq<T>)
    requires SizeOf(write, size, v)
    ensures |WriteAll(write, v)| == SumOfSizes(size, v)
    decreases |v|
  {
    if v != [] {
      AllSize(write, size, v[1..]);
    }
  }

  /** Scripts and other byte vectors. */
  function WriteBytes(b: Bytes): Bytes {
    WriteCompactSize(|b|) + b
  }

  function ReadBytes(s: Bytes): (r: Outcome<(Bytes, Bytes)>)
    ensures r.Ok? ==> |r.value.1| < |s|
  {
    var (n, rest) :- ReadCompactSize(s);
    if |rest| < n then Rejected else Ok((rest[..n], rest[n..]))
  }

  function BytesSize(b: Bytes): nat {
    Connect.CompactSizeLength(|b|) + |b|
  }

  lemma BytesInverse(b: Bytes, rest: Bytes)
    requires |b| <= MAX_SIZE
    ensures ReadBytes(WriteBytes(b) + rest) == Ok((b, rest)) && |WriteBytes(b)| == BytesSize(b)
  {
    hide WriteCompactSize, ReadCompactSize;
    CompactSizeInverse(|b|, b + rest);
    assert WriteBytes(b) + rest == WriteCompactSize(|b|) + (b + rest);
  }

  // ----- bit vectors -----

  function WordCount(n: nat): nat {
    (n + 7) / 8
  }

  /** 1 << n */
  function Bit(n: nat): (p: nat)
    requires n <= 8
    ensures n > 0 ==> p == 2 * Bit(n - 1)
  {
    if n == 0 then 1 else if n == 1 then 2 else if n == 2 then 4 else if n == 3 then 8 else if n == 4 then 16
    else if n == 5 then 32 else if n == 6 then 64 else if n == 7 then 128 else 256
  }

  predicate BitSet(word: nat, i: nat)
    requires i < 8
  {
    (word / Bit(i)) % 2 == 1
  }

  /** The byte whose bit `i` is the i-th of at most eight flags. */
  function Word(v: seq<bool>): (b: nat)
    requires |v| <= 8
    ensures b < Bit(|v|) <= 256
  {
    if v == [] then 0 else (if v[0] then 1 else 0) + 2 * Word(v[1..])
  }

  lemma {:induction false} WordBits(v: seq<bool>, i: nat)
    requires i < |v| <= 8
    ensures BitSet(Word(v), i) == v[i]
    decreases i
  {
    if i > 0 {
      WordBits(v[1..], i - 1);
      Compact.DivTwice(Word(v), 2, Bit(i - 1));
    }
  }

  function Take8(v: seq<bool>): nat {
    if |v| < 8 then |v| else 8
  }

  function Words(v: seq<bool>): (w: Bytes)
    ensures |w| == WordCount(|v|)
    decreases |v|
  {
    if v == [] then [] else [Word(v[..Take8(v)])] + Words(v[Take8(v)..])
  }

  function WriteBits(v: seq<bool>): Bytes {
    WriteCompactSize(|v|) + Words(v)
  }

  function FlagsOf(w: Bytes, n: nat): (v: seq<bool>)
    requires |w| == WordCount(n)
    ensures |v| == n
  {
    seq(n, i requires 0 <= i < n => BitSet(w[i / 8], i % 8))
  }

  function ReadBits(s: Bytes): Outcome<(seq<bool>, Bytes)> {
    var (n, rest) :- ReadCompactSize(s);
    if |rest| < WordCount(n) then Rejected
    else Ok((FlagsOf(rest[..WordCount(n)], n), rest[WordCount(n)..]))
  }

  lemma {:induction false} WordsBit(v: seq<bool>, i: nat)
    requires i < |v|
    ensures BitSet(Words(v)[i / 8], i % 8) == v[i]
    decreases i
  {
    hide BitSet, Word, Words;
    WordsUnfold(v);
    if i < 8 {
      WordBits(v[..Take8(v)], i);
    } else {
      WordsBit(v[8..], i - 8);
      assert i / 8 == (i - 8) / 8 + 1 && i % 8 == (i - 8) % 8;
    }
  }

  lemma WordsUnfold(v: seq<bool>)
    requires v != []
    ensures Words(v) == [Word(v[..Take8(v)])] + Words(v[Take8(v)..])
  {
  }

  /** Spent bits and the like: as many bytes as announced, and every flag comes back. */
  lemma BitsInverse(v: seq<bool>, rest: Bytes)
    requires |v| <= MAX_SIZE
    ensures ReadBits(WriteBits(v) + rest) == Ok((v, rest))
    ensures |WriteBits(v)| == Connect.CompactSizeLength(|v|) + WordCount(|v|)
  {
    hide WriteCompactSize, ReadCompactSize, BitSet, Words;
    CompactSizeInverse(|v|, Words(v) + rest);
    assert WriteBits(v) + rest == WriteCompactSize(|v|) + (Words(v) + rest);
    assert (Words(v) + rest)[..WordCount(|v|)] == Words(v) && (Words(v) + rest)[WordCount(|v|)..] == rest;
    forall i | 0 <= i < |v| ensures FlagsOf(Words(v), |v|)[i] == v[i] {
      WordsBit(v, i);
    }
    assert FlagsOf(Words(v), |v|) == v;
  }

  // ----- the bytes themselves -----

  /** The size field: one byte below 253, and otherwise a marker and the two, four or eight low bytes,
      least significant first. */
  lemma CompactSizeLayout(n: nat)
    ensures n < 253 ==> WriteCompactSize(n) == [n]
    ensures 253 <= n < 0x1_0000 ==> WriteCompactSize(n) == [253, n % 256, n / 256]
    ensures 0x1_0000 <= n < 0x1_0000_0000 ==>
              WriteCompactSize(n) == [254, n % 256, n / 256 % 256, n / 0x1_0000 % 256, n / 0x100_0000]
    ensures n >= 0x1_0000_0000 ==> |WriteCompactSize(n)| == 9 && WriteCompactSize(n)[0] == 255
    ensures forall rest :: n > 0x200_0000 && n < 0x1_0000_0000_0000_0000 ==>
                             ReadCompactSize(WriteCompactSize(n) + rest).Rejected?
  {
    if 253 <= n < 0x1_0000 {
      TwoLowBytes(n);
    } else if 0x1_0000 <= n < 0x1_0000_0000 {
      FourLowBytes(n);
    }
    forall rest | n > 0x200_0000 && n < 0x1_0000_0000_0000_0000
      ensures ReadCompactSize(WriteCompactSize(n) + rest).Rejected?
    {
      TooLarge(n, rest);
    }
  }

  /** Behind each of the three markers any number of that width is read, also one that would fit into
      fewer bytes, up to 0x02000000; with fewer bytes left, none is. */
  lemma AnyWidthReads(marker: byte, w: nat, n: nat, rest: Bytes)
    requires (marker, w) in {(253, 2), (254, 4), (255, 8)} && n < Pow256(w)
    ensures ReadCompactSize([marker] + LowBytes(n, w) + rest) == if n <= 0x200_0000 then Ok((n, rest)) else Rejected
    ensures |rest| < w ==> ReadCompactSize([marker] + rest).Rejected?
  {
    hide LowBytes, LittleEndian, Pow256;
    var s := [marker] + LowBytes(n, w) + rest;
    LowBytesValue(n, w);
    assert s[1..] == LowBytes(n, w) + rest && s[1..][..w] == LowBytes(n, w) && s[1..][w..] == rest;
    assert ([marker] + rest)[1..] == rest;
  }

  lemma TooLarge(n: nat, rest: Bytes)
    requires 0x200_0000 < n < 0x1_0000_0000_0000_0000
    ensures ReadCompactSize(WriteCompactSize(n) + rest).Rejected?
  {
    WideEnough();
    hide LowBytes, Pow256, ReadCompactSize;
    if n <= 0xffff_ffff {
      AnyWidthReads(254, 4, n, rest);
    } else {
      AnyWidthReads(255, 8, n, rest);
    }
  }

  /** Signed numbers are written in two's complement. */
  lemma SignedLayout(v: int)
    requires -0x8000_0000 <= v < 0x8000_0000
    ensures WriteInt(v, 4) == LowBytes(if v < 0 then 0x1_0000_0000 + v else v, 4)
  {
    WideEnough();
    hide LowBytes, Pow256;
  }
}
