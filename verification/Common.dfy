/** Shared vocabulary: bytes, optional values, and the outcome of an operation
    that the node may refuse. */
module Common {

  datatype Option<+T> = None | Some(value: T) {
    function GetOr(default: T): T {
      match this
      case Some(v) => v
      case None => default
    }
  }

  /** `Rejected` stands for every `return false` or `return error(...)` of the node. */
  datatype Outcome<+T> = Rejected | Ok(value: T) {
    predicate IsFailure() {
      Rejected?
    }

    function PropagateFailure<U>(): Outcome<U>
      requires Rejected?
    {
      Rejected
    }

    function Extract(): T
      requires Ok?
    {
      value
    }

    function GetOr(default: T): T {
      match this
      case Ok(v) => v
      case Rejected => default
    }
  }

  type byte = x: int | 0 <= x < 256
  type Bytes = seq<byte>

  function Reverse<T>(s: seq<T>): (r: seq<T>)
    ensures |r| == |s| && forall k :: 0 <= k < |s| ==> r[k] == s[|s| - 1 - k]
  {
    seq(|s|, k requires 0 <= k < |s| => s[|s| - 1 - k])
  }

  ghost predicate Distinct<T>(s: seq<T>) {
    forall i, j :: 0 <= i < j < |s| ==> s[i] != s[j]
  }

  /** The natural number whose little-endian representation is `bs`. */
  function LittleEndian(bs: Bytes): nat {
    if bs == [] then 0 else bs[0] + 256 * LittleEndian(bs[1..])
  }

  /** The `n` low bytes of `v`, least significant first (memcpy of an integer). */
  function LowBytes(v: nat, n: nat): (bs: Bytes)
    ensures |bs| == n
    decreases n
  {
    if n == 0 then [] else [v % 256] + LowBytes(v / 256, n - 1)
  }

  function Pow256(n: nat): (p: nat)
    ensures p >= 1
  {
    if n == 0 then 1 else 256 * Pow256(n - 1)
  }

  function Pow2(n: nat): (p: nat)
    ensures p >= 1
  {
    if n == 0 then 1 else 2 * Pow2(n - 1)
  }

  lemma {:induction false} LowBytesValue(v: nat, n: nat)
    requires v < Pow256(n)
    ensures LittleEndian(LowBytes(v, n)) == v
    decreases n
  {
    if n > 0 {
      LowBytesValue(v / 256, n - 1);
      assert LowBytes(v, n)[1..] == LowBytes(v / 256, n - 1);
    }
  }

  lemma TwoLowBytes(n: nat)
    requires n < 0x1_0000
    ensures LowBytes(n, 2) == [n % 256, n / 256]
  {
    assert LowBytes(n / 256, 1) == [n / 256 % 256] + LowBytes(n / 256 / 256, 0);
  }

  lemma FourLowBytes(n: nat)
    requires n < 0x1_0000_0000
    ensures LowBytes(n, 4) == [n % 256, n / 256 % 256, n / 0x1_0000 % 256, n / 0x100_0000]
  {
    assert LowBytes(n / 256, 3) == [n / 256 % 256] + LowBytes(n / 256 / 256, 2);
    assert LowBytes(n / 0x1_0000, 2) == [n / 0x1_0000 % 256] + LowBytes(n / 0x1_0000 / 256, 1);
    assert LowBytes(n / 0x100_0000, 1) == [n / 0x100_0000 % 256] + LowBytes(n / 0x100_0000 / 256, 0);
  }

  lemma WideEnough()
    ensures Pow256(4) == 0x1_0000_0000 && Pow256(8) == 0x1_0000_0000_0000_0000
  {
    assert Pow256(2) == 0x1_0000;
    assert Pow256(4) == 0x1_0000 * Pow256(2);
    assert Pow256(6) == 0x1_0000 * Pow256(4);
    assert Pow256(8) == 0x1_0000 * Pow256(6);
  }
}
