/** Byte-level coding of script instructions (src/script.h). */
module ScriptCode {
  import opened Common

  type Script = Bytes

  const OP_PUSHDATA1 := 76
  const OP_PUSHDATA2 := 77
  const OP_PUSHDATA4 := 78
  const OP_1 := 81
  const OP_16 := 96
  const OP_NOP := 97
  const OP_2DROP := 109
  const OP_DROP := 117

  /** Result of one GetOp2 call: the iterator advances even when the call fails. */
  datatype Fetched = NoOp(pc: nat) | Op(opcode: byte, data: Bytes, pc: nat)

  /** Number of size bytes that follow a push opcode. */
  function SizeBytes(opcode: byte): nat {
    if opcode == OP_PUSHDATA1 then 1
    else if opcode == OP_PUSHDATA2 then 2
    else if opcode == OP_PUSHDATA4 then 4
    else 0
  }

  function GetOp(s: Script, pc: nat): (r: Fetched)
    requires pc <= |s|
    ensures pc <= r.pc <= |s|
    ensures r.Op? ==> pc < r.pc
  {
    if pc == |s| then NoOp(pc)
    else
      var opcode, p := s[pc], pc + 1;
      if opcode > OP_PUSHDATA4 then Op(opcode, [], p)
      else
        var w := SizeBytes(opcode);
        if |s| - p < w then NoOp(p)
        else
          var size := if opcode < OP_PUSHDATA1 then opcode else LittleEndian(s[p..p + w]);
          if |s| - (p + w) < size then NoOp(p + w)
          else Op(opcode, s[p + w..p + w + size], p + w + size)
  }

  /** What `script << b` appends for a byte vector `b`. */
  function PushHeader(n: nat): (h: Bytes)
    ensures 1 <= |h| && h[0] <= OP_PUSHDATA4 && |h| == 1 + SizeBytes(h[0])
  {
    if n < OP_PUSHDATA1 then [n]
    else if n <= 0xff then [OP_PUSHDATA1, n]
    else if n <= 0xffff then [OP_PUSHDATA2] + LowBytes(n, 2)
    else [OP_PUSHDATA4] + LowBytes(n % 0x1_0000_0000, 4)
  }

  function PushData(b: Bytes): Bytes {
    PushHeader(|b|) + b
  }

  /** The bytes that announce a push of `n` bytes: the size itself up to 75, or 76, 77 or 78 and the
      size in one, two or four bytes, least significant first, whether it would fit into fewer or not. */
  predicate Announces(header: Bytes, n: nat) {
    || (n <= 75 && header == [n])
    || (n <= 0xff && header == [76, n])
    || (n <= 0xffff && header == [77, n % 256, n / 256])
    || (n <= 0xffff_ffff && header == [78, n % 256, n / 256 % 256, n / 0x1_0000 % 256, n / 0x100_0000])
  }

  lemma TwoBytes(a: byte, b: byte)
    ensures LittleEndian([a]) == a && LittleEndian([a, b]) == a + 256 * b
  {
    assert [a][1..] == [];
    assert [a, b][1..] == [b] && [b][1..] == [];
  }

  lemma FourBytesValue(a: byte, b: byte, c: byte, d: byte)
    ensures LittleEndian([a, b, c, d]) == a + 256 * b + 0x1_0000 * c + 0x100_0000 * d
  {
    assert [a, b, c, d][1..] == [b, c, d] && [b, c, d][1..] == [c, d];
    TwoBytes(c, d);
  }

  lemma FourDigits(n: nat)
    requires n <= 0xffff_ffff
    ensures n == n % 256 + 256 * (n / 256 % 256) + 0x1_0000 * (n / 0x1_0000 % 256) + 0x100_0000 * (n / 0x100_0000)
  {
    assert n / 0x1_0000 == n / 256 / 256 && n / 0x100_0000 == n / 0x1_0000 / 256;
  }

  lemma AnnouncedSize(header: Bytes, n: nat)
    requires Announces(header, n)
    ensures 1 <= |header| && header[0] <= 78 && |header| == 1 + SizeBytes(header[0])
    ensures n == if header[0] < OP_PUSHDATA1 then header[0] else LittleEndian(header[1..])
  {
    hide LittleEndian;
    if |header| == 2 {
      TwoBytes(n, 0);
      assert header[1..] == [n];
    } else if |header| == 3 {
      TwoBytes(n % 256, n / 256);
      assert header[1..] == [n % 256, n / 256];
    } else if |header| == 5 {
      FourDigits(n);
      FourBytesValue(n % 256, n / 256 % 256, n / 0x1_0000 % 256, n / 0x100_0000);
      assert header[1..] == [n % 256, n / 256 % 256, n / 0x1_0000 % 256, n / 0x100_0000];
    }
  }

  /** An announced push is read when all its bytes are there, and stops the reader when they are
      not. */
  lemma AnnouncedPush(pre: Script, header: Bytes, n: nat, rest: Script)
    requires Announces(header, n)
    ensures GetOp(pre + header + rest, |pre|)
              == if n <= |rest| then Op(header[0], rest[..n], |pre| + |header| + n) else NoOp(|pre| + |header|)
  {
    AnnouncedSize(header, n);
    hide LittleEndian;
    var s, p := pre + header + rest, |pre| + 1;
    assert s[|pre|] == header[0];
    assert s[p..p + SizeBytes(header[0])] == header[1..];
    if n <= |rest| {
      assert s[|pre| + |header|..|pre| + |header| + n] == rest[..n];
    }
  }

  lemma HeaderAnnounces(n: nat)
    requires n <= 0xffff_ffff
    ensures Announces(PushHeader(n), n)
  {
    hide LowBytes;
    if n > 0xffff {
      FourLowBytes(n);
    } else if n > 0xff {
      TwoLowBytes(n);
    }
  }

  /** Reading back a pushed vector: GetOp returns it and stops right behind it. */
  lemma GetOpReadsPush(pre: Script, b: Bytes, post: Script)
    requires |b| < 0x1_0000_0000
    ensures var r := GetOp(pre + PushData(b) + post, |pre|);
            && r.Op? && r.opcode <= OP_PUSHDATA4 && r.data == b
            && r.pc == |pre| + |PushData(b)|
  {
    hide PushHeader, GetOp;
    var header := PushHeader(|b|);
    HeaderAnnounces(|b|);
    AnnouncedSize(header, |b|);
    AnnouncedPush(pre, header, |b|, b + post);
    assert pre + header + (b + post) == pre + PushData(b) + post;
    assert (b + post)[..|b|] == b;
  }

  /** << announces the vector in the fewest bytes. */
  lemma PushIsShortest(b: Bytes, header: Bytes)
    requires |b| <= 0xffff_ffff && Announces(header, |b|)
    ensures PushData(b) == PushHeader(|b|) + b && Announces(PushHeader(|b|), |b|) && |PushHeader(|b|)| <= |header|
  {
    HeaderAnnounces(|b|);
    hide LowBytes;
  }

  /** A single-byte instruction in the middle of a script. */
  lemma GetOpReadsOpcode(pre: Script, opcode: byte, post: Script)
    requires opcode > OP_PUSHDATA4
    ensures GetOp(pre + [opcode] + post, |pre|) == Op(opcode, [], |pre| + 1)
  {
  }

  function Shift(r: Fetched, k: nat): Fetched {
    match r
    case NoOp(pc) => NoOp(pc + k)
    case Op(opcode, data, pc) => Op(opcode, data, pc + k)
  }

  /** GetOp looks only at the bytes from `pc` on, so a prefix merely shifts the iterator. */
  lemma GetOpShift(pre: Script, s: Script, pc: nat)
    requires pc <= |s|
    ensures GetOp(pre + s, |pre| + pc) == Shift(GetOp(s, pc), |pre|)
  {
    hide LittleEndian;
    var t, k := pre + s, |pre|;
    if pc < |s| {
      assert t[k + pc] == s[pc];
      var w := SizeBytes(s[pc]);
      if |s| - (pc + 1) >= w {
        SliceShift(pre, s, pc + 1, pc + 1 + w);
        var size := if s[pc] < OP_PUSHDATA1 then s[pc] else LittleEndian(s[pc + 1..pc + 1 + w]);
        if size <= |s| - (pc + 1 + w) {
          SliceShift(pre, s, pc + 1 + w, pc + 1 + w + size);
        }
      }
    }
  }

  lemma SliceShift(pre: Script, s: Script, i: nat, j: nat)
    requires i <= j <= |s|
    ensures (pre + s)[|pre| + i..|pre| + j] == s[i..j]
  {
  }
}
