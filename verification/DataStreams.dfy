/** Streams that are written at the end and read at a moving position (src/serialize.h). */
module DataStreams {
  import opened Common
  import opened Serialize
  import opened Wire

  lemma CompactSizeParts(n: nat)
    ensures WriteCompactSize(n) == if n < 253 then [n]
                                   else if n <= 0xffff then [253] + LowBytes(n, 2)
                                   else if n <= 0xffff_ffff then [254] + LowBytes(n, 4)
                                   else [255] + LowBytes(n, 8)
  {
  }

  lemma {:induction false} ZeroWords(n: nat)
    ensures Words(seq(n, _ => false)) == seq(WordCount(n), _ => 0)
    decreases n
  {
    var v := seq(n, _ => false);
    if n > 0 {
      ZeroWord(v[..Take8(v)]);
      assert v[Take8(v)..] == seq(n - Take8(v), _ => false);
      ZeroWords(n - Take8(v));
    }
  }

  lemma {:induction false} ZeroWord(v: seq<bool>)
    requires |v| <= 8 && forall k :: 0 <= k < |v| ==> !v[k]
    ensures Word(v) == 0
  {
    if v != [] {
      ZeroWord(v[1..]);
    }
  }

  lemma UpdateBehind(b: byte, w: Bytes, k: nat, x: byte)
    requires k < |w|
    ensures ([b] + w)[k + 1 := x] == [b] + w[k := x] && ([b] + w)[k + 1] == w[k]
  {
  }

  /** Setting a clear flag adds its bit to its byte. */
  lemma {:induction false} SetFlag(v: seq<bool>, i: nat)
    requires i < |v| && !v[i]
    ensures Words(v)[i / 8] + Bit(i % 8) < 256
    ensures Words(v[i := true]) == Words(v)[i / 8 := Words(v)[i / 8] + Bit(i % 8)]
    decreases i
  {
    hide Word, Bit, Words;
    var u, n := v[i := true], Take8(v);
    WordsUnfold(v);
    WordsUnfold(u);
    if i < 8 {
      SetBit(v[..n], i);
      assert u[..n] == v[..n][i := true] && u[n..] == v[n..];
    } else {
      SetFlag(v[8..], i - 8);
      assert u[..n] == v[..n] && u[8..] == v[8..][i - 8 := true];
      assert i / 8 == (i - 8) / 8 + 1 && i % 8 == (i - 8) % 8;
      UpdateBehind(Word(v[..n]), Words(v[8..]), (i - 8) / 8, Words(v[8..])[(i - 8) / 8] + Bit(i % 8));
    }
  }

  lemma {:induction false} SetBit(v: seq<bool>, i: nat)
    requires i < |v| <= 8 && !v[i]
    ensures Word(v[i := true]) == Word(v) + Bit(i)
    decreases i
  {
    if i == 0 {
      assert v[0 := true][1..] == v[1..];
    } else {
      SetBit(v[1..], i - 1);
      assert v[i := true][1..] == v[1..][i - 1 := true];
    }
  }

  /** A vector of which the first elements have been read. */
  ghost function Prepend<T>(v: seq<T>, r: Outcome<(seq<T>, Bytes)>): Outcome<(seq<T>, Bytes)> {
    match r
    case Rejected => Rejected
    case Ok(p) => Ok((v + p.0, p.1))
  }

  lemma WriteAllParts<T>(write: T -> Bytes, v: seq<T>, i: nat)
    requires i <= |v|
    ensures v[0..] == v
    ensures WriteAll(write, v[i..]) == if i == |v| then [] else write(v[i]) + WriteAll(write, v[i + 1..])
  {
  }

  lemma Associate(a: Bytes, b: Bytes, c: Bytes)
    ensures a + b + c == a + (b + c) && a + [] == a
  {
  }

  lemma Regroup(s: Bytes, a: Bytes, b: Bytes, c: Bytes, d: Bytes)
    ensures s + a + b + c + d == s + (a + b + c + d)
  {
  }

  lemma PrependNothing<T>(r: Outcome<(seq<T>, Bytes)>)
    ensures Prepend([], r) == r
  {
    if r.Ok? {
      assert [] + r.value.0 == r.value.0;
    }
  }

  lemma PrependEnd<T>(read: Reader<T>, v: seq<T>, s: Bytes)
    ensures Prepend(v, ReadAll(read, 0, s)) == Ok((v, s))
  {
    assert v + [] == v;
  }

  lemma ReadNext<T>(read: Reader<T>, v: seq<T>, n: nat, s: Bytes)
    requires n > 0
    ensures Prepend(v, ReadAll(read, n, s)) ==
            if read(s).Ok? then Prepend(v + [read(s).value.0], ReadAll(read, n - 1, read(s).value.1)) else Rejected
  {
    if read(s).Ok? {
      var x := read(s).value.0;
      var r := ReadAll(read, n - 1, read(s).value.1);
      if r.Ok? {
        assert v + ([x] + r.value.0) == v + [x] + r.value.0;
      }
    }
  }

  class DataStream {
    var vch: Bytes
    var nReadPos: nat

    ghost predicate Valid()
      reads this
    {
      nReadPos <= |vch|
    }

    constructor ()
      ensures Valid() && Unread() == []
    {
      vch, nReadPos := [], 0;
    }

    /** What can still be read. */
    ghost function Unread(): Bytes
      reads this
    {
      if nReadPos <= |vch| then vch[nReadPos..] else []
    }

    method Write(b: Bytes)
      requires Valid()
      modifies this
      ensures Valid() && Unread() == old(Unread()) + b
    {
      vch := vch + b;
    }

    /** Reading past the end throws and takes nothing; reading up to the end empties the buffer. */
    method Read(nSize: nat) returns (ok: bool, b: Bytes)
      requires Valid()
      modifies this
      ensures Valid() && ok == (nSize <= |old(Unread())|)
      ensures if ok then b == old(Unread())[..nSize] && Unread() == old(Unread())[nSize..]
              else Unread() == old(Unread())
    {
      var nReadPosNext := nReadPos + nSize;
      if nReadPosNext >= |vch| {
        if nReadPosNext > |vch| {
          return false, [];
        }
        b := vch[nReadPos..];
        nReadPos, vch := 0, [];
        return true, b;
      }
      b := vch[nReadPos..nReadPosNext];
      nReadPos := nReadPosNext;
      ok := true;
    }

    // ----- compact sizes and byte vectors -----

    method PutCompactSize(n: nat)
      requires Valid()
      modifies this
      ensures Valid() && Unread() == old(Unread()) + WriteCompactSize(n)
    {
      hide WriteCompactSize, LowBytes;
      CompactSizeParts(n);
      if n < 253 {
        Write([n]);
      } else if n <= 0xffff {
        PutMarked(253, n, 2);
      } else if n <= 0xffff_ffff {
        PutMarked(254, n, 4);
      } else {
        PutMarked(255, n, 8);
      }
    }

    method PutMarked(chSize: byte, n: nat, width: nat)
      requires Valid()
      modifies this
      ensures Valid() && Unread() == old(Unread()) + ([chSize] + LowBytes(n, width))
    {
      hide LowBytes;
      Write([chSize]);
      Write(LowBytes(n, width));
    }

    method GetUInt(n: nat) returns (ok: bool, v: nat)
      requires Valid()
      modifies this
      ensures Valid()
      ensures var r := ReadUInt(n, old(Unread()));
              ok == r.Ok? && (ok ==> v == r.value.0 && Unread() == r.value.1)
    {
      var b;
      ok, b := Read(n);
      v := LittleEndian(b);
    }

    method GetInt(n: nat) returns (ok: bool, v: int)
      requires Valid()
      modifies this
      ensures Valid()
      ensures var r := ReadInt(n, old(Unread()));
              ok == r.Ok? && (ok ==> v == r.value.0 && Unread() == r.value.1)
    {
      var u;
      ok, u := GetUInt(n);
      v := if 2 * u < Pow256(n) then u else u - Pow256(n);
    }

    method GetCompactSize() returns (ok: bool, n: nat)
      requires Valid()
      modifies this
      ensures Valid()
      ensures var r := ReadCompactSize(old(Unread()));
              ok == r.Ok? && (ok ==> n == r.value.0 && Unread() == r.value.1)
    {
      hide LittleEndian;
      n := 0;
      var ch;
      ok, ch := Read(1);
      if !ok {
        return;
      }
      var chSize := ch[0];
      if chSize < 253 {
        n := chSize;
      } else {
        ok, n := GetUInt(if chSize == 253 then 2 else if chSize == 254 then 4 else 8);
        if !ok {
          return;
        }
      }
      ok := n <= MAX_SIZE;
    }

    method PutBytes(b: Bytes)
      requires Valid()
      modifies this
      ensures Valid() && Unread() == old(Unread()) + WriteBytes(b)
    {
      hide WriteCompactSize;
      PutCompactSize(|b|);
      if b != [] {
        Write(b);
      }
    }

    /** Vectors are read in blocks, so that a bogus size cannot exhaust the memory. */
    method GetBytes() returns (ok: bool, v: Bytes)
      requires Valid()
      modifies this
      ensures Valid()
      ensures var r := ReadBytes(old(Unread()));
              ok == r.Ok? && (ok ==> v == r.value.0 && Unread() == r.value.1)
    {
      hide ReadCompactSize;
      v := [];
      var nSize;
      ok, nSize := GetCompactSize();
      if !ok {
        return;
      }
      ghost var all := Unread();
      var i := 0;
      while i < nSize
        invariant Valid() && i <= nSize && i <= |all| && v == all[..i] && Unread() == all[i..]
      {
        var blk := if nSize - i < 5000000 then nSize - i else 5000000;
        var b;
        ok, b := Read(blk);
        if !ok {
          return;
        }
        assert all[..i] + all[i..][..blk] == all[..i + blk];
        v := v + b;
        i := i + blk;
      }
    }

    // ----- bit vectors -----

    method PutBits(v: seq<bool>)
      requires Valid()
      modifies this
      ensures Valid() && Unread() == old(Unread()) + WriteBits(v)
    {
      hide WriteCompactSize, Words, Bit;
      PutCompactSize(|v|);
      ZeroWords(|v|);
      ghost var start := Unread();
      var words: Bytes := seq(WordCount(|v|), _ => 0);
      ghost var done := seq(|v|, _ => false);
      for i := 0 to |v|
        invariant Valid() && Unread() == start && |done| == |v| && words == Words(done)
        invariant forall k :: 0 <= k < |v| ==> done[k] == (k < i && v[k])
      {
        if v[i] {
          SetFlag(done, i);
          words := words[i / 8 := words[i / 8] + Bit(i % 8)];
          done := done[i := true];
        }
      }
      assert done == v;
      Write(words);
    }

    method GetBits() returns (ok: bool, v: seq<bool>)
      requires Valid()
      modifies this
      ensures Valid()
      ensures var r := ReadBits(old(Unread()));
              ok == r.Ok? && (ok ==> v == r.value.0 && Unread() == r.value.1)
    {
      hide ReadCompactSize, BitSet;
      v := [];
      var size, words;
      ok, size := GetCompactSize();
      if !ok {
        return;
      }
      ok, words := Read(WordCount(size));
      if !ok {
        return;
      }
      for i := 0 to size
        invariant v == FlagsOf(words, size)[..i]
      {
        v := v + [BitSet(words[i / 8], i % 8)];
      }
    }

    // ----- transactions -----

    method PutTxIn(i: TxIn)
      requires Valid()
      modifies this
      ensures Valid() && Unread() == old(Unread()) + WriteTxIn(i)
    {
      hide LowBytes, WriteBytes, DataStream.Unread;
      Write(LowBytes(i.prevHash, 32));
      Write(LowBytes(i.prevN, 4));
      PutBytes(i.scriptSig);
      Write(LowBytes(i.nSequence, 4));
      Regroup(old(Unread()), LowBytes(i.prevHash, 32), LowBytes(i.prevN, 4), WriteBytes(i.scriptSig),
              LowBytes(i.nSequence, 4));
    }

    method PutTxOut(o: TxOut)
      requires Valid()
      modifies this
      ensures Valid() && Unread() == old(Unread()) + WriteTxOut(o)
    {
      hide WriteInt, WriteBytes, DataStream.Unread;
      Write(WriteInt(o.nValue, 8));
      PutBytes(o.scriptPubKey);
      Associate(old(Unread()), WriteInt(o.nValue, 8), WriteBytes(o.scriptPubKey));
    }

    method PutInputs(vin: seq<TxIn>)
      requires Valid()
      modifies this
      ensures Valid() && Unread() == old(Unread()) + WriteVector(WriteTxIn, vin)
    {
      hide WriteCompactSize, WriteTxIn, WriteAll, DataStream.Unread;
      PutCompactSize(|vin|);
      ghost var start := Unread();
      WriteAllParts(WriteTxIn, vin, 0);
      for i := 0 to |vin|
        invariant Valid() && Unread() + WriteAll(WriteTxIn, vin[i..]) == start + WriteAll(WriteTxIn, vin)
      {
        WriteAllParts(WriteTxIn, vin, i);
        Associate(Unread(), WriteTxIn(vin[i]), WriteAll(WriteTxIn, vin[i + 1..]));
        PutTxIn(vin[i]);
      }
      WriteAllParts(WriteTxIn, vin, |vin|);
      Associate(old(Unread()), WriteCompactSize(|vin|), WriteAll(WriteTxIn, vin));
    }

    method PutOutputs(vout: seq<TxOut>)
      requires Valid()
      modifies this
      ensures Valid() && Unread() == old(Unread()) + WriteVector(WriteTxOut, vout)
    {
      hide WriteCompactSize, WriteTxOut, WriteAll, DataStream.Unread;
      PutCompactSize(|vout|);
      ghost var start := Unread();
      WriteAllParts(WriteTxOut, vout, 0);
      for i := 0 to |vout|
        invariant Valid() && Unread() + WriteAll(WriteTxOut, vout[i..]) == start + WriteAll(WriteTxOut, vout)
      {
        WriteAllParts(WriteTxOut, vout, i);
        Associate(Unread(), WriteTxOut(vout[i]), WriteAll(WriteTxOut, vout[i + 1..]));
        PutTxOut(vout[i]);
      }
      WriteAllParts(WriteTxOut, vout, |vout|);
      Associate(old(Unread()), WriteCompactSize(|vout|), WriteAll(WriteTxOut, vout));
    }

    method PutTx(t: Tx)
      requires Valid()
      modifies this
      ensures Valid() && Unread() == old(Unread()) + WriteTx(t)
    {
      hide WriteInt, LowBytes, WriteVector, DataStream.Unread;
      Write(WriteInt(t.nVersion, 4));
      PutInputs(t.vin);
      PutOutputs(t.vout);
      Write(LowBytes(t.nLockTime, 4));
      Regroup(old(Unread()), WriteInt(t.nVersion, 4), WriteVector(WriteTxIn, t.vin), WriteVector(WriteTxOut, t.vout),
              LowBytes(t.nLockTime, 4));
    }

    method GetInputs() returns (ok: bool, vin: seq<TxIn>)
      requires Valid()
      modifies this
      ensures Valid()
      ensures var r := ReadVector(ReadTxIn, old(Unread()));
              ok == r.Ok? && (ok ==> vin == r.value.0 && Unread() == r.value.1)
    {
      hide ReadCompactSize, ReadTxIn, ReadAll, Prepend, DataStream.Unread;
      vin := [];
      var nSize;
      ok, nSize := GetCompactSize();
      if !ok {
        return;
      }
      ghost var whole := ReadAll(ReadTxIn, nSize, Unread());
      PrependNothing(whole);
      var i := 0;
      while i < nSize
        invariant Valid() && i <= nSize
        invariant whole == Prepend(vin, ReadAll(ReadTxIn, nSize - i, Unread()))
      {
        var txin;
        ReadNext(ReadTxIn, vin, nSize - i, Unread());
        ok, txin := GetTxIn();
        if !ok {
          return;
        }
        vin := vin + [txin];
        i := i + 1;
      }
      PrependEnd(ReadTxIn, vin, Unread());
    }

    method GetTxIn() returns (ok: bool, txin: TxIn)
      requires Valid()
      modifies this
      ensures Valid()
      ensures var r := ReadTxIn(old(Unread()));
              ok == r.Ok? && (ok ==> txin == r.value.0 && Unread() == r.value.1)
    {
      hide ReadUInt, ReadBytes;
      var hash, n, script, sequence := 0, 0, [], 0;
      ok, hash := GetUInt(32);
      if ok {
        ok, n := GetUInt(4);
      }
      if ok {
        ok, script := GetBytes();
      }
      if ok {
        ok, sequence := GetUInt(4);
      }
      txin := TxIn(hash, n, script, sequence);
    }

    method GetTxOut() returns (ok: bool, txout: TxOut)
      requires Valid()
      modifies this
      ensures Valid()
      ensures var r := ReadTxOut(old(Unread()));
              ok == r.Ok? && (ok ==> txout == r.value.0 && Unread() == r.value.1)
    {
      hide ReadInt, ReadBytes;
      var value, script := 0, [];
      ok, value := GetInt(8);
      if ok {
        ok, script := GetBytes();
      }
      txout := TxOut(value, script);
    }

    method GetOutputs() returns (ok: bool, vout: seq<TxOut>)
      requires Valid()
      modifies this
      ensures Valid()
      ensures var r := ReadVector(ReadTxOut, old(Unread()));
              ok == r.Ok? && (ok ==> vout == r.value.0 && Unread() == r.value.1)
    {
      hide ReadCompactSize, ReadTxOut, ReadAll, Prepend, DataStream.Unread;
      vout := [];
      var nSize;
      ok, nSize := GetCompactSize();
      if !ok {
        return;
      }
      ghost var whole := ReadAll(ReadTxOut, nSize, Unread());
      PrependNothing(whole);
      var i := 0;
      while i < nSize
        invariant Valid() && i <= nSize
        invariant whole == Prepend(vout, ReadAll(ReadTxOut, nSize - i, Unread()))
      {
        var txout;
        ReadNext(ReadTxOut, vout, nSize - i, Unread());
        ok, txout := GetTxOut();
        if !ok {
          return;
        }
        vout := vout + [txout];
        i := i + 1;
      }
      PrependEnd(ReadTxOut, vout, Unread());
    }

    method GetTx() returns (ok: bool, t: Tx)
      requires Valid()
      modifies this
      ensures Valid()
      ensures var r := ReadTx(old(Unread()));
              ok == r.Ok? && (ok ==> t == r.value.0 && Unread() == r.value.1)
    {
      hide ReadInt, ReadUInt, ReadVector;
      var version, vin, vout, lockTime := 0, [], [], 0;
      ok, version := GetInt(4);
      if ok {
        ok, vin := GetInputs();
      }
      if ok {
        ok, vout := GetOutputs();
      }
      if ok {
        ok, lockTime := GetUInt(4);
      }
      t := Tx(version, vin, vout, lockTime);
    }
  }
}
