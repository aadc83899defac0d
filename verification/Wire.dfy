/** Transactions, blocks and merged-mining proofs as bytes (src/main.h, src/auxpow.h). */
module Wire {
  import opened Common
  import opened Serialize
  import Connect
  import Chain = ChainTypes

  datatype TxIn = TxIn(prevHash: nat, prevN: nat, scriptSig: Bytes, nSequence: nat)

  datatype TxOut = TxOut(nValue: int, scriptPubKey: Bytes)

  datatype Tx = Tx(nVersion: int, vin: seq<TxIn>, vout: seq<TxOut>, nLockTime: nat)

  // ----- inputs and outputs -----

  function WriteTxIn(i: TxIn): Bytes {
    LowBytes(i.prevHash, 32) + LowBytes(i.prevN, 4) + WriteBytes(i.scriptSig) + LowBytes(i.nSequence, 4)
  }

  function ReadTxIn(s: Bytes): (r: Outcome<(TxIn, Bytes)>)
    ensures r.Ok? ==> |r.value.1| <= |s|
  {
    var (h, s1) :- ReadUInt(32, s);
    var (n, s2) :- ReadUInt(4, s1);
    var (script, s3) :- ReadBytes(s2);
    var (sequence, s4) :- ReadUInt(4, s3);
    Ok((TxIn(h, n, script, sequence), s4))
  }

  function TxInSize(i: TxIn): nat {
    36 + BytesSize(i.scriptSig) + 4
  }

  predicate ValidTxIn(i: TxIn) {
    FitsUInt(i.prevHash, 32) && FitsUInt(i.prevN, 4) && |i.scriptSig| <= MAX_SIZE && FitsUInt(i.nSequence, 4)
  }

  lemma TxInInverse(i: TxIn, rest: Bytes)
    requires ValidTxIn(i)
    ensures ReadTxIn(WriteTxIn(i) + rest) == Ok((i, rest)) && |WriteTxIn(i)| == TxInSize(i)
  {
    hide LowBytes, ReadUInt, WriteBytes, ReadBytes, FitsUInt, BytesSize;
    var r3 := LowBytes(i.nSequence, 4) + rest;
    var r2 := WriteBytes(i.scriptSig) + r3;
    var r1 := LowBytes(i.prevN, 4) + r2;
    assert WriteTxIn(i) + rest == LowBytes(i.prevHash, 32) + r1;
    UIntInverse(i.prevHash, 32, r1);
    UIntInverse(i.prevN, 4, r2);
    BytesInverse(i.scriptSig, r3);
    UIntInverse(i.nSequence, 4, rest);
  }

  function WriteTxOut(o: TxOut): Bytes {
    WriteInt(o.nValue, 8) + WriteBytes(o.scriptPubKey)
  }

  function ReadTxOut(s: Bytes): (r: Outcome<(TxOut, Bytes)>)
    ensures r.Ok? ==> |r.value.1| <= |s|
  {
    var (v, s1) :- ReadInt(8, s);
    var (script, s2) :- ReadBytes(s1);
    Ok((TxOut(v, script), s2))
  }

  function TxOutSize(o: TxOut): nat {
    8 + BytesSize(o.scriptPubKey)
  }

  predicate ValidTxOut(o: TxOut) {
    FitsInt(o.nValue, 8) && |o.scriptPubKey| <= MAX_SIZE
  }

  lemma TxOutInverse(o: TxOut, rest: Bytes)
    requires ValidTxOut(o)
    ensures ReadTxOut(WriteTxOut(o) + rest) == Ok((o, rest)) && |WriteTxOut(o)| == TxOutSize(o)
  {
    hide WriteInt, ReadInt, WriteBytes, ReadBytes, FitsInt, BytesSize;
    var r1 := WriteBytes(o.scriptPubKey) + rest;
    assert WriteTxOut(o) + rest == WriteInt(o.nValue, 8) + r1;
    IntInverse(o.nValue, 8, r1);
    BytesInverse(o.scriptPubKey, rest);
  }

  // ----- transactions -----

  function WriteTx(t: Tx): Bytes {
    WriteInt(t.nVersion, 4) + WriteVector(WriteTxIn, t.vin) + WriteVector(WriteTxOut, t.vout) + LowBytes(t.nLockTime, 4)
  }

  function ReadTx(s: Bytes): (r: Outcome<(Tx, Bytes)>)
    ensures r.Ok? ==> |r.value.1| <= |s|
  {
    var (version, s1) :- ReadInt(4, s);
    assert Consumes(ReadTxIn) && Consumes(ReadTxOut);
    var (vin, s2) :- ReadVector(ReadTxIn, s1);
    var (vout, s3) :- ReadVector(ReadTxOut, s2);
    var (lockTime, s4) :- ReadUInt(4, s3);
    Ok((Tx(version, vin, vout, lockTime), s4))
  }

  /** GetSerializeSize(tx, SER_DISK) */
  function TxSize(t: Tx): nat {
    4 + Connect.CompactSizeLength(|t.vin|) + SumOfSizes(TxInSize, t.vin)
      + Connect.CompactSizeLength(|t.vout|) + SumOfSizes(TxOutSize, t.vout) + 4
  }

  predicate ValidTx(t: Tx) {
    && FitsInt(t.nVersion, 4) && FitsUInt(t.nLockTime, 4)
    && |t.vin| <= MAX_SIZE && |t.vout| <= MAX_SIZE
    && (forall i :: 0 <= i < |t.vin| ==> ValidTxIn(t.vin[i]))
    && (forall i :: 0 <= i < |t.vout| ==> ValidTxOut(t.vout[i]))
  }

  lemma InsInverse(v: seq<TxIn>, rest: Bytes)
    requires |v| <= MAX_SIZE && forall i :: 0 <= i < |v| ==> ValidTxIn(v[i])
    ensures ReadVector(ReadTxIn, WriteVector(WriteTxIn, v) + rest) == Ok((v, rest))
    ensures |WriteVector(WriteTxIn, v)| == Connect.CompactSizeLength(|v|) + SumOfSizes(TxInSize, v)
  {
    hide ReadVector, WriteTxIn, ReadTxIn, TxInSize, ValidTxIn;
    forall x, r | ValidTxIn(x) ensures ReadTxIn(WriteTxIn(x) + r) == Ok((x, r)) {
      TxInInverse(x, r);
    }
    VectorInverse(WriteTxIn, ReadTxIn, ValidTxIn, v, rest);
    forall i | 0 <= i < |v| ensures |WriteTxIn(v[i])| == TxInSize(v[i]) {
      TxInInverse(v[i], []);
    }
    AllSize(WriteTxIn, TxInSize, v);
    CompactSizeInverse(|v|, []);
  }

  lemma OutsInverse(v: seq<TxOut>, rest: Bytes)
    requires |v| <= MAX_SIZE && forall i :: 0 <= i < |v| ==> ValidTxOut(v[i])
    ensures ReadVector(ReadTxOut, WriteVector(WriteTxOut, v) + rest) == Ok((v, rest))
    ensures |WriteVector(WriteTxOut, v)| == Connect.CompactSizeLength(|v|) + SumOfSizes(TxOutSize, v)
  {
    hide ReadVector, WriteTxOut, ReadTxOut, TxOutSize, ValidTxOut;
    forall x, r | ValidTxOut(x) ensures ReadTxOut(WriteTxOut(x) + r) == Ok((x, r)) {
      TxOutInverse(x, r);
    }
    VectorInverse(WriteTxOut, ReadTxOut, ValidTxOut, v, rest);
    forall i | 0 <= i < |v| ensures |WriteTxOut(v[i])| == TxOutSize(v[i]) {
      TxOutInverse(v[i], []);
    }
    AllSize(WriteTxOut, TxOutSize, v);
    CompactSizeInverse(|v|, []);
  }

  /** A transaction is read back from its bytes, whatever follows, and has as many bytes as
      GetSerializeSize says. */
  lemma TxInverse(t: Tx, rest: Bytes)
    requires ValidTx(t)
    ensures ReadTx(WriteTx(t) + rest) == Ok((t, rest)) && |WriteTx(t)| == TxSize(t)
  {
    hide WriteInt, ReadInt, LowBytes, ReadUInt, WriteVector, ReadVector, FitsInt, FitsUInt, SumOfSizes;
    var r3 := LowBytes(t.nLockTime, 4) + rest;
    var r2 := WriteVector(WriteTxOut, t.vout) + r3;
    var r1 := WriteVector(WriteTxIn, t.vin) + r2;
    assert WriteTx(t) + rest == WriteInt(t.nVersion, 4) + r1;
    IntInverse(t.nVersion, 4, r1);
    InsInverse(t.vin, r2);
    OutsInverse(t.vout, r3);
    UIntInverse(t.nLockTime, 4, rest);
  }

  // ----- block headers and merged-mining proofs -----

  datatype Header = Header(nVersion: int, hashPrev: nat, hashMerkleRoot: nat, nTime: nat, nBits: nat, nNonce: nat,
                           auxpow: Option<AuxPow>)

  datatype AuxPow = AuxPow(tx: Tx, hashBlock: nat, vMerkleBranch: seq<nat>, nIndex: int,
                           vChainMerkleBranch: seq<nat>, nChainIndex: int, parentBlock: Header)

  datatype Block = Block(header: Header, vtx: seq<Tx>)

  /** The version bit that announces a merged-mining proof. */
  predicate HasAuxPowBit(nVersion: int) {
    (nVersion / BLOCK_VERSION_AUXPOW) % 2 == 1
  }

  function WriteHash(h: nat): Bytes {
    LowBytes(h, 32)
  }

  function ReadHash(s: Bytes): (r: Outcome<(nat, Bytes)>)
    ensures r.Ok? ==> |r.value.1| <= |s|
  {
    ReadUInt(32, s)
  }

  function HashSize(h: nat): nat {
    32
  }

  predicate ValidHash(h: nat) {
    FitsUInt(h, 32)
  }

  predicate ValidHashes(v: seq<nat>) {
    |v| <= MAX_SIZE && forall i :: 0 <= i < |v| ==> ValidHash(v[i])
  }

  lemma HashesInverse(v: seq<nat>, rest: Bytes)
    requires ValidHashes(v)
    ensures ReadVector(ReadHash, WriteVector(WriteHash, v) + rest) == Ok((v, rest))
    ensures |WriteVector(WriteHash, v)| == Connect.CompactSizeLength(|v|) + SumOfSizes(HashSize, v)
  {
    hide ReadVector, LowBytes, ReadUInt, FitsUInt;
    forall x: nat, r | ValidHash(x) ensures ReadHash(WriteHash(x) + r) == Ok((x, r)) {
      UIntInverse(x, 32, r);
    }
    VectorInverse(WriteHash, ReadHash, ValidHash, v, rest);
    AllSize(WriteHash, HashSize, v);
    CompactSizeInverse(|v|, []);
  }

  /** The fields every header has. */
  function WriteFields(h: Header): Bytes {
    WriteInt(h.nVersion, 4) + WriteHash(h.hashPrev) + WriteHash(h.hashMerkleRoot)
      + LowBytes(h.nTime, 4) + LowBytes(h.nBits, 4) + LowBytes(h.nNonce, 4)
  }

  function ReadFields(s: Bytes): (r: Outcome<(Header, Bytes)>)
    ensures r.Ok? ==> |r.value.1| < |s|
  {
    var (version, s1) :- ReadInt(4, s);
    var (prev, s2) :- ReadHash(s1);
    var (root, s3) :- ReadHash(s2);
    var (time, s4) :- ReadUInt(4, s3);
    var (bits, s5) :- ReadUInt(4, s4);
    var (nonce, s6) :- ReadUInt(4, s5);
    Ok((Header(version, prev, root, time, bits, nonce, None), s6))
  }

  predicate ValidFields(h: Header) {
    && FitsInt(h.nVersion, 4) && ValidHash(h.hashPrev) && ValidHash(h.hashMerkleRoot)
    && FitsUInt(h.nTime, 4) && FitsUInt(h.nBits, 4) && FitsUInt(h.nNonce, 4)
  }

  lemma FieldsInverse(h: Header, rest: Bytes)
    requires ValidFields(h)
    ensures ReadFields(WriteFields(h) + rest) == Ok((h.(auxpow := None), rest)) && |WriteFields(h)| == 80
  {
    hide WriteInt, ReadInt, LowBytes, ReadUInt, FitsInt, FitsUInt;
    var r5 := LowBytes(h.nNonce, 4) + rest;
    var r4 := LowBytes(h.nBits, 4) + r5;
    var r3 := LowBytes(h.nTime, 4) + r4;
    var r2 := WriteHash(h.hashMerkleRoot) + r3;
    var r1 := WriteHash(h.hashPrev) + r2;
    assert WriteFields(h) + rest == WriteInt(h.nVersion, 4) + r1;
    IntInverse(h.nVersion, 4, r1);
    UIntInverse(h.hashPrev, 32, r2);
    UIntInverse(h.hashMerkleRoot, 32, r3);
    UIntInverse(h.nTime, 4, r4);
    UIntInverse(h.nBits, 4, r5);
    UIntInverse(h.nNonce, 4, rest);
  }

  /** CBlock with SER_BLOCKHEADERONLY: the proof follows the fields when the version says so. */
  function WriteHeader(h: Header): Bytes {
    WriteFields(h) + match h.auxpow
                     case None => []
                     case Some(a) => WriteAuxPow(a)
  }

  /** CAuxPow: the parent block is always written as a header. */
  function WriteAuxPow(a: AuxPow): Bytes {
    WriteProof(a) + WriteHeader(a.parentBlock)
  }

  /** All of a proof but its parent block. */
  function WriteProof(a: AuxPow): Bytes {
    WriteTx(a.tx) + WriteHash(a.hashBlock) + WriteVector(WriteHash, a.vMerkleBranch) + WriteInt(a.nIndex, 4)
      + WriteVector(WriteHash, a.vChainMerkleBranch) + WriteInt(a.nChainIndex, 4)
  }

  function ReadProof(s: Bytes, parent: Header): (r: Outcome<(AuxPow, Bytes)>)
    ensures r.Ok? ==> |r.value.1| <= |s|
  {
    var (tx, s1) :- ReadTx(s);
    var (hashBlock, s2) :- ReadHash(s1);
    assert Consumes(ReadHash);
    var (branch, s3) :- ReadVector(ReadHash, s2);
    var (index, s4) :- ReadInt(4, s3);
    var (chainBranch, s5) :- ReadVector(ReadHash, s4);
    var (chainIndex, s6) :- ReadInt(4, s5);
    Ok((AuxPow(tx, hashBlock, branch, index, chainBranch, chainIndex, parent), s6))
  }

  function ReadHeader(s: Bytes): (r: Outcome<(Header, Bytes)>)
    ensures r.Ok? ==> |r.value.1| < |s|
    decreases |s|
  {
    var (h, s1) :- ReadFields(s);
    if !HasAuxPowBit(h.nVersion) then Ok((h, s1))
    else
      var (a, s2) :- ReadProof(s1, h);
      var (parent, s3) :- ReadHeader(s2);
      Ok((h.(auxpow := Some(a.(parentBlock := parent))), s3))
  }

  function HeaderSize(h: Header): nat {
    80 + match h.auxpow
         case None => 0
         case Some(a) => ProofSize(a) + HeaderSize(a.parentBlock)
  }

  function ProofSize(a: AuxPow): nat {
    TxSize(a.tx) + 32 + Connect.CompactSizeLength(|a.vMerkleBranch|) + SumOfSizes(HashSize, a.vMerkleBranch) + 4
      + Connect.CompactSizeLength(|a.vChainMerkleBranch|) + SumOfSizes(HashSize, a.vChainMerkleBranch) + 4
  }

  predicate ValidProof(a: AuxPow) {
    && ValidTx(a.tx) && ValidHash(a.hashBlock) && ValidHashes(a.vMerkleBranch) && FitsInt(a.nIndex, 4)
    && ValidHashes(a.vChainMerkleBranch) && FitsInt(a.nChainIndex, 4)
  }

  /** A header carries a proof exactly when its version announces one. */
  predicate ValidHeader(h: Header) {
    && ValidFields(h)
    && HasAuxPowBit(h.nVersion) == h.auxpow.Some?
    && (h.auxpow.Some? ==> ValidProof(h.auxpow.value) && ValidHeader(h.auxpow.value.parentBlock))
  }

  lemma ProofInverse(a: AuxPow, parent: Header, rest: Bytes)
    requires ValidProof(a)
    ensures ReadProof(WriteProof(a) + rest, parent) == Ok((a.(parentBlock := parent), rest))
            && |WriteProof(a)| == ProofSize(a)
  {
    hide WriteTx, ReadTx, TxSize, ValidTx, WriteInt, ReadInt, LowBytes, ReadUInt, WriteVector, ReadVector, FitsInt,
         FitsUInt, ValidHashes;
    var r5 := WriteInt(a.nChainIndex, 4) + rest;
    var r4 := WriteVector(WriteHash, a.vChainMerkleBranch) + r5;
    var r3 := WriteInt(a.nIndex, 4) + r4;
    var r2 := WriteVector(WriteHash, a.vMerkleBranch) + r3;
    var r1 := WriteHash(a.hashBlock) + r2;
    assert WriteProof(a) + rest == WriteTx(a.tx) + r1;
    TxInverse(a.tx, r1);
    UIntInverse(a.hashBlock, 32, r2);
    HashesInverse(a.vMerkleBranch, r3);
    IntInverse(a.nIndex, 4, r4);
    HashesInverse(a.vChainMerkleBranch, r5);
    IntInverse(a.nChainIndex, 4, rest);
  }

  /** A header is read back with its proof, and with the proof of its parent header, and so
      on. */
  lemma {:induction false} HeaderInverse(h: Header, rest: Bytes)
    requires ValidHeader(h)
    ensures ReadHeader(WriteHeader(h) + rest) == Ok((h, rest)) && |WriteHeader(h)| == HeaderSize(h)
    decreases h
  {
    hide WriteFields, ReadFields, WriteProof, ReadProof, ProofSize, ValidFields, ValidProof;
    match h.auxpow {
      case None =>
        assert WriteHeader(h) + rest == WriteFields(h) + rest;
        FieldsInverse(h, rest);
      case Some(a) =>
        var tail := WriteHeader(a.parentBlock) + rest;
        assert WriteHeader(h) + rest == WriteFields(h) + (WriteProof(a) + tail);
        FieldsInverse(h, WriteProof(a) + tail);
        ProofInverse(a, h.(auxpow := None), tail);
        HeaderInverse(a.parentBlock, rest);
    }
  }

  // ----- blocks -----

  function WriteBlock(b: Block): Bytes {
    WriteHeader(b.header) + WriteVector(WriteTx, b.vtx)
  }

  function ReadBlock(s: Bytes): Outcome<(Block, Bytes)> {
    var (h, s1) :- ReadHeader(s);
    var (vtx, s2) :- ReadVector(ReadTx, s1);
    Ok((Block(h, vtx), s2))
  }

  predicate ValidBlock(b: Block) {
    ValidHeader(b.header) && |b.vtx| <= MAX_SIZE && forall i :: 0 <= i < |b.vtx| ==> ValidTx(b.vtx[i])
  }

  lemma BlockInverse(b: Block, rest: Bytes)
    requires ValidBlock(b)
    ensures ReadBlock(WriteBlock(b) + rest) == Ok((b, rest))
  {
    hide WriteHeader, ReadHeader, WriteTx, ReadTx, ValidHeader, ValidTx, ReadVector, WriteVector;
    var r1 := WriteVector(WriteTx, b.vtx) + rest;
    assert WriteBlock(b) + rest == WriteHeader(b.header) + r1;
    HeaderInverse(b.header, r1);
    forall x, r | ValidTx(x) ensures ReadTx(WriteTx(x) + r) == Ok((x, r)) {
      TxInverse(x, r);
    }
    VectorInverse(WriteTx, ReadTx, ValidTx, b.vtx, rest);
  }

  // ----- recorded positions -----

  /** A transaction as the chain logic sees it: named by the hash of its bytes, with the size
      that GetSerializeSize computes. */
  function Meaning(hash: Bytes -> nat, t: Tx): Chain.Tx {
    Chain.Tx(hash(WriteTx(t)), t.nVersion,
             seq(|t.vin|, i requires 0 <= i < |t.vin| => Chain.OutPoint(t.vin[i].prevHash, t.vin[i].prevN)),
             seq(|t.vout|, i requires 0 <= i < |t.vout| => Chain.TxOut(t.vout[i].nValue, t.vout[i].scriptPubKey)),
             TxSize(t))
  }

  /** The block as the chain logic sees it. */
  ghost predicate Describes(hash: Bytes -> nat, b: Chain.Block, w: Block) {
    && b.headerSize == HeaderSize(w.header)
    && |b.vtx| == |w.vtx|
    && forall i :: 0 <= i < |w.vtx| ==> b.vtx[i] == Meaning(hash, w.vtx[i])
  }

  lemma {:induction false} WriteAllSplit(v: seq<Tx>, i: nat)
    requires i < |v|
    ensures WriteAll(WriteTx, v) == WriteAll(WriteTx, v[..i]) + WriteTx(v[i]) + WriteAll(WriteTx, v[i + 1..])
    decreases i
  {
    hide WriteTx;
    if i == 0 {
      assert v[..0] == [];
    } else {
      WriteAllSplit(v[1..], i - 1);
      assert v[1..][..i - 1] == v[..i][1..] && v[1..][i..] == v[i + 1..];
    }
  }

  lemma DescribedSize(hash: Bytes -> nat, b: Chain.Block, w: Block, i: nat)
    requires Describes(hash, b, w) && ValidBlock(w) && i < |w.vtx|
    ensures |b.vtx| == |w.vtx| && b.vtx[i].size == |WriteTx(w.vtx[i])|
  {
    hide WriteTx, ValidTx, ValidHeader, TxSize, HeaderSize;
    TxInverse(w.vtx[i], []);
  }

  lemma {:induction false} FrontSize(hash: Bytes -> nat, b: Chain.Block, w: Block, i: nat)
    requires Describes(hash, b, w) && ValidBlock(w) && i <= |w.vtx|
    ensures |WriteAll(WriteTx, w.vtx[..i])| == Connect.SumSizes(b.vtx, i)
  {
    hide WriteTx, ValidBlock, Meaning, HeaderSize;
    if i > 0 {
      FrontSize(hash, b, w, i - 1);
      DescribedSize(hash, b, w, i - 1);
      var v := w.vtx[..i];
      WriteAllSplit(v, i - 1);
      assert v[..i - 1] == w.vtx[..i - 1] && v[i..] == [];
    }
  }

  /** Reading a transaction at the place that ConnectBlock recorded for it, in a file where the
      block was written at its place, gives that transaction; the proof of a merged-mined block,
      which comes before the transactions, is accounted for. */
  lemma PositionReadsBack(hash: Bytes -> nat, file: Bytes, b: Chain.StoredBlock, w: Block, i: nat)
    requires ValidBlock(w) && Describes(hash, b.block, w) && i < |w.vtx|
    requires b.nBlockPos + |WriteBlock(w)| <= |file|
    requires file[b.nBlockPos..b.nBlockPos + |WriteBlock(w)|] == WriteBlock(w)
    ensures var offset := Connect.TxPos(b, i).nTxPos;
            offset <= |file| && ReadTx(file[offset..]).Ok? && ReadTx(file[offset..]).value.0 == w.vtx[i]
  {
    hide WriteTx, ReadTx, ValidTx, ValidHeader, WriteHeader, WriteAll, WriteCompactSize, TxSize, HeaderSize;
    var offset := Connect.TxPos(b, i).nTxPos;
    HeaderInverse(w.header, []);
    CompactSizeInverse(|w.vtx|, []);
    FrontSize(hash, b.block, w, i);
    WriteAllSplit(w.vtx, i);
    TxInverse(w.vtx[i], []);
    var front := WriteHeader(w.header) + WriteCompactSize(|w.vtx|) + WriteAll(WriteTx, w.vtx[..i]);
    var back := WriteAll(WriteTx, w.vtx[i + 1..]);
    assert WriteBlock(w) == front + (WriteTx(w.vtx[i]) + back);
    assert offset == b.nBlockPos + |front|;
    Inside(file, b.nBlockPos, front, WriteTx(w.vtx[i]) + back);
    var after := file[b.nBlockPos + |WriteBlock(w)|..];
    assert WriteTx(w.vtx[i]) + back + after == WriteTx(w.vtx[i]) + (back + after);
    TxInverse(w.vtx[i], back + after);
  }

  lemma Inside(file: Bytes, at: nat, front: Bytes, back: Bytes)
    requires at + |front| + |back| <= |file| && file[at..at + |front| + |back|] == front + back
    ensures file[at + |front|..] == back + file[at + |front| + |back|..]
  {
    var n := at + |front| + |back|;
    assert file[at + |front|..n] == file[at..n][|front|..] == back;
    assert file[at + |front|..] == file[at + |front|..n] + file[n..];
  }

  // ----- where the fields stand -----

  /** A transaction with one input and one output, byte by byte. */
  lemma TxLayout(t: Tx)
    requires |t.vin| == 1 && |t.vout| == 1 && |t.vin[0].scriptSig| < 253 && |t.vout[0].scriptPubKey| < 253
    ensures WriteTx(t)
              == WriteInt(t.nVersion, 4)
                 + [1] + LowBytes(t.vin[0].prevHash, 32) + LowBytes(t.vin[0].prevN, 4)
                 + [|t.vin[0].scriptSig|] + t.vin[0].scriptSig + LowBytes(t.vin[0].nSequence, 4)
                 + [1] + WriteInt(t.vout[0].nValue, 8) + [|t.vout[0].scriptPubKey|] + t.vout[0].scriptPubKey
                 + LowBytes(t.nLockTime, 4)
  {
    hide LowBytes, WriteInt;
    var i, o := t.vin[0], t.vout[0];
    assert WriteAll(WriteTxIn, t.vin) == WriteTxIn(i) by {
      assert t.vin[1..] == [];
    }
    assert WriteAll(WriteTxOut, t.vout) == WriteTxOut(o) by {
      assert t.vout[1..] == [];
    }
  }

  /** The 80 bytes of a header: version, previous block, merkle root, time, bits, nonce; bit 8 of the
      version announces a proof of merged mining behind them. */
  lemma HeaderLayout(h: Header)
    ensures var s := WriteHeader(h);
            && |s| >= 80 && s[..4] == WriteInt(h.nVersion, 4) && s[4..36] == LowBytes(h.hashPrev, 32)
            && s[36..68] == LowBytes(h.hashMerkleRoot, 32) && s[68..72] == LowBytes(h.nTime, 4)
            && s[72..76] == LowBytes(h.nBits, 4) && s[76..80] == LowBytes(h.nNonce, 4)
            && (h.auxpow == None ==> |s| == 80)
    ensures HasAuxPowBit(h.nVersion) <==> (h.nVersion / 256) % 2 == 1
  {
    hide LowBytes, WriteInt, WriteAuxPow;
  }

  /** A proof: the parent coinbase, the hash of the parent block, the branch of the coinbase with its
      index, the branch of the chains with its index, and the parent header. */
  lemma ProofLayout(a: AuxPow)
    requires |a.vMerkleBranch| == 1 && |a.vChainMerkleBranch| == 1
    ensures WriteAuxPow(a)
              == WriteTx(a.tx) + LowBytes(a.hashBlock, 32)
                 + [1] + LowBytes(a.vMerkleBranch[0], 32) + WriteInt(a.nIndex, 4)
                 + [1] + LowBytes(a.vChainMerkleBranch[0], 32) + WriteInt(a.nChainIndex, 4)
                 + WriteHeader(a.parentBlock)
  {
    hide LowBytes, WriteInt, WriteTx, WriteHeader;
    assert WriteAll(WriteHash, a.vMerkleBranch) == WriteHash(a.vMerkleBranch[0]) by {
      assert a.vMerkleBranch[1..] == [];
    }
    assert WriteAll(WriteHash, a.vChainMerkleBranch) == WriteHash(a.vChainMerkleBranch[0]) by {
      assert a.vChainMerkleBranch[1..] == [];
    }
  }

  lemma {:induction false} ZeroBytes(h: nat, n: nat)
    requires h == 0
    ensures forall i :: 0 <= i < n ==> LowBytes(h, n)[i] == 0
    decreases n
  {
    if n > 0 {
      ZeroBytes(h / 256, n - 1);
    }
  }

  lemma SameBytes(a: nat, b: nat, n: nat)
    requires FitsUInt(a, n) && FitsUInt(b, n) && LowBytes(a, n) == LowBytes(b, n)
    ensures a == b
  {
    LowBytesValue(a, n);
    LowBytesValue(b, n);
  }

  lemma NullBytes(h: nat, n: nat)
    requires ValidHash(h) && FitsUInt(n, 4)
    ensures h == 0 <==> forall k :: 0 <= k < 32 ==> LowBytes(h, 32)[k] == 0
    ensures n == 0xffff_ffff <==> LowBytes(n, 4) == [255, 255, 255, 255]
  {
    hide LowBytes, Pow256;
    WideEnough();
    FourLowBytes(0xffff_ffff);
    if h == 0 {
      ZeroBytes(h, 32);
    } else if forall k :: 0 <= k < 32 ==> LowBytes(h, 32)[k] == 0 {
      var zero: nat := 0;
      ZeroBytes(zero, 32);
      assert LowBytes(h, 32) == LowBytes(zero, 32);
      SameBytes(h, zero, 32);
      assert false;
    }
    if LowBytes(n, 4) == [255, 255, 255, 255] {
      SameBytes(n, 0xffff_ffff, 4);
    }
  }

  lemma FirstInput(t: Tx)
    requires |t.vin| == 1
    ensures var s, i := WriteTx(t), t.vin[0];
            |s| >= 41 && s[5..37] == LowBytes(i.prevHash, 32) && s[37..41] == LowBytes(i.prevN, 4)
  {
    hide LowBytes, WriteInt, WriteBytes, WriteTxOut;
    var i := t.vin[0];
    assert WriteAll(WriteTxIn, t.vin) == WriteTxIn(i) by {
      assert t.vin[1..] == [];
    }
    var front := WriteInt(t.nVersion, 4) + [1];
    assert |front| == 5;
    var back := WriteBytes(i.scriptSig) + LowBytes(i.nSequence, 4) + WriteVector(WriteTxOut, t.vout)
                + LowBytes(t.nLockTime, 4);
    assert WriteTx(t) == front + LowBytes(i.prevHash, 32) + LowBytes(i.prevN, 4) + back;
  }

  /** A coinbase is a transaction with one input, whose previous hash is 32 zero bytes and whose
      previous output is four bytes 255. */
  lemma CoinbaseBytes(hash: Bytes -> nat, t: Tx)
    requires ValidTx(t)
    ensures Meaning(hash, t).IsCoinBase() <==>
              && |t.vin| == 1
              && var s := WriteTx(t);
                 |s| >= 41 && (forall k :: 5 <= k < 37 ==> s[k] == 0) && s[37..41] == [255, 255, 255, 255]
  {
    hide WriteTx, LowBytes, TxSize;
    if |t.vin| == 1 {
      assert ValidTxIn(t.vin[0]);
      NullBytes(t.vin[0].prevHash, t.vin[0].prevN);
      FirstInput(t);
      var s := WriteTx(t);
      assert forall k :: 0 <= k < 32 ==> s[5..37][k] == s[5 + k];
      assert forall k :: 5 <= k < 37 ==> s[k] == s[5..37][k - 5];
    }
  }
}
