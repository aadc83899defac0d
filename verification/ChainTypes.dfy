/** Transactions, blocks and the two databases (src/main.h, src/db.h). */
module ChainTypes {
  import opened Common
  import opened ScriptCode

  type Hash = nat
  type Name = Bytes

  const COIN: int := 100000000
  const CENT: int := 1000000
  const MAX_MONEY: int := 21000000 * COIN
  const COINBASE_MATURITY := 100
  const NULL_INDEX := 0xffff_ffff

  const NAMECOIN_TX_VERSION := 0x7100
  const MIN_AMOUNT: int := CENT
  const MAX_NAME_LENGTH := 255
  const MAX_VALUE_LENGTH := 1023
  const MIN_FIRSTUPDATE_DEPTH := 12

  predicate MoneyRange(v: int) {
    0 <= v <= MAX_MONEY
  }

  datatype OutPoint = OutPoint(hash: Hash, n: nat)

  datatype TxOut = TxOut(nValue: int, scriptPubKey: Script)

  type Size = n: nat | 1 <= n witness 1

  /** A transaction.  `txid` stands for GetHash() and `size` for its serialized size on disk;
      signature scripts enter only through the verification oracle. */
  datatype Tx = Tx(txid: Hash, nVersion: int, vin: seq<OutPoint>, vout: seq<TxOut>, size: Size) {
    predicate IsCoinBase() {
      |vin| == 1 && vin[0] == OutPoint(0, NULL_INDEX)
    }

    predicate IsName() {
      nVersion == NAMECOIN_TX_VERSION
    }
  }

  datatype DiskTxPos = DiskTxPos(nFile: nat, nBlockPos: nat, nTxPos: nat)

  datatype TxIndex = TxIndex(pos: DiskTxPos, isSpent: seq<bool>)

  datatype NameIndex = NameIndex(txPos: DiskTxPos, nHeight: nat, vValue: Bytes)

  /** A block; `headerSize` is its serialized size without the transactions. */
  datatype Block = Block(hash: Hash, hashPrev: Hash, nBits: nat, headerSize: Size, vtx: seq<Tx>)

  /** A block together with the place in the block files where it was written. */
  datatype StoredBlock = StoredBlock(nFile: nat, nBlockPos: nat, block: Block)

  /** A branch of the block tree, genesis first: index is height. */
  type Chain = seq<StoredBlock>

  /** The transaction index (blkindex.dat) and the name index (nameindex.dat). */
  datatype Indexes = Indexes(txs: map<Hash, TxIndex>, names: map<Name, seq<NameIndex>>)

  /** What the node reads but the chain logic does not compute. */
  datatype Env = Env(
    testnet: bool,
    disk: map<DiskTxPos, Tx>,
    verify: (Tx, Tx, nat) -> bool,
    hash160: Bytes -> Bytes,
    blockChecks: (Block, nat) -> bool)

  function SumOut(vout: seq<TxOut>): int {
    if vout == [] then 0 else SumOut(vout[..|vout| - 1]) + vout[|vout| - 1].nValue
  }

  function Scripts(vout: seq<TxOut>): seq<Script> {
    seq(|vout|, i requires 0 <= i < |vout| => vout[i].scriptPubKey)
  }

  /** The history of a name; a missing database entry counts as an empty one. */
  function History(names: map<Name, seq<NameIndex>>, name: Name): seq<NameIndex> {
    if name in names then names[name] else []
  }

  ghost predicate SameHistories(a: map<Name, seq<NameIndex>>, b: map<Name, seq<NameIndex>>) {
    forall name :: History(a, name) == History(b, name)
  }

  /** Equality of the two databases up to empty name entries. */
  ghost predicate Same(a: Indexes, b: Indexes) {
    a.txs == b.txs && SameHistories(a.names, b.names)
  }
}
