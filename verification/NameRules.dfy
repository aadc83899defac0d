/** Height-dependent rules of the name protocol (src/namecoin.cpp). */
module NameRules {
  import opened Common
  import opened ChainTypes
  import opened ScriptCode
  import opened NameScript

  const BUG_WORKAROUND_BLOCK := 150000
  const OP_RETURN := 106

  predicate PostLibcoinFork(testnet: bool, height: int) {
    if testnet then height >= 108000 else height >= BUG_WORKAROUND_BLOCK
  }

  predicate StrictChecks(testnet: bool, height: int) {
    if testnet then height >= 108000 else height >= 212500
  }

  function ExpirationDepth(height: int): int {
    if height < 24000 then 12000
    else if height < 48000 then height - 12000
    else 36000
  }

  function ShiftRight(v: nat, k: nat): nat {
    if k == 0 then v else ShiftRight(v / 2, k - 1)
  }

  function NetworkFee(testnet: bool, height: nat): int {
    var h := if height >= 24000 then height + (height - 24000) * 3 else height;
    if h / 8192 >= 60 then 0
    else
      var start := if testnet then 10 * CENT else 50 * COIN;
      var res := ShiftRight(start, h / 8192);
      res - ShiftRight(res, 14) * (h % 8192)
  }

  /** Coins burnt by a transaction in outputs whose script is a lone OP_RETURN. */
  function NameNetFee(vout: seq<TxOut>): int {
    if vout == [] then 0
    else
      var last := vout[|vout| - 1];
      NameNetFee(vout[..|vout| - 1]) + if last.scriptPubKey == [OP_RETURN] then last.nValue else 0
  }

  /** Result of DecodeNameTx; `op` and `args` are meaningful when `good`. */
  datatype NameTx = NameTx(good: bool, op: nat, nOut: nat, args: seq<Bytes>)

  function DecodeNameTx(tx: Tx, strict: bool): (d: NameTx)
    ensures d.good ==> d.nOut < |tx.vout| && d.args != []
  {
    var a := ScanScripts(strict, Scripts(tx.vout), |tx.vout|);
    NameTx(a.found && !a.multiple, a.op, a.index, a.args)
  }

  /** The vector reads that follow a decode stay in bounds: the operation can have been
      overwritten by a later output, so it need not agree with the argument count. */
  predicate ArgsCover(d: NameTx) {
    |d.args| >= if d.op == OP_NAME_FIRSTUPDATE then 3 else if d.op == OP_NAME_UPDATE then 2 else 1
  }

  predicate Registers(op: nat) {
    op == OP_NAME_FIRSTUPDATE || op == OP_NAME_UPDATE
  }

  function ValueArg(d: NameTx): Bytes
    requires Registers(d.op) && ArgsCover(d)
  {
    if d.op == OP_NAME_FIRSTUPDATE then d.args[2] else d.args[1]
  }

  /** GetValueOfNameTx: the value that a transaction gives its name, as read by the one rule or
      the other; empty when it cannot be read. */
  function ReadValue(tx: Tx, strict: bool): Bytes {
    var d := DecodeNameTx(tx, strict);
    if d.good && Registers(d.op) && ArgsCover(d) then ValueArg(d) else []
  }
}
