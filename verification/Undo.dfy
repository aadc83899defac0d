/** DisconnectBlock undoes ConnectBlock. */
module Undo {
  import opened Common
  import opened ChainTypes
  import opened NameScript
  import opened NameRules
  import opened Connect

  // ----- the transaction index as a shape plus a set of spent outputs -----

  ghost predicate SameShape(a: map<Hash, TxIndex>, b: map<Hash, TxIndex>) {
    && a.Keys == b.Keys
    && forall h :: h in a ==> a[h].pos == b[h].pos && |a[h].isSpent| == |b[h].isSpent|
  }

  predicate HasOutput(txs: map<Hash, TxIndex>, o: OutPoint) {
    o.hash in txs && o.n < |txs[o.hash].isSpent|
  }

  predicate IsSpent(txs: map<Hash, TxIndex>, o: OutPoint) {
    HasOutput(txs, o) && txs[o.hash].isSpent[o.n]
  }

  lemma SetSpentEffect(txs: map<Hash, TxIndex>, o: OutPoint, spent: bool)
    requires HasOutput(txs, o)
    ensures SameShape(txs, SetSpent(txs, o, spent))
    ensures forall p :: IsSpent(SetSpent(txs, o, spent), p) == if p == o then spent else IsSpent(txs, p)
  {
    var u := SetSpent(txs, o, spent);
    forall p ensures IsSpent(u, p) == if p == o then spent else IsSpent(txs, p) {
      if p.hash == o.hash && p.n != o.n {
        assert p != o;
      }
    }
  }

  lemma IndexExtensional(a: map<Hash, TxIndex>, b: map<Hash, TxIndex>)
    requires SameShape(a, b)
    requires forall o :: IsSpent(a, o) == IsSpent(b, o)
    ensures a == b
  {
    forall h | h in a ensures a[h] == b[h] {
      forall n: nat | n < |a[h].isSpent| ensures a[h].isSpent[n] == b[h].isSpent[n] {
        assert IsSpent(a, OutPoint(h, n)) == IsSpent(b, OutPoint(h, n));
      }
      assert a[h].isSpent == b[h].isSpent;
    }
  }

  /** Connecting marks exactly the spent outputs, which were unspent and pairwise distinct,
      even when several of them belong to the same parent transaction. */
  lemma {:induction false} SpendInputsEffect(site: Site, txs: map<Hash, TxIndex>, tx: Tx, i: nat)
    requires i <= |tx.vin| && SpendInputs(site, txs, tx, i).Ok?
    ensures var a := SpendInputs(site, txs, tx, i).value;
            && SameShape(txs, a.txs)
            && (forall o :: IsSpent(a.txs, o) <==> IsSpent(txs, o) || o in tx.vin[..i])
            && (forall j :: 0 <= j < i ==> HasOutput(txs, tx.vin[j]) && !IsSpent(txs, tx.vin[j]))
            && Distinct(tx.vin[..i])
  {
    hide SpendInput, IsSpent, SetSpent;
    if i == 0 {
      SameShapeReflexive(txs);
    } else {
      SpendInputsEffect(site, txs, tx, i - 1);
      hide SameShape, Distinct, HasOutput;
      var a := SpendInputs(site, txs, tx, i - 1).value;
      var o := tx.vin[i - 1];
      SpendInputStep(site, tx, i - 1, a);
      assert tx.vin[..i] == tx.vin[..i - 1] + [o];
      SpendOne(txs, a.txs, o, tx.vin[..i - 1]);
    }
  }

  lemma SpendInputStep(site: Site, tx: Tx, i: nat, a: Inputs)
    requires i < |tx.vin| && SpendInput(site, tx, i, a).Ok?
    ensures HasOutput(a.txs, tx.vin[i]) && !IsSpent(a.txs, tx.vin[i])
    ensures SpendInput(site, tx, i, a).value.txs == SetSpent(a.txs, tx.vin[i], true)
  {
  }

  lemma SpendOne(txs: map<Hash, TxIndex>, t: map<Hash, TxIndex>, o: OutPoint, front: seq<OutPoint>)
    requires SameShape(txs, t) && HasOutput(t, o) && !IsSpent(t, o) && Distinct(front)
    requires forall p :: IsSpent(t, p) <==> IsSpent(txs, p) || p in front
    ensures HasOutput(txs, o) && !IsSpent(txs, o) && Distinct(front + [o])
    ensures SameShape(txs, SetSpent(t, o, true))
    ensures forall p :: IsSpent(SetSpent(t, o, true), p) <==> IsSpent(txs, p) || p in front + [o]
  {
    SetSpentEffect(t, o, true);
  }

  lemma UnspendOne(txs: map<Hash, TxIndex>, t: map<Hash, TxIndex>, o: OutPoint, front: seq<OutPoint>)
    requires SameShape(txs, t) && IsSpent(txs, o) && o !in front
    requires forall p :: IsSpent(t, p) <==> IsSpent(txs, p) && p !in front
    ensures IsSpent(t, o)
    ensures SameShape(txs, SetSpent(t, o, false))
    ensures forall p :: IsSpent(SetSpent(t, o, false), p) <==> IsSpent(txs, p) && p !in front + [o]
  {
    SetSpentEffect(t, o, false);
    hide SetSpent, HasOutput;
    assert IsSpent(t, o);
  }

  lemma SameShapeReflexive(txs: map<Hash, TxIndex>)
    ensures SameShape(txs, txs)
  {
  }

  /** Inputs can be released exactly when all are spent and no two are the same; then they are unspent,
      and nothing else changes. */
  lemma {:induction false} UnspendExact(txs: map<Hash, TxIndex>, tx: Tx, i: nat)
    requires i <= |tx.vin|
    ensures var r := UnspendInputs(txs, tx, i);
            && (r.Ok? <==> (forall j :: 0 <= j < i ==> IsSpent(txs, tx.vin[j])) && Distinct(tx.vin[..i]))
            && (r.Ok? ==> SameShape(txs, r.value)
                          && forall o :: IsSpent(r.value, o) <==> IsSpent(txs, o) && o !in tx.vin[..i])
  {
    hide SetSpent, SameShape, Distinct;
    if i == 0 {
      SameShapeReflexive(txs);
      NoneTwice(tx.vin);
    } else {
      UnspendExact(txs, tx, i - 1);
      DistinctNext(tx.vin, i - 1);
      if UnspendInputs(txs, tx, i - 1).Ok? {
        var t, o := UnspendInputs(txs, tx, i - 1).value, tx.vin[i - 1];
        UnspendNext(txs, tx, i - 1, t);
        if IsSpent(txs, o) && o !in tx.vin[..i - 1] {
          UnspendOne(txs, t, o, tx.vin[..i - 1]);
          assert tx.vin[..i] == tx.vin[..i - 1] + [o];
        }
      }
    }
  }

  lemma UnspendNext(txs: map<Hash, TxIndex>, tx: Tx, i: nat, t: map<Hash, TxIndex>)
    requires i < |tx.vin| && UnspendInputs(txs, tx, i) == Ok(t)
    ensures UnspendInputs(txs, tx, i + 1)
              == if IsSpent(t, tx.vin[i]) then Ok(SetSpent(t, tx.vin[i], false)) else Rejected
  {
    hide SetSpent;
  }

  lemma NoneTwice(vin: seq<OutPoint>)
    ensures Distinct(vin[..0])
  {
  }

  lemma DistinctNext(vin: seq<OutPoint>, i: nat)
    requires i < |vin|
    ensures Distinct(vin[..i + 1]) <==> Distinct(vin[..i]) && vin[i] !in vin[..i]
  {
    if Distinct(vin[..i + 1]) {
      assert forall k :: 0 <= k < i ==> vin[..i][k] == vin[..i + 1][k];
      assert vin[..i + 1][i] == vin[i];
    } else {
      var j, k :| 0 <= j < k < i + 1 && vin[j] == vin[k];
      assert vin[..i][j] == vin[j];
    }
  }

  lemma {:induction false} UnspendInputsEffect(txs: map<Hash, TxIndex>, tx: Tx, i: nat)
    requires i <= |tx.vin| && Distinct(tx.vin)
    requires forall j :: 0 <= j < |tx.vin| ==> IsSpent(txs, tx.vin[j])
    ensures var r := UnspendInputs(txs, tx, i);
            && r.Ok?
            && SameShape(txs, r.value)
            && (forall o :: IsSpent(r.value, o) <==> IsSpent(txs, o) && o !in tx.vin[..i])
  {
    hide SetSpent, SameShape;
    if i == 0 {
      SameShapeReflexive(txs);
    } else {
      UnspendInputsEffect(txs, tx, i - 1);
      var t := UnspendInputs(txs, tx, i - 1).value;
      var o := tx.vin[i - 1];
      assert o !in tx.vin[..i - 1];
      UnspendOne(txs, t, o, tx.vin[..i - 1]);
      assert HasOutput(t, o) && t[o.hash].isSpent[o.n];
      assert tx.vin[..i] == tx.vin[..i - 1] + [o];
      assert UnspendInputs(txs, tx, i) == Ok(SetSpent(t, o, false));
      hide *;
    }
  }

  // ----- one transaction -----

  /** The transaction-index part of undoing one non-coinbase transaction. */
  lemma UndoInputs(site: Site, txs: map<Hash, TxIndex>, tx: Tx, pos: DiskTxPos)
    requires SpendInputs(site, txs, tx, |tx.vin|).Ok?
    requires tx.txid !in txs
    ensures var after := AddTxIndex(SpendInputs(site, txs, tx, |tx.vin|).value.txs, tx, pos);
            var r := UnspendInputs(after, tx, |tx.vin|);
            r.Ok? && r.value - {tx.txid} == txs
  {
    SpendInputsEffect(site, txs, tx, |tx.vin|);
    assert tx.vin[..|tx.vin|] == tx.vin;
    var a := SpendInputs(site, txs, tx, |tx.vin|).value;
    var after := AddTxIndex(a.txs, tx, pos);
    forall o: OutPoint | o.hash != tx.txid ensures IsSpent(after, o) == IsSpent(a.txs, o) {}
    forall j | 0 <= j < |tx.vin| ensures IsSpent(after, tx.vin[j]) {
      assert tx.vin[j] in tx.vin;
    }
    UnspendInputsEffect(after, tx, |tx.vin|);
    var u := UnspendInputs(after, tx, |tx.vin|).value;
    var back := u - {tx.txid};
    forall o ensures IsSpent(back, o) == IsSpent(txs, o) {
      if o.hash != tx.txid {
        assert IsSpent(back, o) == IsSpent(u, o);
      }
    }
    IndexExtensional(back, txs);
  }

  /** No entry of the name index points at `pos`. */
  ghost predicate Unrecorded(names: map<Name, seq<NameIndex>>, pos: DiskTxPos) {
    forall name, k :: name in names && 0 <= k < |names[name]| ==> names[name][k].txPos != pos
  }

  /** The name that DisconnectInputs will look up for this transaction, if any. */
  function UndoneName(testnet: bool, height: nat, tx: Tx): Outcome<Option<Name>> {
    if !tx.IsName() then Ok(None)
    else
      var d := DecodeNameTx(tx, PostLibcoinFork(testnet, height));
      if !d.good then Rejected else Ok(if Registers(d.op) then Some(d.args[0]) else None)
  }

  /** DisconnectInputs can process the transaction: it decodes at its height, and a name it
      registers has an entry (possibly empty) in the name index. */
  predicate Undoable(testnet: bool, height: nat, names: map<Name, seq<NameIndex>>, tx: Tx) {
    match UndoneName(testnet, height, tx)
    case Rejected => false
    case Ok(None) => true
    case Ok(Some(name)) => name in names
  }

  /** The name, if any, for which connecting the transaction adds an entry. */
  function RecordedName(site: Site, c: Connected, tx: Tx): Option<Name>
    requires site.Valid()
  {
    if tx.IsCoinBase() then None
    else match SpendInputs(site, c.s.txs, tx, |tx.vin|)
      case Rejected => None
      case Ok(a) => NameDecision(site, c.s.names, tx, a).GetOr(None)
  }

  /** An entry is only ever added under the name that DisconnectInputs will look up. */
  lemma RecordedIsUndone(site: Site, c: Connected, tx: Tx)
    requires site.Valid() && RecordedName(site, c, tx).Some?
    ensures UndoneName(site.env.testnet, site.Height(), tx) == Ok(RecordedName(site, c, tx))
  {
  }

  lemma ConnectTxNames(site: Site, c: Connected, tx: Tx, pos: DiskTxPos)
    requires site.Valid() && ConnectTx(site, c, tx, pos).Ok?
    ensures var s1 := ConnectTx(site, c, tx, pos).value.s;
            && tx.txid in s1.txs && s1.txs[tx.txid].pos == pos
            && s1.names == match RecordedName(site, c, tx)
                 case None => c.s.names
                 case Some(name) => AppendEntry(c.s.names, name, NameIndex(pos, site.Height(), StoredValue(site, pos)))
  {
  }

  /** Undoing a transaction on any databases equal, up to empty name entries, to the ones it
      produced restores the ones it started from. */
  lemma UndoTx(site: Site, c: Connected, tx: Tx, pos: DiskTxPos, t: Indexes)
    requires site.Valid() && ConnectTx(site, c, tx, pos).Ok?
    requires tx.txid !in c.s.txs && Unrecorded(c.s.names, pos)
    requires Same(t, ConnectTx(site, c, tx, pos).value.s)
    requires Undoable(site.env.testnet, site.Height(), t.names, tx)
    ensures var r := DisconnectTx(site.env.testnet, site.Height(), t, tx);
            r.Ok? && Same(r.value, c.s) && r.value.names.Keys == t.names.Keys
  {
    var s1 := ConnectTx(site, c, tx, pos).value.s;
    if tx.IsCoinBase() {
      assert s1.txs - {tx.txid} == c.s.txs;
    } else {
      UndoInputs(site, c.s.txs, tx, pos);
    }
    UndoNames(site, c, tx, pos, t);
  }

  lemma UndoNames(site: Site, c: Connected, tx: Tx, pos: DiskTxPos, t: Indexes)
    requires site.Valid() && ConnectTx(site, c, tx, pos).Ok?
    requires Unrecorded(c.s.names, pos)
    requires Same(t, ConnectTx(site, c, tx, pos).value.s)
    requires Undoable(site.env.testnet, site.Height(), t.names, tx)
    ensures var r := UndoName(site.env.testnet, site.Height(), t, tx);
            r.Ok? && SameHistories(r.value, c.s.names) && r.value.Keys == t.names.Keys
  {
    ConnectTxNames(site, c, tx, pos);
    var s1 := ConnectTx(site, c, tx, pos).value.s;
    match RecordedName(site, c, tx)
    case Some(name) =>
      RecordedIsUndone(site, c, tx);
      PopNewEntry(site.env.testnet, site.Height(), t, tx, name, c.s.names, s1.names,
                  NameIndex(pos, site.Height(), StoredValue(site, pos)));
    case None =>
      KeepOldEntries(site.env.testnet, site.Height(), t, tx, c.s.names, pos);
  }

  lemma PopNewEntry(testnet: bool, height: nat, t: Indexes, tx: Tx, name: Name,
                    before: map<Name, seq<NameIndex>>, after: map<Name, seq<NameIndex>>, e: NameIndex)
    requires UndoneName(testnet, height, tx) == Ok(Some(name))
    requires after == AppendEntry(before, name, e) && SameHistories(t.names, after)
    requires tx.txid in t.txs && t.txs[tx.txid].pos == e.txPos
    ensures var r := UndoName(testnet, height, t, tx);
            r.Ok? && SameHistories(r.value, before) && r.value.Keys == t.names.Keys
  {
    var v := History(t.names, name);
    assert v == History(after, name) == History(before, name) + [e];
    assert v[..|v| - 1] == History(before, name);
    forall other | other != name ensures History(t.names, other) == History(before, other) {
      assert History(t.names, other) == History(after, other);
    }
  }

  lemma KeepOldEntries(testnet: bool, height: nat, t: Indexes, tx: Tx, before: map<Name, seq<NameIndex>>,
                       pos: DiskTxPos)
    requires Undoable(testnet, height, t.names, tx)
    requires SameHistories(t.names, before) && Unrecorded(before, pos)
    requires tx.txid in t.txs && t.txs[tx.txid].pos == pos
    ensures UndoName(testnet, height, t, tx) == Ok(t.names)
  {
    match UndoneName(testnet, height, tx).value
    case None =>
    case Some(name) =>
      assert History(t.names, name) == History(before, name);
      assert !LastEntryIs(t.names[name], pos);
  }

  // ----- one block -----

  predicate FreshTxids(txs: map<Hash, TxIndex>, vtx: seq<Tx>) {
    forall i :: 0 <= i < |vtx| ==> vtx[i].txid !in txs
  }

  /** No entry of the name index points into block `b` at or behind offset `from`. */
  ghost predicate NoEntryFrom(names: map<Name, seq<NameIndex>>, b: StoredBlock, from: nat) {
    forall name, k :: name in names && 0 <= k < |names[name]| && InBlock(b, names[name][k].txPos) ==>
                        names[name][k].txPos.nTxPos < from
  }

  lemma ConnectTxKeepsOffsets(site: Site, c: Connected, tx: Tx, b: StoredBlock, pos: DiskTxPos)
    requires site.Valid() && ConnectTx(site, c, tx, pos).Ok?
    requires InBlock(b, pos) && NoEntryFrom(c.s.names, b, pos.nTxPos)
    ensures Unrecorded(c.s.names, pos)
    ensures NoEntryFrom(ConnectTx(site, c, tx, pos).value.s.names, b, pos.nTxPos + 1)
    ensures forall name :: |History(c.s.names, name)| <= |History(ConnectTx(site, c, tx, pos).value.s.names, name)|
  {
    ConnectTxNames(site, c, tx, pos);
  }

  lemma ConnectTxKeys(site: Site, c: Connected, tx: Tx, pos: DiskTxPos)
    requires site.Valid() && ConnectTx(site, c, tx, pos).Ok?
    ensures ConnectTx(site, c, tx, pos).value.s.txs.Keys == c.s.txs.Keys + {tx.txid}
  {
    if !tx.IsCoinBase() {
      SpendInputsEffect(site, c.s.txs, tx, |tx.vin|);
    }
  }

  /** Facts about the databases half way through ConnectBlock. */
  lemma {:induction false} ConnectTxsFacts(site: Site, s: Indexes, i: nat)
    requires site.Valid() && i <= |Tip(site.path).block.vtx|
    requires ConnectTxs(site, s, i).Ok?
    requires NoEntryFrom(s.names, Tip(site.path), 0)
    ensures var vtx := Tip(site.path).block.vtx;
            var c := ConnectTxs(site, s, i).value;
            && NoEntryFrom(c.s.names, Tip(site.path), TxPos(Tip(site.path), i).nTxPos)
            && c.s.txs.Keys == s.txs.Keys + set j | 0 <= j < i :: vtx[j].txid
  {
    hide ConnectTx;
    if i > 0 {
      ConnectTxsFacts(site, s, i - 1);
      var b := Tip(site.path);
      var c := ConnectTxs(site, s, i - 1).value;
      ConnectTxKeepsOffsets(site, c, b.block.vtx[i - 1], b, TxPos(b, i - 1));
      ConnectTxKeys(site, c, b.block.vtx[i - 1], TxPos(b, i - 1));
    }
  }

  ghost predicate AllUndoable(testnet: bool, height: nat, names: map<Name, seq<NameIndex>>, vtx: seq<Tx>, n: nat)
    requires n <= |vtx|
  {
    forall i :: 0 <= i < n ==> Undoable(testnet, height, names, vtx[i])
  }

  lemma DisconnectNeedsUndoable(testnet: bool, height: nat, t: Indexes, tx: Tx)
    requires DisconnectTx(testnet, height, t, tx).Ok?
    ensures Undoable(testnet, height, t.names, tx)
  {
  }

  /** The hypotheses of `UndoTx` hold for the last of the first `n` transactions. */
  lemma LastTxIsNew(site: Site, s: Indexes, n: nat)
    requires site.Valid() && 0 < n <= |Tip(site.path).block.vtx|
    requires ConnectTxs(site, s, n).Ok?
    requires NoEntryFrom(s.names, Tip(site.path), 0)
    requires DistinctTxids(Tip(site.path).block.vtx) && FreshTxids(s.txs, Tip(site.path).block.vtx)
    ensures var c := ConnectTxs(site, s, n - 1).value;
            Tip(site.path).block.vtx[n - 1].txid !in c.s.txs && Unrecorded(c.s.names, TxPos(Tip(site.path), n - 1))
  {
    var b := Tip(site.path);
    ConnectTxsFacts(site, s, n - 1);
    ConnectTxKeepsOffsets(site, ConnectTxs(site, s, n - 1).value, b.block.vtx[n - 1], b, TxPos(b, n - 1));
  }

  lemma {:induction false} UndoTxs(site: Site, s: Indexes, n: nat, t: Indexes)
    requires site.Valid() && n <= |Tip(site.path).block.vtx|
    requires ConnectTxs(site, s, n).Ok? && Same(t, ConnectTxs(site, s, n).value.s)
    requires NoEntryFrom(s.names, Tip(site.path), 0)
    requires DistinctTxids(Tip(site.path).block.vtx) && FreshTxids(s.txs, Tip(site.path).block.vtx)
    ensures var vtx := Tip(site.path).block.vtx;
            var r := DisconnectTxs(site.env.testnet, site.Height(), t, vtx, n);
            && (r.Ok? <==> AllUndoable(site.env.testnet, site.Height(), t.names, vtx, n))
            && (r.Ok? ==> Same(r.value, s) && r.value.names.Keys == t.names.Keys)
    decreases n
  {
    hide ConnectTx, DisconnectTx, Undoable;
    if n > 0 {
      var vtx := Tip(site.path).block.vtx;
      var tx := vtx[n - 1];
      LastTxIsNew(site, s, n);
      if DisconnectTx(site.env.testnet, site.Height(), t, tx).Ok? {
        DisconnectNeedsUndoable(site.env.testnet, site.Height(), t, tx);
      }
      if Undoable(site.env.testnet, site.Height(), t.names, tx) {
        UndoTx(site, ConnectTxs(site, s, n - 1).value, tx, TxPos(Tip(site.path), n - 1), t);
        var t' := DisconnectTx(site.env.testnet, site.Height(), t, tx).value;
        UndoTxs(site, s, n - 1, t');
        UndoableByKeys(site.env.testnet, site.Height(), t.names, t'.names, vtx, n - 1);
      }
    }
  }

  lemma UndoableByKeys(testnet: bool, height: nat, a: map<Name, seq<NameIndex>>, b: map<Name, seq<NameIndex>>,
                       vtx: seq<Tx>, n: nat)
    requires n <= |vtx| && a.Keys == b.Keys
    ensures AllUndoable(testnet, height, a, vtx, n) <==> AllUndoable(testnet, height, b, vtx, n)
  {
    forall i | 0 <= i < n
      ensures Undoable(testnet, height, a, vtx[i]) <==> Undoable(testnet, height, b, vtx[i])
    {
    }
  }

  lemma {:induction false} UndoErasesTxids(testnet: bool, height: nat, t: Indexes, vtx: seq<Tx>, n: nat)
    requires n <= |vtx| && DisconnectTxs(testnet, height, t, vtx, n).Ok?
    ensures DisconnectTxs(testnet, height, t, vtx, n).value.txs.Keys <= t.txs.Keys
    ensures FreshTxids(DisconnectTxs(testnet, height, t, vtx, n).value.txs, vtx[..n])
    decreases n
  {
    hide UndoName;
    if n > 0 {
      var tx := vtx[n - 1];
      var t' := DisconnectTx(testnet, height, t, tx).value;
      if !tx.IsCoinBase() {
        UnspendKeepsKeys(t.txs, tx, |tx.vin|);
      }
      UndoErasesTxids(testnet, height, t', vtx, n - 1);
    }
  }

  lemma {:induction false} UnspendKeepsKeys(txs: map<Hash, TxIndex>, tx: Tx, i: nat)
    requires i <= |tx.vin| && UnspendInputs(txs, tx, i).Ok?
    ensures UnspendInputs(txs, tx, i).value.Keys == txs.Keys
  {
    if i > 0 {
      UnspendKeepsKeys(txs, tx, i - 1);
    }
  }

  /** Exactly when DisconnectBlock undoes ConnectBlock: the transaction ids of the block were
      new, and every transaction decodes at its height with its name, if it registers one,
      present in the name index. */
  lemma UndoBlock(site: Site, s: Indexes, t: Indexes)
    requires site.Valid() && ConnectBlock(site, s).Ok?
    requires Same(t, ConnectBlock(site, s).value)
    requires NoEntryFrom(s.names, Tip(site.path), 0)
    ensures var vtx := Tip(site.path).block.vtx;
            var r := DisconnectBlock(site.env.testnet, site.path, t);
            && (r.Ok? && Same(r.value, s) <==>
                  FreshTxids(s.txs, vtx) && AllUndoable(site.env.testnet, site.Height(), t.names, vtx, |vtx|))
            && (FreshTxids(s.txs, vtx) && r.Ok? ==> Same(r.value, s))
  {
    hide ConnectTxs, DisconnectTxs, ConnectBlock, CheckBlock, Same, AllUndoable, NoEntryFrom;
    var vtx := Tip(site.path).block.vtx;
    ConnectBlockUnfolds(site, s);
    var r := DisconnectTxs(site.env.testnet, site.Height(), t, vtx, |vtx|);
    assert r == DisconnectBlock(site.env.testnet, site.path, t);
    hide *;
    if FreshTxids(s.txs, vtx) {
      UndoTxs(site, s, |vtx|, t);
    }
    if r.Ok? {
      UndoErasesTxids(site.env.testnet, site.Height(), t, vtx, |vtx|);
      assert vtx[..|vtx|] == vtx;
      SameNeedsFresh(r.value, s, vtx);
    }
  }

  lemma ConnectBlockUnfolds(site: Site, s: Indexes)
    requires site.Valid() && ConnectBlock(site, s).Ok?
    ensures var r := ConnectTxs(site, s, |Tip(site.path).block.vtx|);
            && r.Ok? && ConnectBlock(site, s).value == r.value.s
            && CheckBlock(site.env, Tip(site.path).block, site.Height())
            && DistinctTxids(Tip(site.path).block.vtx)
  {
    hide ConnectTxs;
  }

  lemma SameNeedsFresh(a: Indexes, s: Indexes, vtx: seq<Tx>)
    requires FreshTxids(a.txs, vtx)
    ensures Same(a, s) ==> FreshTxids(s.txs, vtx)
  {
  }

  // ----- past the fork every block can be undone -----

  lemma PastForkRecords(site: Site, c: Connected, tx: Tx, pos: DiskTxPos)
    requires site.Valid() && ConnectTx(site, c, tx, pos).Ok? && !tx.IsCoinBase()
    requires PostLibcoinFork(site.env.testnet, site.Height())
    ensures UndoneName(site.env.testnet, site.Height(), tx).Ok?
    ensures RecordedName(site, c, tx) == UndoneName(site.env.testnet, site.Height(), tx).value
  {
  }

  lemma {:induction false} PastForkNamesPresent(site: Site, s: Indexes, n: nat, i: nat)
    requires site.Valid() && i < n <= |Tip(site.path).block.vtx|
    requires ConnectTxs(site, s, n).Ok? && PostLibcoinFork(site.env.testnet, site.Height())
    requires NoEntryFrom(s.names, Tip(site.path), 0)
    requires !Tip(site.path).block.vtx[i].IsCoinBase()
    ensures match UndoneName(site.env.testnet, site.Height(), Tip(site.path).block.vtx[i])
            case Rejected => false
            case Ok(None) => true
            case Ok(Some(name)) => History(ConnectTxs(site, s, n).value.s.names, name) != []
    decreases n
  {
    var b := Tip(site.path);
    var c := ConnectTxs(site, s, n - 1).value;
    ConnectTxsFacts(site, s, n - 1);
    ConnectTxKeepsOffsets(site, c, b.block.vtx[n - 1], b, TxPos(b, n - 1));
    if i == n - 1 {
      PastForkRecords(site, c, b.block.vtx[i], TxPos(b, i));
      ConnectTxNames(site, c, b.block.vtx[i], TxPos(b, i));
    } else {
      PastForkNamesPresent(site, s, n - 1, i);
    }
  }

  /** Past the libcoin fork, undoing a block with new transaction ids and a coinbase that is
      not a name transaction always succeeds and restores the databases. */
  lemma UndoBlockPastFork(site: Site, s: Indexes, t: Indexes)
    requires site.Valid() && ConnectBlock(site, s).Ok?
    requires Same(t, ConnectBlock(site, s).value)
    requires NoEntryFrom(s.names, Tip(site.path), 0)
    requires PostLibcoinFork(site.env.testnet, site.Height())
    requires FreshTxids(s.txs, Tip(site.path).block.vtx) && !Tip(site.path).block.vtx[0].IsName()
    ensures var r := DisconnectBlock(site.env.testnet, site.path, t);
            r.Ok? && Same(r.value, s)
  {
    var vtx := Tip(site.path).block.vtx;
    forall i | 0 <= i < |vtx| ensures Undoable(site.env.testnet, site.Height(), t.names, vtx[i]) {
      if i > 0 {
        PastForkNamesPresent(site, s, |vtx|, i);
      }
    }
    UndoBlock(site, s, t);
  }
}
