/** Rebuilding the block tree from its records (src/db.cpp). */
module LoadIndex {
  import opened Common
  import opened ChainTypes
  import opened TxDb
  import opened BlockTree
  import opened NodeState
  import Compact

  /** A CBlockIndex while the tree is being loaded: every field is assigned later. */
  class LoadedIndex {
    const hashBlock: Hash
    var pprev: LoadedIndex?
    var pnext: LoadedIndex?
    var nFile: nat
    var nBlockPos: nat
    var nHeight: nat
    var nBits: nat
    var bnChainWork: nat

    constructor (hash: Hash)
      ensures hashBlock == hash
    {
      hashBlock := hash;
      pprev, pnext := null, null;
      nFile, nBlockPos, nHeight, nBits, bnChainWork := 0, 0, 0, 0, 0;
    }
  }

  type Loaded = map<Hash, LoadedIndex>

  /** Every object is filed under its own hash. */
  ghost predicate Filed(m: Loaded) {
    forall h :: h in m ==> m[h].hashBlock == h
  }

  /** What a hash in a record stands for: no block, or the object under that hash. */
  function Pointer(m: Loaded, hash: Hash): LoadedIndex?
    requires hash == 0 || hash in m
  {
    if hash == 0 then null else m[hash]
  }

  predicate Has(m: Loaded, hash: Hash) {
    hash == 0 || hash in m
  }

  /** The object under `h` holds what the record says. */
  ghost predicate Reads(m: Loaded, h: Hash, r: DiskBlockIndex)
    requires h in m
    reads m[h]
  {
    && Has(m, r.hashPrev) && m[h].pprev == Pointer(m, r.hashPrev)
    && Has(m, r.hashNext) && m[h].pnext == Pointer(m, r.hashNext)
    && m[h].nFile == r.nFile && m[h].nBlockPos == r.nBlockPos && m[h].nHeight == r.nHeight && m[h].nBits == r.nBits
  }

  /** InsertBlockIndex: finds or creates the object for a hash. */
  method InsertBlockIndex(m: Loaded, hash: Hash) returns (n: Loaded, pindex: LoadedIndex?)
    requires Filed(m)
    ensures Filed(n) && Has(n, hash) && pindex == Pointer(n, hash)
    ensures n.Keys == m.Keys + (if hash == 0 then {} else {hash})
    ensures forall h :: h in m ==> n[h] == m[h]
    ensures forall h :: h in n && h !in m ==> fresh(n[h])
  {
    if hash == 0 {
      return m, null;
    }
    if hash in m {
      return m, m[hash];
    }
    var pindexNew := new LoadedIndex(hash);
    n, pindex := m[hash := pindexNew], pindexNew;
  }

  ghost predicate Enumerates(order: seq<Hash>, keys: set<Hash>) {
    && (forall h :: h in keys <==> h in order)
    && (forall i, j :: 0 <= i < j < |order| ==> order[i] != order[j])
  }

  /** All links of the records lead to records. */
  ghost predicate Closed(records: map<Hash, DiskBlockIndex>) {
    forall h :: h in records ==>
      && h != 0
      && (records[h].hashPrev == 0 || records[h].hashPrev in records)
      && (records[h].hashNext == 0 || records[h].hashNext in records)
  }

  /** The first loop of LoadBlockIndex, over the records in any order. */
  method LoadRecords(records: map<Hash, DiskBlockIndex>, order: seq<Hash>) returns (m: Loaded)
    requires Enumerates(order, records.Keys) && Closed(records)
    ensures m.Keys == records.Keys && Filed(m)
    ensures forall h :: h in m ==> fresh(m[h]) && Reads(m, h, records[h])
  {
    m := map[];
    var i := 0;
    while i < |order|
      invariant i <= |order| && Filed(m) && m.Keys <= records.Keys
      invariant forall h :: h in m ==> fresh(m[h])
      invariant forall k :: 0 <= k < i ==> order[k] in m && Reads(m, order[k], records[order[k]])
    {
      assert order[i] in records;
      m := LoadRecord(records, order, i, m);
      i := i + 1;
    }
    forall h | h in records ensures h in m && Reads(m, h, records[h]) {
      assert h in order;
    }
  }

  /** Assigns the fields of the object for the i-th record, all its blocks being present. */
  method Fill(records: map<Hash, DiskBlockIndex>, order: seq<Hash>, i: nat, ghost m: Loaded, n: Loaded)
    requires i < |order| && Enumerates(order, records.Keys)
    requires Filed(n) && m.Keys <= n.Keys && forall h :: h in m ==> n[h] == m[h]
    requires order[i] in records && order[i] in n && Has(n, records[order[i]].hashPrev)
             && Has(n, records[order[i]].hashNext)
    requires forall k :: 0 <= k < i ==> order[k] in m && order[k] in records && Reads(m, order[k], records[order[k]])
    modifies n[order[i]]
    ensures forall k :: 0 <= k <= i ==> order[k] in n && order[k] in records && Reads(n, order[k], records[order[k]])
  {
    var pindexNew, diskindex := n[order[i]], records[order[i]];
    pindexNew.pprev := Pointer(n, diskindex.hashPrev);
    pindexNew.pnext := Pointer(n, diskindex.hashNext);
    pindexNew.nFile := diskindex.nFile;
    pindexNew.nBlockPos := diskindex.nBlockPos;
    pindexNew.nHeight := diskindex.nHeight;
    pindexNew.nBits := diskindex.nBits;
    forall k | 0 <= k < i ensures Reads(n, order[k], records[order[k]]) {
      assert order[k] != order[i] && n[order[k]] != n[order[i]];
    }
  }

  /** One record. */
  method LoadRecord(records: map<Hash, DiskBlockIndex>, order: seq<Hash>, i: nat, m: Loaded) returns (n: Loaded)
    requires i < |order| && Enumerates(order, records.Keys) && Closed(records)
    requires Filed(m) && m.Keys <= records.Keys
    requires forall k :: 0 <= k < i ==> order[k] in m && Reads(m, order[k], records[order[k]])
    modifies m.Values
    ensures Filed(n) && m.Keys <= n.Keys <= records.Keys
    ensures forall h :: h in n && h !in m ==> fresh(n[h])
    ensures forall h :: h in m ==> n[h] == m[h]
    ensures forall k :: 0 <= k <= i ==> order[k] in n && Reads(n, order[k], records[order[k]])
  {
    var hash := order[i];
    assert hash in records;
    var diskindex := records[hash];
    var m1, pindexNew := InsertBlockIndex(m, hash);
    var m2, pprev := InsertBlockIndex(m1, diskindex.hashPrev);
    var m3, pnext := InsertBlockIndex(m2, diskindex.hashNext);
    n := m3;
    Fill(records, order, i, m, n);
  }

  // ----- chain work -----

  predicate SortedByHeight(records: map<Hash, DiskBlockIndex>, v: seq<Hash>) {
    && (forall h :: h in v ==> h in records)
    && (forall i, j :: 0 <= i < j < |v| ==> records[v[i]].nHeight <= records[v[j]].nHeight)
  }

  function InsertByHeight(records: map<Hash, DiskBlockIndex>, v: seq<Hash>, h: Hash): (r: seq<Hash>)
    requires h in records && SortedByHeight(records, v)
    ensures SortedByHeight(records, r)
    ensures forall x :: x in r <==> x == h || x in v
  {
    if v == [] then [h]
    else if records[h].nHeight <= records[v[0]].nHeight then [h] + v
    else
      var r := InsertByHeight(records, v[1..], h);
      assert forall x :: x in r ==> x in records && records[v[0]].nHeight <= records[x].nHeight;
      assert forall j :: 0 <= j < |r| ==> r[j] in r;
      [v[0]] + r
  }

  /** The blocks in order of height. */
  function SortByHeight(records: map<Hash, DiskBlockIndex>, order: seq<Hash>): (r: seq<Hash>)
    requires forall h :: h in order ==> h in records
    ensures SortedByHeight(records, r)
    ensures forall x :: x in r <==> x in order
  {
    if order == [] then [] else InsertByHeight(records, SortByHeight(records, order[1..]), order[0])
  }

  /** A parent is lower than its child, so it comes earlier. */
  lemma ParentFirst(index: Index, hashGenesisBlock: Hash, path: seq<BlockIndex>, v: seq<Hash>, i: nat) returns (k: nat)
    requires Tree(index, hashGenesisBlock) && SortedByHeight(Records(index, path), v)
    requires (forall h :: h in index ==> h in v) && i < |v| && v[i] in index && index[v[i]].pprev != null
    ensures k < i && v[k] == index[v[i]].pprev.Hash() && v[k] in index && index[v[k]] == index[v[i]].pprev
  {
    var p := index[v[i]].pprev.Hash();
    assert p in index && p in v;
    k :| k < |v| && v[k] == p;
    hide Next, BlockIndex.Path;
  }

  ghost predicate Covers(v: seq<Hash>, keys: set<Hash>) {
    forall h :: h in v <==> h in keys
  }

  ghost predicate AllRead(m: Loaded, records: map<Hash, DiskBlockIndex>)
    reads m.Values
  {
    forall h :: h in m ==> h in records && Reads(m, h, records[h])
  }

  ghost predicate WorkDone(m: Loaded, v: seq<Hash>, i: nat, index: Index)
    requires i <= |v|
    reads m.Values
  {
    forall k :: 0 <= k < i ==> v[k] in m && v[k] in index && m[v[k]].bnChainWork == index[v[k]].bnChainWork
  }

  /** One round of the second loop of LoadBlockIndex. */
  method AddWork(m: Loaded, v: seq<Hash>, i: nat, ghost index: Index, ghost hashGenesisBlock: Hash,
                 ghost path: seq<BlockIndex>)
    requires Tree(index, hashGenesisBlock) && m.Keys == index.Keys && Filed(m)
    requires SortedByHeight(Records(index, path), v) && Covers(v, m.Keys) && i < |v|
    requires AllRead(m, Records(index, path)) && WorkDone(m, v, i, index)
    modifies m.Values`bnChainWork
    ensures AllRead(m, Records(index, path)) && WorkDone(m, v, i + 1, index)
  {
    hide Tree, Records, SortedByHeight, AllRead, Compact.BlockWork, Covers;
    WorkStep(m, v, i, index, hashGenesisBlock, path);
    var pindex := m[v[i]];
    assert pindex in m.Values;
    SetWork(m, Records(index, path), pindex,
            (if pindex.pprev == null then 0 else pindex.pprev.bnChainWork) + Compact.BlockWork(pindex.nBits));
  }

  method SetWork(ghost m: Loaded, ghost records: map<Hash, DiskBlockIndex>, pindex: LoadedIndex, work: nat)
    requires AllRead(m, records)
    modifies pindex`bnChainWork
    ensures AllRead(m, records) && pindex.bnChainWork == work
  {
    pindex.bnChainWork := work;
    forall h | h in m ensures h in records && Reads(m, h, records[h]) {
      assert old(Reads(m, h, records[h]));
    }
  }

  lemma WorkStep(m: Loaded, v: seq<Hash>, i: nat, index: Index, hashGenesisBlock: Hash, path: seq<BlockIndex>)
    requires Tree(index, hashGenesisBlock) && m.Keys == index.Keys
    requires SortedByHeight(Records(index, path), v) && Covers(v, m.Keys) && i < |v|
    requires AllRead(m, Records(index, path)) && WorkDone(m, v, i, index)
    ensures v[i] in m
    ensures var p := m[v[i]];
            (if p.pprev == null then 0 else p.pprev.bnChainWork) + Compact.BlockWork(p.nBits) == index[v[i]].bnChainWork
  {
    hide Next, SortedByHeight, BlockIndex.Path;
    assert v[i] in v;
    assert Reads(m, v[i], Records(index, path)[v[i]]);
    if index[v[i]].pprev != null {
      var k := ParentFirst(index, hashGenesisBlock, path, v, i);
      assert m[v[i]].pprev == m[v[k]];
    }
  }

  /** The second loop of LoadBlockIndex: chain work, from the lowest block upwards. */
  method ComputeWork(m: Loaded, v: seq<Hash>, ghost index: Index, ghost hashGenesisBlock: Hash,
                     ghost path: seq<BlockIndex>)
    requires Tree(index, hashGenesisBlock) && m.Keys == index.Keys && Filed(m)
    requires SortedByHeight(Records(index, path), v) && Covers(v, m.Keys)
    requires AllRead(m, Records(index, path))
    modifies m.Values`bnChainWork
    ensures AllRead(m, Records(index, path))
    ensures forall h :: h in m ==> m[h].bnChainWork == index[h].bnChainWork
  {
    hide Next, SortedByHeight, Tree, Records, AllRead;
    var i := 0;
    while i < |v|
      invariant i <= |v| && AllRead(m, Records(index, path)) && WorkDone(m, v, i, index)
    {
      AddWork(m, v, i, index, hashGenesisBlock, path);
      i := i + 1;
    }
    forall h | h in m ensures m[h].bnChainWork == index[h].bnChainWork {
      assert h in v;
    }
  }

  lemma RecordsClosed(index: Index, hashGenesisBlock: Hash, best: BlockIndex)
    requires Tree(index, hashGenesisBlock) && InTree(index, best)
    ensures Closed(Records(index, best.Path())) && Records(index, best.Path()).Keys == index.Keys
  {
    hide BlockIndex.Path, BlockIndex.Rooted;
    forall h | h in index ensures var b := Next(best.Path(), index[h]); b == null || InTree(index, b) {
      var b := Next(best.Path(), index[h]);
      if b != null {
        PathInTree(index, hashGenesisBlock, best, 0);
        PathInTree(index, hashGenesisBlock, best, index[h].nHeight + 1);
      }
    }
  }

  /** The object stands for the block: the same place, height and work, and pointers to the
      objects that stand for the same neighbours. */
  ghost predicate Mirrors(m: Loaded, index: Index, path: seq<BlockIndex>, h: Hash)
    requires h in m && h in index
    reads m[h]
  {
    && Has(m, HashOf(index[h].pprev)) && m[h].pprev == Pointer(m, HashOf(index[h].pprev))
    && Has(m, HashOf(Next(path, index[h]))) && m[h].pnext == Pointer(m, HashOf(Next(path, index[h])))
    && m[h].nFile == index[h].nFile && m[h].nBlockPos == index[h].nBlockPos
    && m[h].nHeight == index[h].nHeight && m[h].bnChainWork == index[h].bnChainWork
  }

  lemma ReadsMirror(m: Loaded, index: Index, path: seq<BlockIndex>)
    requires m.Keys == index.Keys && AllRead(m, Records(index, path))
    requires forall h :: h in m ==> m[h].bnChainWork == index[h].bnChainWork
    ensures forall h :: h in m ==> Mirrors(m, index, path, h)
  {
    hide Next;
  }

  /** LoadBlockIndex, in whatever order the database cursor presents the records, rebuilds the
      tree that wrote them. */
  method LoadBlockIndex(d: DbData, order: seq<Hash>, ghost index: Index, ghost hashGenesisBlock: Hash,
                        ghost best: BlockIndex)
    returns (m: Loaded, pindexBest: LoadedIndex?)
    requires Tree(index, hashGenesisBlock) && InTree(index, best)
    requires d.blocks == Records(index, best.Path()) && d.hashBestChain == Some(best.Hash())
    requires Enumerates(order, d.blocks.Keys)
    ensures m.Keys == index.Keys && Filed(m) && forall h :: h in m ==> fresh(m[h]) && Mirrors(m, index, best.Path(), h)
    ensures pindexBest == m[best.Hash()]
  {
    hide Next, BlockIndex.Path, BlockIndex.Rooted, Tree, Closed, SortedByHeight, Records, Reads;
    RecordsClosed(index, hashGenesisBlock, best);
    m := LoadRecords(d.blocks, order);
    var vSortedByHeight := SortByHeight(d.blocks, order);
    assert Covers(vSortedByHeight, m.Keys);
    ComputeWork(m, vSortedByHeight, index, hashGenesisBlock, best.Path());
    ReadsMirror(m, index, best.Path());
    pindexBest := m[d.hashBestChain.value];
  }

  /** A node that is stopped and loaded again finds the tree it had in memory. */
  method Restart(node: Node, order: seq<Hash>) returns (m: Loaded, pindexBest: LoadedIndex?)
    requires node.Valid() && node.pindexBest != null
    requires Enumerates(order, node.env.store[0].blocks.Keys)
    ensures m.Keys == node.mapBlockIndex.Keys
    ensures forall h :: h in m ==> var b := node.mapBlockIndex[h];
            && Has(m, HashOf(b.pprev)) && m[h].pprev == Pointer(m, HashOf(b.pprev))
            && Has(m, HashOf(b.pnext)) && m[h].pnext == Pointer(m, HashOf(b.pnext))
            && m[h].nHeight == b.nHeight && m[h].bnChainWork == b.bnChainWork
    ensures node.hashBestChain in m && pindexBest == m[node.hashBestChain]
            && pindexBest.bnChainWork == node.bnBestChainWork
  {
    hide Tree, Next, Records, BlockIndex.Path;
    m, pindexBest :=
      LoadBlockIndex(node.env.store[0], order, node.mapBlockIndex, node.hashGenesisBlock, node.pindexBest);
  }
}
