/** The node's view of the block tree, in memory and on disk, and the steps that change its
    best chain (src/main.cpp). */
module NodeState {
  import opened Common
  import opened ChainTypes
  import opened Connect
  import opened ChainRun
  import opened Switch
  import opened TxDb
  import opened ChainDb
  import opened BlockTree

  type Index = map<Hash, BlockIndex>

  ghost predicate InTree(index: Index, b: BlockIndex) {
    b.Hash() in index && index[b.Hash()] == b
  }

  /** mapBlockIndex holds rooted blocks under their own hashes, with all their ancestors, linked
      by hashPrevBlock; only the genesis block has no parent, and no block has hash 0. */
  ghost predicate Tree(index: Index, hashGenesisBlock: Hash) {
    forall h :: h in index ==>
      && h != 0 && index[h].Hash() == h && index[h].Rooted() && index[h].block.hashPrev == HashOf(index[h].pprev)
      && (if index[h].pprev == null then h == hashGenesisBlock else InTree(index, index[h].pprev))
  }

  /** The block after `b` on a path, if `b` is on it. */
  ghost function Next(path: seq<BlockIndex>, b: BlockIndex): BlockIndex? {
    if b.nHeight + 1 < |path| && path[b.nHeight] == b then path[b.nHeight + 1] else null
  }

  ghost predicate Linked(index: Index, path: seq<BlockIndex>)
    reads index.Values
  {
    forall h :: h in index ==> index[h].pnext == Next(path, index[h])
  }

  function HashOf(b: BlockIndex?): Hash {
    if b == null then 0 else b.Hash()
  }

  /** The record of a block (CDiskBlockIndex) with the given hashNext. */
  function Record(b: BlockIndex, hashNext: Hash): DiskBlockIndex {
    DiskBlockIndex(HashOf(b.pprev), hashNext, b.nFile, b.nBlockPos, b.nHeight, b.block.nBits)
  }

  /** The "blockindex" records of a node whose main chain is `path`. */
  ghost function Records(index: Index, path: seq<BlockIndex>): map<Hash, DiskBlockIndex> {
    map h | h in index :: Record(index[h], HashOf(Next(path, index[h])))
  }

  /** All of the path to a block of the tree is in the tree, and starts at the genesis block. */
  lemma {:induction false} PathInTree(index: Index, hashGenesisBlock: Hash, b: BlockIndex, i: nat)
    requires Tree(index, hashGenesisBlock) && InTree(index, b) && i <= b.nHeight
    ensures b.Rooted() && |b.Path()| == b.nHeight + 1 && InTree(index, b.Path()[i])
    ensures b.Path()[0].Hash() == hashGenesisBlock
    decreases b.nHeight
  {
    if b.pprev != null {
      PathInTree(index, hashGenesisBlock, b.pprev, if i < b.nHeight then i else 0);
      assert b.Path()[0] == b.pprev.Path()[0];
    }
  }

  lemma SameRoot(index: Index, hashGenesisBlock: Hash, a: BlockIndex, b: BlockIndex)
    requires Tree(index, hashGenesisBlock) && InTree(index, a) && InTree(index, b)
    ensures a.Path()[0] == b.Path()[0]
  {
    PathInTree(index, hashGenesisBlock, a, 0);
    PathInTree(index, hashGenesisBlock, b, 0);
  }

  /** Putting a block on top of a path changes only what follows its parent. */
  lemma NextOnLonger(b: BlockIndex, c: BlockIndex)
    requires b.Rooted() && b.pprev != null
    ensures Next(b.Path(), c) == if c == b.pprev then b else Next(b.pprev.Path(), c)
    ensures Next(b.pprev.Path(), b.pprev) == null
  {
    assert b.Path() == b.pprev.Path() + [b];
    if c == b.pprev {
      assert b.Path()[c.nHeight] == c;
    }
  }

  lemma ParentByHash(index: Index, hashGenesisBlock: Hash, b: BlockIndex, a: BlockIndex)
    requires Tree(index, hashGenesisBlock) && InTree(index, b) && InTree(index, a)
    ensures b.block.hashPrev == a.Hash() <==> b.pprev == a
  {
  }

  /** Rewriting the record of the second last block when the last one is taken off. */
  lemma RecordsShrink(index: Index, hashGenesisBlock: Hash, b: BlockIndex)
    requires Tree(index, hashGenesisBlock) && InTree(index, b) && b.pprev != null
    ensures Records(index, b.Path())[b.pprev.Hash() := Record(b.pprev, 0)] == Records(index, b.pprev.Path())
  {
    hide Next, BlockIndex.Path, Record;
    forall c ensures Next(b.Path(), c) == if c == b.pprev then b else Next(b.pprev.Path(), c) {
      NextOnLonger(b, c);
    }
    NextOnLonger(b, b.pprev);
    hide BlockIndex.Rooted;
  }

  /** Rewriting the record of the old last block when a block is put on top of it. */
  lemma RecordsGrow(index: Index, hashGenesisBlock: Hash, b: BlockIndex)
    requires Tree(index, hashGenesisBlock) && InTree(index, b) && b.pprev != null
    ensures Records(index, b.pprev.Path())[b.pprev.Hash() := Record(b.pprev, b.Hash())] == Records(index, b.Path())
  {
    hide Next, BlockIndex.Path, Record;
    forall c ensures Next(b.Path(), c) == if c == b.pprev then b else Next(b.pprev.Path(), c) {
      NextOnLonger(b, c);
    }
    hide BlockIndex.Rooted;
  }

  /** The genesis block is a path of its own, on which nothing is linked. */
  lemma GenesisPath(index: Index, hashGenesisBlock: Hash, b: BlockIndex)
    requires Tree(index, hashGenesisBlock) && InTree(index, b) && b.Hash() == hashGenesisBlock
    ensures b.Path() == [b]
    ensures forall c: BlockIndex :: Next([], c) == Next(b.Path(), c)
    ensures Records(index, []) == Records(index, b.Path())
  {
    PathInTree(index, hashGenesisBlock, b, 0);
    OnPath(b, 0);
    hide BlockIndex.Rooted;
    assert b.Path() == [b];
  }

  /** A new block, put into the tree under its hash. */
  lemma TreeGrows(index: Index, hashGenesisBlock: Hash, b: BlockIndex)
    requires Tree(index, hashGenesisBlock) && b.Rooted() && b.Hash() !in index && b.Hash() != 0
    requires b.block.hashPrev == HashOf(b.pprev)
    requires if b.pprev == null then b.Hash() == hashGenesisBlock else InTree(index, b.pprev)
    ensures Tree(index[b.Hash() := b], hashGenesisBlock)
  {
    hide BlockIndex.Rooted;
  }

  /** No path of the tree passes through a block that is not in it. */
  lemma NewBlockUnlinked(index: Index, hashGenesisBlock: Hash, best: BlockIndex?, b: BlockIndex)
    requires Tree(index, hashGenesisBlock) && b.Hash() !in index
    requires best != null ==> InTree(index, best)
    ensures var path := if best == null then [] else best.Path();
            && Next(path, b) == null
            && Records(index[b.Hash() := b], path) == Records(index, path)[b.Hash() := Record(b, 0)]
  {
    var path := if best == null then [] else best.Path();
    if best != null {
      PathInTree(index, hashGenesisBlock, best, if b.nHeight <= best.nHeight then b.nHeight else 0);
    }
    hide BlockIndex.Rooted, BlockIndex.Path, Record;
  }

  lemma PlayGenesis(b: BlockIndex, testnet: bool)
    requires b.Path() == [b]
    ensures Play(b.Stored(), testnet, []) == Ok(NodeDb(ChainOf(b.Path()), EMPTY))
  {
    assert ChainOf(b.Path()) == [b.Stored()];
  }

  /** The branch to a block is its parent's branch and itself. */
  lemma ParentBranch(index: Index, hashGenesisBlock: Hash, b: BlockIndex)
    requires Tree(index, hashGenesisBlock) && InTree(index, b) && b.pprev != null
    ensures b.Rooted() && b.pprev.Rooted() && InTree(index, b.pprev)
    ensures ChainOf(b.Path()) == ChainOf(b.pprev.Path()) + [b.Stored()]
    ensures ChainOf(b.Path())[..|ChainOf(b.Path())| - 1] == ChainOf(b.pprev.Path())
    ensures |ChainOf(b.Path())| > 1
  {
    assert b.Path() == b.pprev.Path() + [b];
  }

  // ----- blocks on the databases -----

  /** A block of a path and its parent. */
  lemma OnTreePath(index: Index, hashGenesisBlock: Hash, b: BlockIndex, i: nat)
    requires Tree(index, hashGenesisBlock) && InTree(index, b) && b.Rooted() && 0 < i <= b.nHeight
    ensures |b.Path()| == b.nHeight + 1
    ensures var a := b.Path()[i];
            && InTree(index, a) && a.Path() == b.Path()[..i + 1]
            && a.pprev != null && a.pprev == b.Path()[i - 1] && a.pprev.Path() == b.Path()[..i]
  {
    PathPrefix(b, i);
    PathPrefix(b, i - 1);
    OnPath(b, i);
    PathInTree(index, hashGenesisBlock, b, i);
  }

  lemma NothingPlayed(testnet: bool, n: NodeDb, events: seq<Event>)
    requires n.chain != []
    ensures PlayFrom(testnet, n, events[..0]) == Ok(n)
  {
  }

  /** Only the innermost view changed, and not the best chain recorded in it. */
  predicate OnlyTop(before: seq<DbData>, after: seq<DbData>) {
    && before != [] && |after| == |before|
    && after[..|after| - 1] == before[..|before| - 1]
    && after[|after| - 1].hashBestChain == before[|before| - 1].hashBestChain
    && after[|after| - 1].bestInvalidWork == before[|before| - 1].bestInvalidWork
  }

  /** CBlock::DisconnectBlock. */
  method DisconnectBlockInPlace(db: DatabaseSet, testnet: bool, ghost index: Index, ghost hashGenesisBlock: Hash,
                                pindex: BlockIndex)
    returns (ok: bool)
    requires db.Valid() && Tree(index, hashGenesisBlock) && InTree(index, pindex) && pindex.pprev != null
    requires db.View().blocks == Records(index, pindex.Path())
    modifies db.env
    ensures db.Valid() && OnlyTop(old(db.env.store), db.env.store)
    ensures var r := Step(testnet, NodeDb(ChainOf(pindex.Path()), old(Idx(db.env.store))), Detach);
            ok == r.Ok? && (ok ==> r.value == NodeDb(ChainOf(pindex.pprev.Path()), Idx(db.env.store)))
    ensures ok ==> db.View().blocks == Records(index, pindex.pprev.Path())
  {
    hide Tree, InTree, BlockIndex.Rooted, Records, Record, DisconnectBlock, BlockIndex.Path, ChainOf, DatabaseSet.Valid;
    ParentBranch(index, hashGenesisBlock, pindex);
    RecordsShrink(index, hashGenesisBlock, pindex);
    var path := pindex.Branch();
    ok := DisconnectTransactions(db, testnet, path);
    if !ok {
      return;
    }
    db.WriteBlockIndex(pindex.pprev.Hash(), Record(pindex.pprev, 0));
  }

  /** CBlock::ConnectBlock. */
  method ConnectBlockInPlace(db: DatabaseSet, testnet: bool, env: Env, best: int, ghost index: Index,
                             ghost hashGenesisBlock: Hash, pindex: BlockIndex)
    returns (ok: bool)
    requires db.Valid() && Tree(index, hashGenesisBlock) && InTree(index, pindex) && pindex.pprev != null
    requires db.View().blocks == Records(index, pindex.pprev.Path())
    modifies db.env
    ensures db.Valid() && OnlyTop(old(db.env.store), db.env.store)
    ensures var r :=
              Step(testnet, NodeDb(ChainOf(pindex.pprev.Path()), old(Idx(db.env.store))),
                   Attach(env, pindex.Stored(), best));
            ok == r.Ok? && (ok ==> r.value == NodeDb(ChainOf(pindex.Path()), Idx(db.env.store)))
    ensures ok ==> db.View().blocks == Records(index, pindex.Path())
  {
    hide Tree, InTree, BlockIndex.Rooted, Records, Record, ConnectBlock, BlockIndex.Path, ChainOf, DatabaseSet.Valid;
    ParentBranch(index, hashGenesisBlock, pindex);
    RecordsGrow(index, hashGenesisBlock, pindex);
    var path := pindex.Branch();
    ok := ConnectTransactions(db, Site(env, path, best));
    if !ok {
      return;
    }
    db.WriteBlockIndex(pindex.pprev.Hash(), Record(pindex.pprev, pindex.Hash()));
  }

  /** The blocks from `from` down to, not including, `pfork`. */
  method BlocksDownTo(from: BlockIndex, pfork: BlockIndex) returns (v: seq<BlockIndex>)
    requires from.Rooted() && pfork.nHeight <= from.nHeight && |from.Path()| == from.nHeight + 1
             && from.Path()[pfork.nHeight] == pfork
    ensures |v| == from.nHeight - pfork.nHeight
    ensures forall k :: 0 <= k < |v| ==> v[k] == from.Path()[from.nHeight - k]
  {
    hide BlockIndex.Path, BlockIndex.Rooted;
    v := [];
    var pindex: BlockIndex := from;
    while pindex != pfork
      invariant pfork.nHeight <= pindex.nHeight <= from.nHeight && from.Path()[pindex.nHeight] == pindex
      invariant |v| == from.nHeight - pindex.nHeight
      invariant forall k :: 0 <= k < |v| ==> v[k] == from.Path()[from.nHeight - k]
      decreases pindex.nHeight
    {
      OnPath(from, pindex.nHeight);
      OnPath(from, pindex.nHeight - 1);
      v := v + [pindex];
      pindex := pindex.pprev;
    }
  }

  /** After the first `k` of the events the innermost view is that of a node whose main chain
      is `path`. */
  ghost predicate Reached(testnet: bool, start: NodeDb, events: seq<Event>, k: nat, index: Index, path: seq<BlockIndex>,
                          store: seq<DbData>)
    requires start.chain != [] && k <= |events| && store != []
  {
    && PlayFrom(testnet, start, events[..k]) == Ok(NodeDb(ChainOf(path), Idx(store)))
    && store[|store| - 1].blocks == Records(index, path)
  }

  /** One round of the disconnecting loop of Reorganize. */
  method DisconnectNext(db: DatabaseSet, testnet: bool, ghost index: Index, ghost hashGenesisBlock: Hash,
                        ghost start: NodeDb, ghost events: seq<Event>, ghost k: nat, pindex: BlockIndex)
    returns (ok: bool)
    requires db.Valid() && db.env.store != []
    requires Tree(index, hashGenesisBlock) && InTree(index, pindex) && pindex.pprev != null
    requires start.chain != [] && k < |events| && events[k] == Detach
    requires Reached(testnet, start, events, k, index, pindex.Path(), db.env.store)
    modifies db.env
    ensures db.Valid() && OnlyTop(old(db.env.store), db.env.store)
    ensures !ok ==> PlayFrom(testnet, start, events).Rejected?
    ensures ok ==> Reached(testnet, start, events, k + 1, index, pindex.pprev.Path(), db.env.store)
  {
    hide Tree, InTree, BlockIndex.Rooted, Records, BlockIndex.Path, ChainOf, DatabaseSet.Valid, Step, PlayFrom;
    NextStep(testnet, start, events, k);
    ok := DisconnectBlockInPlace(db, testnet, index, hashGenesisBlock, pindex);
  }

  /** One round of the connecting loop of Reorganize. */
  method ConnectNext(db: DatabaseSet, testnet: bool, env: Env, nBestHeight: int, ghost index: Index,
                     ghost hashGenesisBlock: Hash, ghost start: NodeDb, ghost events: seq<Event>, ghost k: nat,
                     pindex: BlockIndex)
    returns (ok: bool)
    requires db.Valid() && db.env.store != []
    requires Tree(index, hashGenesisBlock) && InTree(index, pindex) && pindex.pprev != null
    requires start.chain != [] && k < |events| && events[k] == Attach(env, pindex.Stored(), nBestHeight)
    requires Reached(testnet, start, events, k, index, pindex.pprev.Path(), db.env.store)
    modifies db.env
    ensures db.Valid() && OnlyTop(old(db.env.store), db.env.store)
    ensures !ok ==> PlayFrom(testnet, start, events).Rejected?
    ensures ok ==> Reached(testnet, start, events, k + 1, index, pindex.Path(), db.env.store)
  {
    hide Tree, InTree, BlockIndex.Rooted, BlockIndex.Stored, Records, BlockIndex.Path, ChainOf, DatabaseSet.Valid, Step,
         PlayFrom;
    NextStep(testnet, start, events, k);
    ok := ConnectBlockInPlace(db, testnet, env, nBestHeight, index, hashGenesisBlock, pindex);
  }

  /** The disconnecting loop of Reorganize, from `best` down to the block of height `low`. */
  method DisconnectDownTo(db: DatabaseSet, testnet: bool, ghost index: Index, ghost hashGenesisBlock: Hash,
                          ghost best: BlockIndex, ghost low: nat, ghost start: NodeDb, ghost events: seq<Event>,
                          vDisconnect: seq<BlockIndex>)
    returns (ok: bool)
    requires db.Valid() && db.env.store != []
    requires Tree(index, hashGenesisBlock) && InTree(index, best) && best.Rooted()
    requires low <= best.nHeight && |vDisconnect| == best.nHeight - low && |best.Path()| == best.nHeight + 1
    requires forall k :: 0 <= k < |vDisconnect| ==> vDisconnect[k] == best.Path()[best.nHeight - k]
    requires start.chain != [] && Reached(testnet, start, events, 0, index, best.Path(), db.env.store)
    requires |events| >= |vDisconnect| && forall k :: 0 <= k < |vDisconnect| ==> events[k] == Detach
    modifies db.env
    ensures db.Valid() && OnlyTop(old(db.env.store), db.env.store)
    ensures !ok ==> PlayFrom(testnet, start, events).Rejected?
    ensures ok ==> Reached(testnet, start, events, |vDisconnect|, index, best.Path()[..low + 1], db.env.store)
  {
    hide Tree, InTree, BlockIndex.Rooted, BlockIndex.Path, DatabaseSet.Valid, PlayFrom, Reached;
    var i := 0;
    assert best.Path()[..best.nHeight + 1] == best.Path();
    while i < |vDisconnect|
      invariant db.Valid() && OnlyTop(old(db.env.store), db.env.store) && i <= |vDisconnect|
      invariant Reached(testnet, start, events, i, index, best.Path()[..best.nHeight + 1 - i], db.env.store)
    {
      OnTreePath(index, hashGenesisBlock, best, best.nHeight - i);
      ok := DisconnectNext(db, testnet, index, hashGenesisBlock, start, events, i, vDisconnect[i]);
      if !ok {
        return;
      }
      i := i + 1;
    }
    ok := true;
  }

  /** The connecting loop of Reorganize, from the block of height `low` up to `target`. */
  method ConnectUpTo(db: DatabaseSet, testnet: bool, env: Env, nBestHeight: int, ghost index: Index,
                     ghost hashGenesisBlock: Hash, ghost target: BlockIndex, ghost low: nat, ghost start: NodeDb,
                     ghost events: seq<Event>, ghost done: nat, vConnect: seq<BlockIndex>)
    returns (ok: bool)
    requires db.Valid() && db.env.store != []
    requires Tree(index, hashGenesisBlock) && InTree(index, target) && target.Rooted()
    requires low <= target.nHeight && |vConnect| == target.nHeight - low && |target.Path()| == target.nHeight + 1
    requires forall k :: 0 <= k < |vConnect| ==> vConnect[k] == target.Path()[low + 1 + k]
    requires start.chain != [] && |events| == done + |vConnect|
    requires forall k :: 0 <= k < |vConnect| ==> events[done + k] == Attach(env, vConnect[k].Stored(), nBestHeight)
    requires Reached(testnet, start, events, done, index, target.Path()[..low + 1], db.env.store)
    modifies db.env
    ensures db.Valid() && OnlyTop(old(db.env.store), db.env.store)
    ensures !ok ==> PlayFrom(testnet, start, events).Rejected?
    ensures ok ==> Reached(testnet, start, events, |events|, index, target.Path(), db.env.store)
  {
    hide Tree, InTree, BlockIndex.Rooted, BlockIndex.Path, BlockIndex.Stored, DatabaseSet.Valid, PlayFrom, Reached;
    var i := 0;
    while i < |vConnect|
      invariant db.Valid() && OnlyTop(old(db.env.store), db.env.store) && i <= |vConnect|
      invariant Reached(testnet, start, events, done + i, index, target.Path()[..low + 1 + i], db.env.store)
    {
      OnTreePath(index, hashGenesisBlock, target, low + 1 + i);
      ok := ConnectNext(db, testnet, env, nBestHeight, index, hashGenesisBlock, start, events, done + i, vConnect[i]);
      if !ok {
        return;
      }
      i := i + 1;
    }
    assert target.Path()[..low + 1 + i] == target.Path();
    ok := true;
  }

  /** The run from the branch of `best` to the branch of `target`. */
  ghost function SwitchTo(best: BlockIndex, target: BlockIndex, env: Env, nBestHeight: int): (events: seq<Event>) {
    SwitchEvents(ChainOf(best.Path()), SharedLength(best.Path(), target.Path()), ChainOf(target.Path()), env,
                 nBestHeight)
  }

  /** First the blocks above the fork go, then those of the other branch come, in order; all of them
      are connected while the best height is still that of the old branch. */
  lemma SwitchSteps(best: BlockIndex, target: BlockIndex, env: Env, nBestHeight: int, k: nat)
    ensures var shared := SharedLength(best.Path(), target.Path());
            var gone, events := |best.Path()| - shared, SwitchTo(best, target, env, nBestHeight);
            && |events| == gone + |target.Path()| - shared
            && (k < gone ==> events[k] == Detach)
            && (gone <= k < |events| ==>
                  events[k] == Attach(env, target.Path()[shared + k - gone].Stored(), nBestHeight))
  {
    hide BlockIndex.Path, SharedLength, BlockIndex.Stored;
  }

  /** The lists of blocks to disconnect and to connect. */
  ghost predicate Lists(best: BlockIndex, target: BlockIndex, low: nat, vDisconnect: seq<BlockIndex>,
                        vConnect: seq<BlockIndex>)
  {
    && best.Rooted() && target.Rooted()
    && |best.Path()| == best.nHeight + 1 && |target.Path()| == target.nHeight + 1
    && low <= best.nHeight && low <= target.nHeight && low + 1 == SharedLength(best.Path(), target.Path())
    && |vDisconnect| == best.nHeight - low && |vConnect| == target.nHeight - low
    && (forall k :: 0 <= k < |vDisconnect| ==> vDisconnect[k] == best.Path()[best.nHeight - k])
    && (forall k :: 0 <= k < |vConnect| ==> vConnect[k] == target.Path()[low + 1 + k])
  }

  method FindLists(ghost index: Index, ghost hashGenesisBlock: Hash, best: BlockIndex, target: BlockIndex)
    returns (ok: bool, ghost low: nat, vDisconnect: seq<BlockIndex>, vConnect: seq<BlockIndex>)
    requires Tree(index, hashGenesisBlock) && InTree(index, best) && InTree(index, target)
    ensures ok && Lists(best, target, low, vDisconnect, vConnect)
  {
    hide BlockIndex.Rooted, BlockIndex.Path;
    SameRoot(index, hashGenesisBlock, best, target);
    hide Tree, SharedLength;
    var pfork;
    ok, pfork := FindFork(best, target);
    low := pfork.nHeight;
    vDisconnect := BlocksDownTo(best, pfork);
    vConnect := BlocksDownTo(target, pfork);
    vConnect := Reverse(vConnect);
  }

  lemma EventsOfLists(best: BlockIndex, target: BlockIndex, low: nat, vDisconnect: seq<BlockIndex>,
                      vConnect: seq<BlockIndex>, env: Env, nBestHeight: int)
    requires Lists(best, target, low, vDisconnect, vConnect)
    ensures var events := SwitchTo(best, target, env, nBestHeight);
            && |events| == |vDisconnect| + |vConnect|
            && (forall k :: 0 <= k < |vDisconnect| ==> events[k] == Detach)
            && (forall k ::
                  0 <= k < |vConnect| ==> events[|vDisconnect| + k] == Attach(env, vConnect[k].Stored(), nBestHeight))
    ensures best.Path()[..low + 1] == target.Path()[..low + 1]
  {
  }

  lemma StartReached(testnet: bool, start: NodeDb, events: seq<Event>, index: Index, path: seq<BlockIndex>,
                     store: seq<DbData>)
    requires start.chain != [] && store != []
    requires start == NodeDb(ChainOf(path), Idx(store)) && store[|store| - 1].blocks == Records(index, path)
    ensures Reached(testnet, start, events, 0, index, path, store)
  {
    NothingPlayed(testnet, start, events);
  }

  lemma EndReached(testnet: bool, start: NodeDb, events: seq<Event>, index: Index, path: seq<BlockIndex>,
                   store: seq<DbData>)
    requires start.chain != [] && store != [] && Reached(testnet, start, events, |events|, index, path, store)
    ensures PlayFrom(testnet, start, events) == Ok(NodeDb(ChainOf(path), Idx(store)))
    ensures store[|store| - 1].blocks == Records(index, path)
  {
    assert events[..|events|] == events;
  }

  /** Reorganize up to and including its commit. */
  method MoveDatabases(db: DatabaseSet, testnet: bool, env: Env, nBestHeight: int, ghost index: Index,
                       ghost hashGenesisBlock: Hash, best: BlockIndex, target: BlockIndex, ghost low: nat,
                       vDisconnect: seq<BlockIndex>, vConnect: seq<BlockIndex>)
    returns (ok: bool)
    requires db.Valid() && |db.env.store| == 2
    requires Tree(index, hashGenesisBlock) && InTree(index, best) && InTree(index, target)
    requires Lists(best, target, low, vDisconnect, vConnect)
    requires db.env.store[1].blocks == Records(index, best.Path())
    modifies db.Frame()
    ensures db.Valid()
    ensures var start := NodeDb(ChainOf(best.Path()), Idx(old(db.env.store)));
            var r := PlayFrom(testnet, start, SwitchTo(best, target, env, nBestHeight));
            ok == r.Ok? && (ok ==> |db.env.store| == 1 && r.value == NodeDb(ChainOf(target.Path()), Idx(db.env.store)))
    ensures ok ==> db.env.store[0].blocks == Records(index, target.Path())
    ensures ok ==>
              db.env.store[0].hashBestChain == Some(target.Hash())
              && db.env.store[0].bestInvalidWork == old(db.env.store)[1].bestInvalidWork
    ensures !ok ==> 1 <= |db.env.store| <= 2 && db.env.store[0] == old(db.env.store)[0]
  {
    hide Tree, InTree, BlockIndex.Rooted, BlockIndex.Path, BlockIndex.Stored, BlockIndex.Hash, DatabaseSet.Valid,
         PlayFrom, Reached, SwitchTo, SharedLength, ChainOf, Records;
    ghost var events := SwitchTo(best, target, env, nBestHeight);
    ghost var start := NodeDb(ChainOf(best.Path()), Idx(db.env.store));
    EventsOfLists(best, target, low, vDisconnect, vConnect, env, nBestHeight);
    StartReached(testnet, start, events, index, best.Path(), db.env.store);
    ok := DisconnectDownTo(db, testnet, index, hashGenesisBlock, best, low, start, events, vDisconnect);
    if !ok {
      return;
    }
    ok := ConnectUpTo(db, testnet, env, nBestHeight, index, hashGenesisBlock, target, low, start, events, |vDisconnect|,
                      vConnect);
    if !ok {
      var _ := db.TxnAbort();
      return;
    }
    EndReached(testnet, start, events, index, target.Path(), db.env.store);
    db.WriteHashBestChain(target.Hash());
    ok := db.TxnCommit();
  }

  /** Putting a block on top of the main chain is the shortest switch. */
  lemma AppendIsSwitch(index: Index, hashGenesisBlock: Hash, testnet: bool, start: NodeDb, target: BlockIndex, env: Env,
                       nBestHeight: int)
    requires Tree(index, hashGenesisBlock) && InTree(index, target) && target.pprev != null && start.chain != []
    ensures PlayFrom(testnet, start, SwitchTo(target.pprev, target, env, nBestHeight))
              == Step(testnet, start, Attach(env, target.Stored(), nBestHeight))
  {
    var best: BlockIndex := target.pprev;
    PathInTree(index, hashGenesisBlock, best, 0);
    assert target.Path() == best.Path() + [target];
    assert SharedLength(best.Path(), target.Path()) == |best.Path()|;
    var events := SwitchTo(best, target, env, nBestHeight);
    hide Step, BlockIndex.Rooted, BlockIndex.Path, BlockIndex.Stored;
    assert events == [Attach(env, target.Stored(), nBestHeight)];
    NothingPlayed(testnet, start, events);
    NextStep(testnet, start, events, 0);
    assert events[..1] == events;
  }

  /** The part of SetBestChain that puts a block on top of the main chain, on the databases. */
  method AppendToDatabases(db: DatabaseSet, testnet: bool, env: Env, nBestHeight: int, ghost index: Index,
                           ghost hashGenesisBlock: Hash, target: BlockIndex)
    returns (ok: bool)
    requires db.Valid() && |db.env.store| == 2
    requires Tree(index, hashGenesisBlock) && InTree(index, target) && target.pprev != null
    requires db.env.store[1].blocks == Records(index, target.pprev.Path())
    modifies db.Frame()
    ensures db.Valid()
    ensures var start := NodeDb(ChainOf(target.pprev.Path()), Idx(old(db.env.store)));
            var r := PlayFrom(testnet, start, SwitchTo(target.pprev, target, env, nBestHeight));
            ok == r.Ok? && (ok ==> |db.env.store| == 1 && r.value == NodeDb(ChainOf(target.Path()), Idx(db.env.store)))
    ensures ok ==> db.env.store[0].blocks == Records(index, target.Path())
    ensures ok ==>
              db.env.store[0].hashBestChain == Some(target.Hash())
              && db.env.store[0].bestInvalidWork == old(db.env.store)[1].bestInvalidWork
    ensures !ok ==> db.env.store == old(db.env.store)[..1]
  {
    hide Tree, InTree, BlockIndex.Rooted, BlockIndex.Path, BlockIndex.Stored, DatabaseSet.Valid, PlayFrom, Step,
         SwitchTo, ChainOf, Records;
    ghost var start := NodeDb(ChainOf(target.pprev.Path()), Idx(db.env.store));
    AppendIsSwitch(index, hashGenesisBlock, testnet, start, target, env, nBestHeight);
    ok := ConnectBlockInPlace(db, testnet, env, nBestHeight, index, hashGenesisBlock, target);
    if !ok {
      var _ := db.TxnAbort();
      return;
    }
    db.WriteHashBestChain(target.Hash());
    ok := db.TxnCommit();
  }

  // ----- the links in memory -----

  lemma LinkedShorter(index: Index, hashGenesisBlock: Hash, b: BlockIndex)
    requires Tree(index, hashGenesisBlock) && InTree(index, b) && b.pprev != null
    ensures b.pprev.Hash() in index && index[b.pprev.Hash()] == b.pprev
    ensures forall h :: h in index && index[h] != b.pprev ==> Next(b.Path(), index[h]) == Next(b.pprev.Path(), index[h])
    ensures Next(b.pprev.Path(), b.pprev) == null && Next(b.Path(), b.pprev) == b
  {
    hide Next, BlockIndex.Path;
    forall h | h in index ensures index[h] != b.pprev ==> Next(b.Path(), index[h]) == Next(b.pprev.Path(), index[h]) {
      NextOnLonger(b, index[h]);
    }
    NextOnLonger(b, b.pprev);
  }

  /** Clears the links of the abandoned branch. */
  method UnlinkDownTo(ghost index: Index, ghost hashGenesisBlock: Hash, ghost best: BlockIndex, ghost low: nat,
                      vDisconnect: seq<BlockIndex>)
    requires Tree(index, hashGenesisBlock) && InTree(index, best) && best.Rooted()
    requires low <= best.nHeight && |vDisconnect| == best.nHeight - low && |best.Path()| == best.nHeight + 1
    requires forall k :: 0 <= k < |vDisconnect| ==> vDisconnect[k] == best.Path()[best.nHeight - k]
    requires Linked(index, best.Path())
    modifies index.Values
    ensures Linked(index, best.Path()[..low + 1])
  {
    hide Tree, InTree, BlockIndex.Rooted, BlockIndex.Path, Next;
    var i := 0;
    assert best.Path()[..best.nHeight + 1] == best.Path();
    while i < |vDisconnect|
      invariant i <= |vDisconnect| && Linked(index, best.Path()[..best.nHeight + 1 - i])
    {
      var pindex: BlockIndex := vDisconnect[i];
      OnTreePath(index, hashGenesisBlock, best, best.nHeight - i);
      LinkedShorter(index, hashGenesisBlock, pindex);
      if pindex.pprev != null {
        pindex.pprev.pnext := null;
      }
      i := i + 1;
    }
  }

  /** Sets the links of the new branch. */
  method LinkUpTo(ghost index: Index, ghost hashGenesisBlock: Hash, ghost target: BlockIndex, ghost low: nat,
                  vConnect: seq<BlockIndex>)
    requires Tree(index, hashGenesisBlock) && InTree(index, target) && target.Rooted()
    requires low <= target.nHeight && |vConnect| == target.nHeight - low && |target.Path()| == target.nHeight + 1
    requires forall k :: 0 <= k < |vConnect| ==> vConnect[k] == target.Path()[low + 1 + k]
    requires Linked(index, target.Path()[..low + 1])
    modifies index.Values
    ensures Linked(index, target.Path())
  {
    hide Tree, InTree, BlockIndex.Rooted, BlockIndex.Path, Next;
    var i := 0;
    while i < |vConnect|
      invariant i <= |vConnect| && Linked(index, target.Path()[..low + 1 + i])
    {
      var pindex: BlockIndex := vConnect[i];
      OnTreePath(index, hashGenesisBlock, target, low + 1 + i);
      LinkedShorter(index, hashGenesisBlock, pindex);
      if pindex.pprev != null {
        pindex.pprev.pnext := pindex;
      }
      i := i + 1;
    }
    assert target.Path()[..low + 1 + i] == target.Path();
  }

  /** The two loops with which Reorganize updates the links after its commit. */
  method Relink(ghost index: Index, ghost hashGenesisBlock: Hash, ghost best: BlockIndex, ghost target: BlockIndex,
                ghost low: nat, vDisconnect: seq<BlockIndex>, vConnect: seq<BlockIndex>)
    requires Tree(index, hashGenesisBlock) && InTree(index, best) && InTree(index, target)
    requires Lists(best, target, low, vDisconnect, vConnect) && Linked(index, best.Path())
    modifies index.Values
    ensures Linked(index, target.Path())
  {
    hide Tree, InTree, BlockIndex.Rooted, BlockIndex.Path, Next;
    UnlinkDownTo(index, hashGenesisBlock, best, low, vDisconnect);
    assert best.Path()[..low + 1] == target.Path()[..low + 1];
    LinkUpTo(index, hashGenesisBlock, target, low, vConnect);
  }

  method LinkTip(ghost index: Index, ghost hashGenesisBlock: Hash, pindexNew: BlockIndex)
    requires Tree(index, hashGenesisBlock) && InTree(index, pindexNew) && pindexNew.pprev != null
    requires Linked(index, pindexNew.pprev.Path())
    modifies index.Values
    ensures Linked(index, pindexNew.Path())
  {
    hide BlockIndex.Rooted, BlockIndex.Path, Next;
    LinkedShorter(index, hashGenesisBlock, pindexNew);
    hide Tree;
    pindexNew.pprev.pnext := pindexNew;
  }

  /** Writes one block record in a transaction of its own. */
  method WriteRecord(db: DatabaseSet, hash: Hash, record: DiskBlockIndex)
    requires db.Valid() && |db.env.store| == 1
    modifies db.Frame()
    ensures db.Valid() && db.env.store == [old(db.env.store)[0].(blocks := old(db.env.store)[0].blocks[hash := record])]
  {
    hide DatabaseSet.Valid;
    ghost var d := db.env.store[0];
    db.TxnBegin();
    assert db.env.store == [d, d];
    db.WriteBlockIndex(hash, record);
    assert db.env.store == [d, d.(blocks := d.blocks[hash := record])];
    var _ := db.TxnCommit();
  }

  // ----- the node -----

  class Node {
    const testnet: bool
    const hashGenesisBlock: Hash
    const env: DbEnv
    var mapBlockIndex: Index
    var pindexGenesisBlock: BlockIndex?
    var pindexBest: BlockIndex?
    var hashBestChain: Hash
    var nBestHeight: int
    var bnBestChainWork: nat
    var bnBestInvalidWork: nat

    /** What has been connected and disconnected so far. */
    ghost var trace: seq<Event>

    ghost function BestPath(): seq<BlockIndex>
      reads this
    {
      if pindexBest == null then [] else pindexBest.Path()
    }

    ghost predicate Memory()
      reads this, mapBlockIndex.Values
    {
      && Tree(mapBlockIndex, hashGenesisBlock)
      && Linked(mapBlockIndex, BestPath())
      && hashBestChain == HashOf(pindexBest)
      && (if pindexBest == null then
            pindexGenesisBlock == null && nBestHeight == -1 && bnBestChainWork == 0 && trace == []
          else
            && InTree(mapBlockIndex, pindexBest) && pindexGenesisBlock == pindexBest.Path()[0]
            && nBestHeight == pindexBest.nHeight && bnBestChainWork == pindexBest.bnChainWork)
    }

    /** The databases describe the same main chain, and hold what the run that led here leaves
        behind. */
    ghost predicate OnDisk(d: DbData)
      reads this
    {
      && d.blocks == Records(mapBlockIndex, BestPath())
      && d.bestInvalidWork == bnBestInvalidWork
      && (if pindexBest == null then
            d.hashBestChain == None && IndexesOf(d) == EMPTY
          else
            && d.hashBestChain == Some(pindexBest.Hash())
            && Play(pindexBest.Path()[0].Stored(), testnet, trace)
                 == Ok(NodeDb(ChainOf(pindexBest.Path()), IndexesOf(d))))
    }

    ghost predicate Valid()
      reads this, mapBlockIndex.Values, env
    {
      Memory() && |env.store| == 1 && OnDisk(env.store[0])
    }

    /** A node that knows no block yet. */
    constructor (testnet: bool, hashGenesisBlock: Hash, env: DbEnv)
      requires hashGenesisBlock != 0
      requires env.store == [DbData(map[], map[], None, 0, map[])]
      ensures Valid() && this.env == env && mapBlockIndex == map[] && pindexBest == null
      ensures this.testnet == testnet && this.hashGenesisBlock == hashGenesisBlock
    {
      this.testnet, this.hashGenesisBlock, this.env := testnet, hashGenesisBlock, env;
      mapBlockIndex, pindexGenesisBlock, pindexBest := map[], null, null;
      hashBestChain, nBestHeight, bnBestChainWork, bnBestInvalidWork := 0, -1, 0, 0;
      trace := [];
    }

    predicate IsInMainChain(b: BlockIndex)
      reads this, b
    {
      b.pnext != null || b == pindexBest
    }

    /** The main-chain test is true exactly on the path from the genesis block to the tip. */
    lemma MainChainIsBestPath(b: BlockIndex)
      requires Valid() && InTree(mapBlockIndex, b)
      ensures IsInMainChain(b) <==> b in BestPath()
    {
      if pindexBest != null {
        PathInTree(mapBlockIndex, hashGenesisBlock, pindexBest, 0);
        if b in BestPath() {
          var i: nat :| i < |BestPath()| && BestPath()[i] == b;
          OnPath(pindexBest, i);
        }
      }
    }

    /** A database transaction has just been opened on the current state. */
    ghost predicate Begun(db: DatabaseSet)
      reads this, mapBlockIndex.Values, db, db.env, db.txDb, db.nameDb
    {
      && Memory() && db.Valid() && db.env == env
      && |env.store| == 2 && env.store[0] == env.store[1] && OnDisk(env.store[0])
    }

    /** The run from the current main chain to the branch of `target`, on the databases `d`. */
    ghost function SwitchFrom(d: DbData, e: Env, target: BlockIndex): Outcome<NodeDb>
      requires pindexBest != null
      reads this
    {
      PlayFrom(testnet, NodeDb(ChainOf(pindexBest.Path()), IndexesOf(d)), SwitchTo(pindexBest, target, e, nBestHeight))
    }

    /** How a move from `d` to the branch of `target` ends: committed and linked when every step
        of the run succeeds, and otherwise with `d` and the links as they were. */
    ghost predicate Moved(d: DbData, e: Env, target: BlockIndex, ok: bool, store: seq<DbData>)
      requires pindexBest != null
      reads this, mapBlockIndex.Values
    {
      && store != []
      && ok == SwitchFrom(d, e, target).Ok?
      && (if ok then
            && |store| == 1 && Linked(mapBlockIndex, target.Path())
            && SwitchFrom(d, e, target).value == NodeDb(ChainOf(target.Path()), IndexesOf(store[0]))
            && store[0].blocks == Records(mapBlockIndex, target.Path())
            && store[0].hashBestChain == Some(target.Hash()) && store[0].bestInvalidWork == d.bestInvalidWork
          else
            store[0] == d && |store| <= 2 && Linked(mapBlockIndex, pindexBest.Path()))
    }

    /** Reorganize: moves the databases, and then the links in memory, to another branch.  A
        failed connection leaves the transaction aborted, a failed disconnection leaves it open. */
    method Reorganize(db: DatabaseSet, e: Env, pindexNew: BlockIndex) returns (ok: bool)
      requires env.store != [] && pindexBest != null
      requires Begun(db) && InTree(mapBlockIndex, pindexNew)
      modifies db.Frame(), mapBlockIndex.Values
      ensures pindexBest != null
      ensures db.Valid() && Moved(old(env.store)[0], e, pindexNew, ok, env.store)
    {
      hide Tree, InTree, BlockIndex.Rooted, BlockIndex.Path, BlockIndex.Stored, DatabaseSet.Valid, PlayFrom, SwitchTo,
           ChainOf, Records, Next, Lists, Play;
      var found, low, vDisconnect, vConnect := FindLists(mapBlockIndex, hashGenesisBlock, pindexBest, pindexNew);
      ok := MoveDatabases(db, testnet, e, nBestHeight, mapBlockIndex, hashGenesisBlock, pindexBest, pindexNew, low,
                          vDisconnect, vConnect);
      if !ok {
        return;
      }
      Relink(mapBlockIndex, hashGenesisBlock, pindexBest, pindexNew, low, vDisconnect, vConnect);
    }

    /** The branch of SetBestChain that puts a block on top of the main chain. */
    method ConnectTip(db: DatabaseSet, e: Env, pindexNew: BlockIndex) returns (ok: bool)
      requires env.store != [] && pindexBest != null
      requires Begun(db) && InTree(mapBlockIndex, pindexNew) && pindexNew.pprev == pindexBest
      modifies db.Frame(), mapBlockIndex.Values
      ensures pindexBest != null && |env.store| == 1
      ensures db.Valid() && Moved(old(env.store)[0], e, pindexNew, ok, env.store)
    {
      hide BlockIndex.Rooted, BlockIndex.Path, BlockIndex.Stored, DatabaseSet.Valid, PlayFrom, SwitchTo, ChainOf,
           Records, Next, Play;
      hide Tree;
      ok := AppendToDatabases(db, testnet, e, nBestHeight, mapBlockIndex, hashGenesisBlock, pindexNew);
      if ok {
        LinkTip(mapBlockIndex, hashGenesisBlock, pindexNew);
      }
    }

    lemma TipByHash(db: DatabaseSet, b: BlockIndex)
      requires Begun(db) && pindexBest != null && InTree(mapBlockIndex, b)
      ensures b.block.hashPrev == hashBestChain <==> b.pprev == pindexBest
      ensures db.env == env && env.store != []
    {
      ParentByHash(mapBlockIndex, hashGenesisBlock, b, pindexBest);
    }

    lemma MovedClosed(d: DbData, e: Env, target: BlockIndex, ok: bool, store: seq<DbData>)
      requires pindexBest != null && Moved(d, e, target, ok, store) && !ok
      ensures Moved(d, e, target, ok, store[..1])
    {
    }

    /** The two branches of SetBestChain for a node with a main chain, up to their commit or
        abort.  Aborting a second time does nothing, because no transaction is left open. */
    method MoveBest(db: DatabaseSet, e: Env, pindexNew: BlockIndex) returns (ok: bool)
      requires env.store != [] && pindexBest != null
      requires Begun(db) && InTree(mapBlockIndex, pindexNew)
      modifies db.Frame(), mapBlockIndex.Values
      ensures pindexBest != null && |env.store| == 1
      ensures db.Valid() && Moved(old(env.store)[0], e, pindexNew, ok, env.store)
    {
      hide BlockIndex.Path, BlockIndex.Rooted, DatabaseSet.Valid, Records, Linked, OnDisk, Moved, Tree, InTree, Begun,
           Memory;
      TipByHash(db, pindexNew);
      if pindexNew.block.hashPrev == hashBestChain {
        ok := ConnectTip(db, e, pindexNew);
      } else {
        ok := Reorganize(db, e, pindexNew);
        MovedBounds(old(env.store)[0], e, pindexNew);
        if !ok {
          MovedClosed(old(env.store)[0], e, pindexNew, ok, env.store);
          var _ := db.TxnAbort();
          assert env.store == env.store[..1];
        }
      }
    }

    lemma MovedBounds(d: DbData, e: Env, target: BlockIndex)
      requires pindexBest != null
      ensures forall ok, store :: Moved(d, e, target, ok, store) ==> 1 <= |store| <= (if ok then 1 else 2)
    {
    }

    /** InvalidChainFound: remembers the most work seen on an invalid branch. */
    method InvalidChainFound(ghost db: DatabaseSet, pindexNew: BlockIndex)
      requires Valid() && db.Valid() && db.env == env
      modifies env, `bnBestInvalidWork
      ensures Valid() && db.Valid()
      ensures env.store
                == [old(env.store)[0].(bestInvalidWork :=
                     if pindexNew.bnChainWork > old(bnBestInvalidWork) then pindexNew.bnChainWork
                     else old(bnBestInvalidWork))]
    {
      hide Tree, Linked, Records, Play;
      if pindexNew.bnChainWork > bnBestInvalidWork {
        bnBestInvalidWork := pindexNew.bnChainWork;
        var txdb := new DatabaseSet(env);
        txdb.WriteBestInvalidWork(bnBestInvalidWork);
      }
    }

    /** The end of SetBestChain. */
    method NewBest(pindexNew: BlockIndex, ghost run: seq<Event>)
      requires Tree(mapBlockIndex, hashGenesisBlock) && InTree(mapBlockIndex, pindexNew)
      requires |env.store| == 1 && Linked(mapBlockIndex, pindexNew.Path())
      requires env.store[0].blocks == Records(mapBlockIndex, pindexNew.Path())
      requires env.store[0].hashBestChain == Some(pindexNew.Hash()) && env.store[0].bestInvalidWork == bnBestInvalidWork
      requires pindexGenesisBlock == pindexNew.Path()[0]
      requires Play(pindexNew.Path()[0].Stored(), testnet, run)
                 == Ok(NodeDb(ChainOf(pindexNew.Path()), IndexesOf(env.store[0])))
      modifies `hashBestChain, `pindexBest, `nBestHeight, `bnBestChainWork, `trace
      ensures Valid() && pindexBest == pindexNew && trace == run
    {
      hide Tree, BlockIndex.Path, Records, Play, Next, ChainOf;
      hashBestChain := pindexNew.Hash();
      pindexBest := pindexNew;
      nBestHeight := pindexNew.nHeight;
      bnBestChainWork := pindexNew.bnChainWork;
      trace := run;
    }

    /** The branch of SetBestChain for the genesis block. */
    method StartChain(db: DatabaseSet, pindexNew: BlockIndex)
      requires Begun(db) && pindexBest == null && InTree(mapBlockIndex, pindexNew)
               && pindexNew.Hash() == hashGenesisBlock
      modifies db.Frame(), `pindexGenesisBlock
      ensures db.Valid() && env.store == [old(env.store)[0].(hashBestChain := Some(pindexNew.Hash()))]
      ensures Linked(mapBlockIndex, pindexNew.Path()) && env.store[0].blocks == Records(mapBlockIndex, pindexNew.Path())
      ensures pindexGenesisBlock == pindexNew && pindexNew.Path() == [pindexNew]
      ensures Play(pindexNew.Stored(), testnet, []) == Ok(NodeDb(ChainOf(pindexNew.Path()), IndexesOf(env.store[0])))
    {
      hide BlockIndex.Path, DatabaseSet.Valid, Tree, InTree, Records, Linked, OnDisk, Memory, Play, ChainOf, EMPTY,
           BlockIndex.Stored;
      NothingLinkedYet(db, pindexNew);
      ghost var d := env.store[0];
      db.WriteHashBestChain(pindexNew.Hash());
      assert env.store == [d, d.(hashBestChain := Some(pindexNew.Hash()))];
      var _ := db.TxnCommit();
      assert env.store == [d.(hashBestChain := Some(pindexNew.Hash()))];
      pindexGenesisBlock := pindexNew;
    }

    lemma NothingLinkedYet(db: DatabaseSet, b: BlockIndex)
      requires Begun(db) && pindexBest == null && InTree(mapBlockIndex, b) && b.Hash() == hashGenesisBlock
      ensures b.Path() == [b] && Linked(mapBlockIndex, b.Path())
      ensures env.store[0].blocks == Records(mapBlockIndex, b.Path())
      ensures Play(b.Stored(), testnet, []) == Ok(NodeDb(ChainOf(b.Path()), IndexesOf(env.store[0])))
    {
      hide Play, Next, Tree, BlockIndex.Rooted;
      GenesisPath(mapBlockIndex, hashGenesisBlock, b);
      PlayGenesis(b, testnet);
      hide BlockIndex.Path, InTree, Records, ChainOf;
    }

    lemma RunToBest(e: Env, pindexNew: BlockIndex)
      requires Valid() && pindexBest != null && InTree(mapBlockIndex, pindexNew)
      ensures pindexNew.Path()[0] == pindexBest.Path()[0] == pindexGenesisBlock
      ensures Play(pindexNew.Path()[0].Stored(), testnet, trace + SwitchTo(pindexBest, pindexNew, e, nBestHeight))
                == SwitchFrom(env.store[0], e, pindexNew)
    {
      SameRoot(mapBlockIndex, hashGenesisBlock, pindexBest, pindexNew);
      hide Tree, InTree, BlockIndex.Path, Records, Next, ChainOf, PlayFrom, Play, SwitchTo;
      PlayContinues(pindexBest.Path()[0].Stored(), testnet, trace, SwitchTo(pindexBest, pindexNew, e, nBestHeight));
    }

    /** The branch of SetBestChain for a node with a main chain. */
    method SwitchBest(db: DatabaseSet, e: Env, pindexNew: BlockIndex) returns (ok: bool)
      requires env.store != [] && pindexBest != null
      requires Begun(db) && InTree(mapBlockIndex, pindexNew) && pindexNew.Path()[0] == pindexGenesisBlock
      requires Play(pindexNew.Path()[0].Stored(), testnet, trace + SwitchTo(pindexBest, pindexNew, e, nBestHeight))
                 == SwitchFrom(env.store[0], e, pindexNew)
      modifies this, db.Frame(), mapBlockIndex.Values
      ensures Valid() && db.Valid() && mapBlockIndex == old(mapBlockIndex)
      ensures ok == old(SwitchFrom(env.store[0], e, pindexNew)).Ok?
      ensures ok ==>
        && pindexBest == pindexNew && bnBestInvalidWork == old(bnBestInvalidWork)
        && NodeDb(ChainOf(pindexNew.Path()), IndexesOf(env.store[0]))
             == old(SwitchFrom(env.store[0], e, pindexNew)).value
        && trace == old(trace + SwitchTo(pindexBest, pindexNew, e, nBestHeight))
      ensures !ok ==>
        && pindexBest == old(pindexBest) && trace == old(trace)
        && (forall h :: h in mapBlockIndex ==> mapBlockIndex[h].pnext == old(mapBlockIndex[h].pnext))
        && env.store == [old(env.store)[0].(bestInvalidWork := bnBestInvalidWork)]
    {
      hide Tree, InTree, BlockIndex.Path, BlockIndex.Rooted, DatabaseSet.Valid, Records, Next, ChainOf, PlayFrom, Play,
           SwitchTo, IndexesOf;
      ghost var run := trace + SwitchTo(pindexBest, pindexNew, e, nBestHeight);
      ok := MoveBest(db, e, pindexNew);
      if ok {
        NewBest(pindexNew, run);
      } else {
        InvalidChainFound(db, pindexNew);
      }
    }

    /** SetBestChain, all or nothing: it succeeds exactly when every disconnection and every
        connection on the way to the new branch does; otherwise the databases (but for the
        record of invalid work), the links and the best block stay as they were. */
    method SetBestChain(db: DatabaseSet, e: Env, pindexNew: BlockIndex) returns (ok: bool)
      requires Valid() && db.Valid() && db.env == env && InTree(mapBlockIndex, pindexNew)
      requires pindexBest == null ==> pindexNew.Hash() == hashGenesisBlock
      modifies this, db.Frame(), mapBlockIndex.Values
      ensures Valid() && db.Valid() && mapBlockIndex == old(mapBlockIndex)
      ensures ok == (old(pindexBest) == null || old(SwitchFrom(env.store[0], e, pindexNew)).Ok?)
      ensures ok ==> pindexBest == pindexNew && bnBestInvalidWork == old(bnBestInvalidWork)
      ensures ok && old(pindexBest) != null ==>
        && NodeDb(ChainOf(pindexNew.Path()), IndexesOf(env.store[0]))
             == old(SwitchFrom(env.store[0], e, pindexNew)).value
        && trace == old(trace + SwitchTo(pindexBest, pindexNew, e, nBestHeight))
      ensures !ok ==>
        && pindexBest == old(pindexBest) && trace == old(trace)
        && (forall h :: h in mapBlockIndex ==> mapBlockIndex[h].pnext == old(mapBlockIndex[h].pnext))
        && env.store == [old(env.store)[0].(bestInvalidWork := bnBestInvalidWork)]
    {
      hide Tree, InTree, BlockIndex.Path, BlockIndex.Rooted, DatabaseSet.Valid, Records, Next, ChainOf, PlayFrom, Play,
           SwitchTo, IndexesOf;
      var hash := pindexNew.Hash();
      if pindexBest != null {
        RunToBest(e, pindexNew);
      }
      db.TxnBegin();
      if pindexGenesisBlock == null && hash == hashGenesisBlock {
        StartChain(db, pindexNew);
        NewBest(pindexNew, []);
        ok := true;
        return;
      }
      ok := SwitchBest(db, e, pindexNew);
    }

    /** The block joins the tree in memory. */
    method InsertInMemory(nFile: nat, nBlockPos: nat, block: Block) returns (pindexNew: BlockIndex)
      requires Memory() && block.hash != 0 && block.hash !in mapBlockIndex
      requires if block.hashPrev in mapBlockIndex then true else block.hash == hashGenesisBlock && block.hashPrev == 0
      modifies `mapBlockIndex
      ensures Memory() && fresh(pindexNew)
      ensures mapBlockIndex == old(mapBlockIndex)[block.hash := pindexNew]
      ensures pindexNew.Stored() == StoredBlock(nFile, nBlockPos, block) && pindexNew.pnext == null
              && pindexNew.Rooted()
      ensures HashOf(pindexNew.pprev) == block.hashPrev
      ensures Records(mapBlockIndex, BestPath())
                == Records(old(mapBlockIndex), BestPath())[block.hash := Record(pindexNew, 0)]
    {
      hide Records, Record, ChainOf, Next, BlockIndex.Path, BlockIndex.Rooted;
      var pprev: BlockIndex? := null;
      if block.hashPrev in mapBlockIndex {
        pprev := mapBlockIndex[block.hashPrev];
      }
      pindexNew := new BlockIndex(nFile, nBlockPos, block, pprev);
      TreeGrows(mapBlockIndex, hashGenesisBlock, pindexNew);
      NewBlockUnlinked(mapBlockIndex, hashGenesisBlock, pindexBest, pindexNew);
      hide Tree;
      mapBlockIndex := mapBlockIndex[block.hash := pindexNew];
    }

    /** The first half of AddToBlockIndex: the block joins the tree, in memory and on disk. */
    method Insert(db: DatabaseSet, nFile: nat, nBlockPos: nat, block: Block) returns (pindexNew: BlockIndex)
      requires Valid() && db.Valid() && db.env == env && block.hash != 0 && block.hash !in mapBlockIndex
      requires if block.hashPrev in mapBlockIndex then true else block.hash == hashGenesisBlock && block.hashPrev == 0
      modifies `mapBlockIndex, db.Frame()
      ensures Valid() && db.Valid() && fresh(pindexNew)
      ensures mapBlockIndex == old(mapBlockIndex)[block.hash := pindexNew]
      ensures pindexNew.Stored() == StoredBlock(nFile, nBlockPos, block) && pindexNew.pnext == null
              && pindexNew.Rooted()
      ensures HashOf(pindexNew.pprev) == block.hashPrev
      ensures env.store == [old(env.store)[0].(blocks := old(env.store)[0].blocks[block.hash := Record(pindexNew, 0)])]
    {
      hide Memory, Tree, Linked, Records, Record, ChainOf, Play, Next, BlockIndex.Path, BlockIndex.Rooted,
           DatabaseSet.Valid;
      pindexNew := InsertInMemory(nFile, nBlockPos, block);
      WriteRecord(db, block.hash, Record(pindexNew, HashOf(pindexNew.pnext)));
    }

    /** The run from the best chain to a branch, on given indexes. */
    ghost function SwitchRun(best: BlockIndex, s: Indexes, e: Env, nBest: int, target: BlockIndex): Outcome<NodeDb> {
      PlayFrom(testnet, NodeDb(ChainOf(best.Path()), s), SwitchTo(best, target, e, nBest))
    }

    lemma SameRun(d: DbData, e: Env, target: BlockIndex)
      requires pindexBest != null
      ensures SwitchFrom(d, e, target) == SwitchRun(pindexBest, IndexesOf(d), e, nBestHeight, target)
    {
    }

    /** The second half of AddToBlockIndex. */
    method TryAsBest(db: DatabaseSet, e: Env, pindexNew: BlockIndex) returns (ok: bool)
      requires Valid() && db.Valid() && db.env == env && InTree(mapBlockIndex, pindexNew)
      requires pindexBest == null ==> pindexNew.Hash() == hashGenesisBlock
      modifies this, db.Frame(), mapBlockIndex.Values
      ensures Valid() && mapBlockIndex == old(mapBlockIndex)
      ensures bnBestChainWork >= old(bnBestChainWork)
      ensures pindexNew.bnChainWork <= old(bnBestChainWork) ==> ok && pindexBest == old(pindexBest)
      ensures pindexNew.bnChainWork > old(bnBestChainWork) ==> pindexBest == if ok then pindexNew else old(pindexBest)
      ensures pindexNew.bnChainWork > old(bnBestChainWork) && old(pindexBest) == null ==> ok
      ensures pindexNew.bnChainWork > old(bnBestChainWork) && old(pindexBest) != null ==>
                var r := SwitchRun(old(pindexBest), old(IndexesOf(env.store[0])), e, old(nBestHeight), pindexNew);
                ok == r.Ok? && (ok ==> IndexesOf(env.store[0]) == r.value.s)
      ensures pindexBest == old(pindexBest) ==>
                IndexesOf(env.store[0]) == old(IndexesOf(env.store[0])) && trace == old(trace)
    {
      hide Tree, Records, ChainOf, Play, BlockIndex.Path, DatabaseSet.Valid, Linked, OnDisk, SwitchFrom, SwitchRun,
           InTree;
      ok := true;
      if pindexBest != null {
        SameRun(env.store[0], e, pindexNew);
      }
      if pindexNew.bnChainWork > bnBestChainWork {
        ok := SetBestChain(db, e, pindexNew);
      }
    }

    /** AddToBlockIndex: a new block with more work becomes the best block exactly when the run to its
        branch succeeds, and nothing else changes the best chain; a branch that is no longer and whose
        targets above the fork are nowhere lower never does. */
    method AddToBlockIndex(e: Env, nFile: nat, nBlockPos: nat, block: Block) returns (ok: bool)
      requires Valid() && block.hash != 0
      requires block.hash in mapBlockIndex
            || (if pindexBest == null then block.hash == hashGenesisBlock && block.hashPrev == 0
                else block.hashPrev in mapBlockIndex)
      modifies this, env, mapBlockIndex.Values
      ensures Valid()
      ensures bnBestChainWork >= old(bnBestChainWork)
      ensures block.hash in old(mapBlockIndex) ==>
                !ok && mapBlockIndex == old(mapBlockIndex) && env.store == old(env.store)
      ensures block.hash !in old(mapBlockIndex) ==>
        && block.hash in mapBlockIndex && mapBlockIndex == old(mapBlockIndex)[block.hash := mapBlockIndex[block.hash]]
        && mapBlockIndex[block.hash].Stored() == StoredBlock(nFile, nBlockPos, block)
        && (mapBlockIndex[block.hash].bnChainWork <= old(bnBestChainWork) ==> ok && pindexBest == old(pindexBest))
        && (mapBlockIndex[block.hash].bnChainWork > old(bnBestChainWork) ==>
              pindexBest == if ok then mapBlockIndex[block.hash] else old(pindexBest))
        && (mapBlockIndex[block.hash].bnChainWork > old(bnBestChainWork) && old(pindexBest) != null ==>
              var r := SwitchRun(old(pindexBest), old(IndexesOf(env.store[0])), e, old(nBestHeight),
                                 mapBlockIndex[block.hash]);
              ok == r.Ok? && (ok ==> IndexesOf(env.store[0]) == r.value.s))
        && (old(pindexBest) != null && NowhereHarder(mapBlockIndex[block.hash], old(pindexBest)) ==>
              ok && pindexBest == old(pindexBest))
      ensures pindexBest == old(pindexBest) ==>
                IndexesOf(env.store[0]) == old(IndexesOf(env.store[0])) && trace == old(trace)
    {
      hide Records, Record, ChainOf, Play, Next, BlockIndex.Path, BlockIndex.Rooted, DatabaseSet.Valid, Linked, Tree,
           Memory, OnDisk, SwitchRun, NowhereHarder;
      if block.hash in mapBlockIndex {
        return false;
      }
      var dbset := new DatabaseSet(env);
      var pindexNew := Insert(dbset, nFile, nBlockPos, block);
      if pindexBest != null {
        BestIsRooted(pindexNew);
      }
      ok := TryAsBest(dbset, e, pindexNew);
    }

    lemma BestIsRooted(b: BlockIndex)
      requires Memory() && b.Rooted() && pindexBest != null
      ensures NowhereHarder(b, pindexBest) ==> b.bnChainWork <= bnBestChainWork
    {
      hide Linked, BlockIndex.Path, NowhereHarder;
      if NowhereHarder(b, pindexBest) {
        NowhereHarderNoMoreWork(b, pindexBest);
      }
    }

    /** AcceptBlock: a block that is known, whose parent is not, or that fails the tests against its
        parent (`fitsParent`) is refused and nothing changes; any other joins the tree. */
    method AcceptBlock(e: Env, nFile: nat, nBlockPos: nat, block: Block, fitsParent: bool) returns (ok: bool)
      requires Valid() && pindexBest != null && block.hash != 0
      modifies this, env, mapBlockIndex.Values
      ensures Valid() && bnBestChainWork >= old(bnBestChainWork)
      ensures !(block.hash !in old(mapBlockIndex) && block.hashPrev in old(mapBlockIndex) && fitsParent) ==>
                !ok && unchanged(this, env, old(mapBlockIndex.Values))
      ensures block.hash !in old(mapBlockIndex) && block.hashPrev in old(mapBlockIndex) && fitsParent ==>
        && block.hash in mapBlockIndex && mapBlockIndex == old(mapBlockIndex)[block.hash := mapBlockIndex[block.hash]]
        && mapBlockIndex[block.hash].Stored() == StoredBlock(nFile, nBlockPos, block)
        && mapBlockIndex[block.hash].pprev == mapBlockIndex[block.hashPrev]
        && (mapBlockIndex[block.hash].bnChainWork <= old(bnBestChainWork) ==> ok && pindexBest == old(pindexBest))
        && (mapBlockIndex[block.hash].bnChainWork > old(bnBestChainWork) ==>
              pindexBest == if ok then mapBlockIndex[block.hash] else old(pindexBest))
        && (mapBlockIndex[block.hash].bnChainWork > old(bnBestChainWork) && old(pindexBest) != null ==>
              var r := SwitchRun(old(pindexBest), old(IndexesOf(env.store[0])), e, old(nBestHeight),
                                 mapBlockIndex[block.hash]);
              ok == r.Ok? && (ok ==> IndexesOf(env.store[0]) == r.value.s))
        && (old(pindexBest) != null && NowhereHarder(mapBlockIndex[block.hash], old(pindexBest)) ==>
              ok && pindexBest == old(pindexBest))
      ensures pindexBest == old(pindexBest) ==>
                IndexesOf(env.store[0]) == old(IndexesOf(env.store[0])) && trace == old(trace)
    {
      hide Records, Record, ChainOf, Play, Next, BlockIndex.Path, BlockIndex.Rooted, DatabaseSet.Valid, Linked, Tree,
           Memory, OnDisk;
      if block.hash in mapBlockIndex {
        return false;
      }
      if block.hashPrev !in mapBlockIndex {
        return false;
      }
      if !fitsParent {
        return false;
      }
      ok := AddToBlockIndex(e, nFile, nBlockPos, block);
      ParentLinked(block.hash);
    }

    lemma ParentLinked(h: Hash)
      requires Valid() && h in mapBlockIndex && mapBlockIndex[h].block.hashPrev in mapBlockIndex
      ensures mapBlockIndex[h].pprev == mapBlockIndex[mapBlockIndex[h].block.hashPrev]
    {
      hide Records, ChainOf, Play, Next, Linked, OnDisk, BlockIndex.Path, BlockIndex.Rooted;
    }

    /** Whatever blocks came and went, the databases are those of the best chain alone. */
    lemma DatabasesFollowBestChain() returns (sites: seq<Site>)
      requires Valid() && pindexBest != null && Regular(pindexBest.Path()[0].Stored(), testnet, trace)
      ensures forall k :: 0 <= k < |sites| ==> sites[k].Valid()
      ensures Build(sites).Ok? && Built(sites, testnet, ChainOf(pindexBest.Path()), Build(sites).value)
      ensures Same(IndexesOf(env.store[0]), Build(sites).value)
    {
      hide Play, Regular, Build, Built, Tree, Records;
      sites := RunIsStraight(pindexBest.Path()[0].Stored(), testnet, trace);
    }
  }
}
