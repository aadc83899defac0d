/** Two nodes that exchange a locator find the last block they share (src/main.h, src/main.cpp). */
module Sync {
  import opened Common
  import opened ChainTypes
  import opened BlockTree
  import opened NodeState
  import opened Locator

  /** Blocks with one hash in both trees have the same parent hash. */
  ghost predicate OneParent(a: Index, b: Index) {
    forall h :: h in a && h in b ==> a[h].block.hashPrev == b[h].block.hashPrev
  }

  /** How many blocks at the end of the branch are not in `main`. */
  ghost function Unshared(branch: seq<Hash>, main: set<Hash>): (f: nat)
    ensures f <= |branch|
  {
    if branch == [] || branch[|branch| - 1] in main then 0 else 1 + Unshared(branch[..|branch| - 1], main)
  }

  lemma {:induction false} UnsharedExact(branch: seq<Hash>, main: set<Hash>)
    requires branch != [] && branch[0] in main
    requires forall i :: 0 < i < |branch| && branch[i] in main ==> branch[i - 1] in main
    ensures Unshared(branch, main) < |branch|
    ensures forall i :: 0 <= i < |branch| ==> (branch[i] in main <==> i < |branch| - Unshared(branch, main))
    decreases |branch|
  {
    if branch[|branch| - 1] in main {
      AllShared(branch, main, |branch| - 1);
    } else {
      UnsharedExact(branch[..|branch| - 1], main);
      forall i | 0 <= i < |branch| ensures branch[i] in main <==> i < |branch| - Unshared(branch, main) {
        if i < |branch| - 1 {
          assert branch[..|branch| - 1][i] == branch[i];
        }
      }
    }
  }

  lemma {:induction false} AllShared(branch: seq<Hash>, main: set<Hash>, n: nat)
    requires n < |branch| && branch[n] in main
    requires forall i :: 0 < i < |branch| && branch[i] in main ==> branch[i - 1] in main
    ensures forall i :: 0 <= i <= n ==> branch[i] in main
  {
    if n > 0 {
      AllShared(branch, main, n - 1);
    }
  }

  /** The parent of a block on the main chain is on it, too. */
  lemma ParentOnMain(node: Node, b: BlockIndex)
    requires node.Valid() && InTree(node.mapBlockIndex, b) && node.IsInMainChain(b) && b.pprev != null
    ensures InTree(node.mapBlockIndex, b.pprev) && node.IsInMainChain(b.pprev)
    ensures b.block.hashPrev == b.pprev.Hash() && b.pprev.Hash() in MainHashes(node)
  {
    hide Node.OnDisk;
    node.MainChainIsBestPath(b);
    var path := node.BestPath();
    var i: nat :| i < |path| && path[i] == b;
    PathInTree(node.mapBlockIndex, node.hashGenesisBlock, node.pindexBest, 0);
    OnPath(node.pindexBest, i);
    assert i > 0 && path[i - 1] == b.pprev;
    node.MainChainIsBestPath(b.pprev);
  }

  /** The receiver's main chain holds with every block of the sender's branch all below it. */
  lemma SharedBelow(sender: Node, tip: BlockIndex, receiver: Node, i: nat)
    requires sender.Valid() && InTree(sender.mapBlockIndex, tip) && receiver.Valid() && 0 < i <= tip.nHeight
    requires OneParent(sender.mapBlockIndex, receiver.mapBlockIndex)
    requires tip.Rooted() && |tip.Path()| == tip.nHeight + 1 && tip.Path()[i].Hash() in MainHashes(receiver)
    ensures tip.Path()[i - 1].Hash() in MainHashes(receiver)
  {
    hide Node.OnDisk, BlockIndex.Rooted, BlockIndex.Path, Linked;
    PathInTree(sender.mapBlockIndex, sender.hashGenesisBlock, tip, i);
    PathInTree(sender.mapBlockIndex, sender.hashGenesisBlock, tip, i - 1);
    OnPath(tip, i);
    var a := tip.Path()[i];
    var b := receiver.mapBlockIndex[a.Hash()];
    assert a.block.hashPrev == a.pprev.Hash() != 0;
    assert b.block.hashPrev == HashOf(b.pprev);
    ParentOnMain(receiver, b);
  }

  lemma GenesisShared(sender: Node, tip: BlockIndex, receiver: Node)
    requires sender.Valid() && InTree(sender.mapBlockIndex, tip) && receiver.Valid() && receiver.pindexBest != null
    requires receiver.hashGenesisBlock == sender.hashGenesisBlock
    ensures tip.Rooted() && |tip.Path()| == tip.nHeight + 1 && tip.Path()[0].Hash() == sender.hashGenesisBlock
    ensures sender.hashGenesisBlock in MainHashes(receiver)
  {
    hide Node.OnDisk;
    PathInTree(sender.mapBlockIndex, sender.hashGenesisBlock, tip, 0);
    PathInTree(receiver.mapBlockIndex, receiver.hashGenesisBlock, receiver.pindexBest, 0);
    var b := receiver.pindexBest.Path()[0];
    receiver.MainChainIsBestPath(b);
  }

  /** The last `f` blocks of the sender's branch are those that the receiver does not have on its
      main chain. */
  ghost predicate LeavesAt(tip: BlockIndex, receiver: Node, f: nat)
    reads receiver, receiver.mapBlockIndex.Values
  {
    && |tip.Path()| == tip.nHeight + 1 && f <= tip.nHeight
    && forall i :: 0 <= i <= tip.nHeight ==> (tip.Path()[i].Hash() in MainHashes(receiver) <==> i <= tip.nHeight - f)
  }

  lemma LeavesSomewhere(sender: Node, tip: BlockIndex, receiver: Node) returns (f: nat)
    requires sender.Valid() && InTree(sender.mapBlockIndex, tip) && receiver.Valid() && receiver.pindexBest != null
    requires receiver.hashGenesisBlock == sender.hashGenesisBlock
             && OneParent(sender.mapBlockIndex, receiver.mapBlockIndex)
    ensures LeavesAt(tip, receiver, f)
    ensures var branch := Hashes(tip.Path());
            f < |branch| && forall i :: 0 <= i < |branch| ==> (branch[i] in MainHashes(receiver) <==> i < |branch| - f)
  {
    hide Node.Memory, Node.OnDisk, BlockIndex.Rooted, BlockIndex.Path, MainHashes, OneParent;
    GenesisShared(sender, tip, receiver);
    var branch, main := Hashes(tip.Path()), MainHashes(receiver);
    forall i | 0 < i < |branch| && branch[i] in main ensures branch[i - 1] in main {
      SharedBelow(sender, tip, receiver, i);
    }
    UnsharedExact(branch, main);
    f := Unshared(branch, main);
  }

  /** What the receiver of a locator learns (the start of its answer to getblocks): the block it
      names is a common one, `d` below the sender's tip, which is at most twice as far back as the
      fork, or the genesis block, and exactly the fork when that is at most 11 back; the distance
      it computes is `d`, unless only the appended genesis block matched. */
  method Meet(sender: Node, tip: BlockIndex, receiver: Node)
    returns (pindex: BlockIndex?, nDistance: int, ghost f: nat, ghost d: nat)
    requires sender.Valid() && InTree(sender.mapBlockIndex, tip) && receiver.Valid() && receiver.pindexBest != null
    requires receiver.hashGenesisBlock == sender.hashGenesisBlock
             && OneParent(sender.mapBlockIndex, receiver.mapBlockIndex)
    ensures LeavesAt(tip, receiver, f) && f <= d <= tip.nHeight
    ensures (d <= 2 * f || d == tip.nHeight) && (f <= 11 ==> d == f)
    ensures pindex != null && InTree(receiver.mapBlockIndex, pindex) && receiver.IsInMainChain(pindex)
    ensures pindex.Hash() == tip.Path()[tip.nHeight - d].Hash()
    ensures nDistance == d || (d == tip.nHeight && nDistance > d)
  {
    hide Node.Memory, Node.OnDisk, BlockIndex.Path, BlockIndex.Rooted, OneParent, Back, FirstIn, HashesFrom, Tree,
         LeavesAt, MainHashes, Linked;
    f := LeavesSomewhere(sender, tip, receiver);
    GenesisShared(sender, tip, receiver);
    ghost var branch, main := Hashes(tip.Path()), MainHashes(receiver);
    LocatorFindsFork(branch, main, f);
    d := MatchedBack(branch, branch[0], main);
    HashCount(branch, 0);
    var locator := new BlockLocator();
    locator.Set(tip, sender.hashGenesisBlock);
    pindex := locator.GetBlockIndex(receiver);
    nDistance := locator.GetDistanceBack(receiver);
    ghost var k := FirstIn(locator.vHave, main);
    assert locator.vHave[k] in main;
    MainInTree(receiver, locator.vHave[k]);
  }

  /** A hash of the main chain is that of its block in the tree. */
  lemma MainInTree(node: Node, h: Hash)
    requires node.Valid() && h in MainHashes(node)
    ensures h in node.mapBlockIndex && InTree(node.mapBlockIndex, node.mapBlockIndex[h])
            && node.mapBlockIndex[h].Hash() == h
    ensures node.IsInMainChain(node.mapBlockIndex[h])
  {
    hide Node.OnDisk;
  }
}
