/** The block tree and the switch from one branch to another (src/main.cpp, src/main.h). */
module BlockTree {
  import opened Common
  import opened ChainTypes
  import opened Connect
  import opened ChainRun
  import opened TxDb
  import opened ChainDb
  import Compact

  /** CBlockIndex.  Everything but `pnext` is fixed once the block is in the tree; `block` is
      what reading the block back from (nFile, nBlockPos) returns. */
  class BlockIndex {
    const pprev: BlockIndex?
    const nFile: nat
    const nBlockPos: nat
    const nHeight: nat
    const bnChainWork: nat
    const block: Block
    var pnext: BlockIndex?

    /** The blocks below this one, genesis first. */
    ghost const below: seq<BlockIndex>

    constructor (nFile: nat, nBlockPos: nat, block: Block, pprev: BlockIndex?)
      requires pprev != null ==> pprev.Rooted()
      ensures this.nFile == nFile && this.nBlockPos == nBlockPos && this.block == block && this.pprev == pprev
      ensures Rooted() && pnext == null
    {
      this.nFile, this.nBlockPos, this.block := nFile, nBlockPos, block;
      this.pprev, this.pnext := pprev, null;
      nHeight := if pprev == null then 0 else pprev.nHeight + 1;
      bnChainWork := (if pprev == null then 0 else pprev.bnChainWork) + Compact.BlockWork(block.nBits);
      below := if pprev == null then [] else pprev.below + [pprev];
    }

    /** Links, height and work are those of a path that starts at a block without a parent. */
    ghost predicate Rooted()
      decreases |below|
    {
      && nHeight == |below|
      && if pprev == null then below == [] && bnChainWork == Compact.BlockWork(block.nBits)
         else && below == pprev.below + [pprev] && pprev.Rooted()
              && bnChainWork == pprev.bnChainWork + Compact.BlockWork(block.nBits)
    }

    function Hash(): Hash {
      block.hash
    }

    function Stored(): StoredBlock {
      StoredBlock(nFile, nBlockPos, block)
    }

    ghost function Path(): (p: seq<BlockIndex>)
      ensures p != [] && p[|p| - 1] == this
    {
      below + [this]
    }

    /** The branch the code reaches from here by following `pprev`. */
    function Branch(): (c: Chain)
      requires Rooted()
      ensures c == ChainOf(Path()) && |c| == nHeight + 1
      decreases nHeight
    {
      if pprev == null then [Stored()] else pprev.Branch() + [Stored()]
    }
  }

  ghost function ChainOf(path: seq<BlockIndex>): (c: Chain)
    ensures |c| == |path| && forall i :: 0 <= i < |path| ==> c[i] == path[i].Stored()
  {
    seq(|path|, i requires 0 <= i < |path| => path[i].Stored())
  }

  /** The path to any block of a path is a prefix of that path. */
  lemma {:induction false} PathPrefix(b: BlockIndex, i: nat)
    requires b.Rooted() && i <= b.nHeight
    ensures |b.Path()| == b.nHeight + 1
    ensures var a := b.Path()[i]; a.Rooted() && a.nHeight == i && a.Path() == b.Path()[..i + 1]
    decreases b.nHeight
  {
    if i < b.nHeight {
      PathPrefix(b.pprev, i);
      assert b.Path()[i] == b.pprev.Path()[i];
      assert b.Path()[..i + 1] == b.pprev.Path()[..i + 1];
    }
  }

  /** Number of leading blocks two paths share. */
  ghost function SharedLength(a: seq<BlockIndex>, b: seq<BlockIndex>): (n: nat)
    ensures n <= |a| && n <= |b| && a[..n] == b[..n]
    ensures n < |a| && n < |b| ==> a[n] != b[n]
  {
    if a == [] || b == [] || a[0] != b[0] then 0
    else
      var n := 1 + SharedLength(a[1..], b[1..]);
      assert a[..n] == [a[0]] + a[1..][..n - 1] && b[..n] == [b[0]] + b[1..][..n - 1];
      n
  }

  lemma PrefixAt<T>(a: seq<T>, b: seq<T>, n: nat, i: nat)
    requires n <= |a| && n <= |b| && a[..n] == b[..n] && i < n
    ensures a[i] == b[i]
  {
    assert a[i] == a[..n][i];
  }

  /** Shared blocks are exactly the leading ones, because a block determines the path to it. */
  lemma SharedAreLeading(a: BlockIndex, b: BlockIndex, i: nat, j: nat)
    requires a.Rooted() && b.Rooted() && i <= a.nHeight && j <= b.nHeight
    ensures |a.Path()| == a.nHeight + 1 && |b.Path()| == b.nHeight + 1
    ensures a.Path()[i] == b.Path()[j] <==> i == j && i < SharedLength(a.Path(), b.Path())
  {
    PathPrefix(a, i);
    PathPrefix(b, j);
    var p, q := a.Path(), b.Path();
    hide BlockIndex.Rooted;
    var n := SharedLength(p, q);
    if p[i] == q[j] {
      assert p[..i + 1] == q[..i + 1];
      if n <= i {
        PrefixAt(p, q, i + 1, n);
        assert false;
      }
    } else if i == j && i < n {
      PrefixAt(p, q, n, i);
      assert false;
    }
  }

  /** A block of a path, and the one before it. */
  lemma OnPath(b: BlockIndex, i: nat)
    requires b.Rooted() && i <= b.nHeight
    ensures |b.Path()| == b.nHeight + 1
    ensures var a := b.Path()[i];
            && a.Rooted() && a.nHeight == i
            && (if i == 0 then a.pprev == null else a.pprev == b.Path()[i - 1])
  {
    PathPrefix(b, i);
    if i > 0 {
      PathPrefix(b, i - 1);
      var a := b.Path()[i];
      assert a.Path()[i - 1] == b.Path()[i - 1];
    }
  }

  // ----- which branch has more work -----

  ghost function Target(b: BlockIndex): int {
    Compact.SetCompact(b.block.nBits)
  }

  /** `a` is at most as high as `b`, and above their last common block no target on the branch of `a`
      is lower than the one at its height on the branch of `b`. */
  ghost predicate NowhereHarder(a: BlockIndex, b: BlockIndex) {
    && |a.Path()| <= |b.Path()|
    && forall i :: SharedLength(a.Path(), b.Path()) <= i < |a.Path()| ==> 0 < Target(b.Path()[i]) <= Target(a.Path()[i])
  }

  /** The work of a path, and of the path to one of its blocks. */
  lemma WorkGrows(b: BlockIndex, i: nat)
    requires b.Rooted() && i <= b.nHeight
    ensures |b.Path()| == b.nHeight + 1
    ensures var a := b.Path()[i];
            && (i == 0 ==> a.bnChainWork == Compact.BlockWork(a.block.nBits))
            && (i > 0 ==> a.bnChainWork == b.Path()[i - 1].bnChainWork + Compact.BlockWork(a.block.nBits))
  {
    hide BlockIndex.Path;
    OnPath(b, i);
    if i > 0 {
      OnPath(b, i - 1);
    }
  }

  lemma {:induction false} HigherHasMoreWork(b: BlockIndex, i: nat, j: nat)
    requires b.Rooted() && i <= j <= b.nHeight
    ensures |b.Path()| == b.nHeight + 1 && b.Path()[i].bnChainWork <= b.Path()[j].bnChainWork
    decreases j
  {
    hide BlockIndex.Rooted, BlockIndex.Path, Compact.BlockWork;
    OnPath(b, i);
    if i < j {
      HigherHasMoreWork(b, i, j - 1);
      WorkGrows(b, j);
    }
  }

  /** Up to any height, a branch whose targets are nowhere lower has no more work. */
  lemma {:induction false} NoMoreWorkAt(a: BlockIndex, b: BlockIndex, i: nat)
    requires a.Rooted() && b.Rooted() && NowhereHarder(a, b) && i <= a.nHeight
    ensures |a.Path()| == a.nHeight + 1 && |b.Path()| == b.nHeight + 1 && i <= b.nHeight
    ensures a.Path()[i].bnChainWork <= b.Path()[i].bnChainWork
    decreases i
  {
    hide BlockIndex.Rooted, Compact.BlockWork, Compact.SetCompact;
    OnPath(a, a.nHeight);
    OnPath(b, b.nHeight);
    WorkGrows(a, i);
    WorkGrows(b, i);
    hide BlockIndex.Path;
    if i < SharedLength(a.Path(), b.Path()) {
      PrefixAt(a.Path(), b.Path(), SharedLength(a.Path(), b.Path()), i);
    } else {
      Compact.LowerTargetMoreWork(b.Path()[i].block.nBits, a.Path()[i].block.nBits);
      if i > 0 {
        NoMoreWorkAt(a, b, i - 1);
      }
    }
  }

  /** A branch that is no longer, and whose targets above the fork are nowhere lower, has no more
      work. */
  lemma NowhereHarderNoMoreWork(a: BlockIndex, b: BlockIndex)
    requires a.Rooted() && b.Rooted() && NowhereHarder(a, b)
    ensures a.bnChainWork <= b.bnChainWork
  {
    NoMoreWorkAt(a, b, a.nHeight);
    HigherHasMoreWork(b, a.nHeight, b.nHeight);
  }

  /** Of two blocks on one parent, the one with half the target has strictly more work. */
  lemma EasierSiblingLessWork(a: BlockIndex, b: BlockIndex)
    requires a.Rooted() && b.Rooted() && a.pprev == b.pprev
    requires 0 < Target(b) && 2 * (Target(b) + 1) <= Target(a) + 1 <= Pow256(32)
    ensures a.bnChainWork < b.bnChainWork
  {
    hide Compact.BlockWork, Compact.SetCompact, Pow256;
    Compact.HalfTargetTwiceWork(b.block.nBits, a.block.nBits);
  }

  /** The first loop of Reorganize: walks both branches down to their last common block. */
  method FindFork(best: BlockIndex, target: BlockIndex) returns (ok: bool, pfork: BlockIndex)
    requires best.Rooted() && target.Rooted() && best.Path()[0] == target.Path()[0]
    ensures ok && pfork.Rooted()
    ensures pfork.Path() == best.Path()[..SharedLength(best.Path(), target.Path())]
    ensures pfork.nHeight + 1 == SharedLength(best.Path(), target.Path())
    ensures |best.Path()| == best.nHeight + 1 && |target.Path()| == target.nHeight + 1
    ensures best.Path()[pfork.nHeight] == pfork && target.Path()[pfork.nHeight] == pfork
  {
    hide BlockIndex.Rooted, BlockIndex.Path;
    ghost var n := SharedLength(best.Path(), target.Path());
    OnPath(best, best.nHeight);
    OnPath(target, target.nHeight);
    pfork := best;
    var plonger: BlockIndex := target;
    while pfork != plonger
      invariant n - 1 <= pfork.nHeight <= best.nHeight && n - 1 <= plonger.nHeight <= target.nHeight
      invariant pfork == best.Path()[pfork.nHeight] && plonger == target.Path()[plonger.nHeight]
      decreases pfork.nHeight + plonger.nHeight
    {
      while plonger.nHeight > pfork.nHeight
        invariant n - 1 <= plonger.nHeight <= target.nHeight
        invariant plonger == target.Path()[plonger.nHeight]
        decreases plonger.nHeight
      {
        OnPath(target, plonger.nHeight);
        if plonger.pprev == null {
          return false, pfork;
        }
        OnPath(target, plonger.nHeight - 1);
        plonger := plonger.pprev;
      }
      if pfork == plonger {
        break;
      }
      SharedAreLeading(best, target, pfork.nHeight, plonger.nHeight);
      OnPath(best, pfork.nHeight);
      if pfork.pprev == null {
        return false, pfork;
      }
      OnPath(best, pfork.nHeight - 1);
      pfork := pfork.pprev;
    }
    SharedAreLeading(best, target, pfork.nHeight, plonger.nHeight);
    PathPrefix(best, pfork.nHeight);
    ok := true;
  }
}
