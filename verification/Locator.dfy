/** Block locators: how two nodes find the last block they share (src/main.h). */
module Locator {
  import opened Common
  import opened ChainTypes
  import opened BlockTree
  import opened NodeState

  /** How far back the k-th hash of a locator lies: one step at a time up to 11, then in steps
      that double. */
  function Back(k: nat): (d: nat)
    ensures d >= k && (k <= 11 ==> d == k)
  {
    if k <= 11 then k else 2 * Back(k - 1) - 9
  }

  function StepAt(k: nat): (n: nat)
    ensures n >= 1 && Back(k + 1) == Back(k) + n
  {
    Back(k + 1) - Back(k)
  }

  lemma StepsDouble(k: nat)
    ensures StepAt(0) == 1
    ensures StepAt(k + 1) == if k >= 10 then 2 * StepAt(k) else StepAt(k)
    ensures k >= 10 <==> Back(k + 1) > 10
  {
  }

  /** The hashes a locator takes from a branch, from its k-th on. */
  function HashesFrom(branch: seq<Hash>, k: nat): seq<Hash>
    decreases if Back(k) < |branch| then |branch| - Back(k) else 0
  {
    if Back(k) >= |branch| then []
    else
      assert Back(k + 1) == Back(k) + StepAt(k);
      [branch[|branch| - 1 - Back(k)]] + HashesFrom(branch, k + 1)
  }

  function LocatorOf(branch: seq<Hash>, hashGenesisBlock: Hash): seq<Hash> {
    HashesFrom(branch, 0) + [hashGenesisBlock]
  }

  lemma NextHash(branch: seq<Hash>, k: nat)
    ensures Back(0) == 0 && Back(k + 1) == Back(k) + StepAt(k)
    ensures HashesFrom(branch, k)
              == if Back(k) >= |branch| then [] else [branch[|branch| - 1 - Back(k)]] + HashesFrom(branch, k + 1)
  {
  }

  lemma {:induction false} HashAt(branch: seq<Hash>, k: nat, i: nat)
    requires i < |HashesFrom(branch, k)|
    ensures Back(k + i) < |branch| && HashesFrom(branch, k)[i] == branch[|branch| - 1 - Back(k + i)]
    decreases i
  {
    if i > 0 {
      HashAt(branch, k + 1, i - 1);
    }
  }

  /** From the twelfth hash on the distances are nine more than the powers of two. */
  lemma {:induction false} BackClosed(j: nat)
    ensures Back(11 + j) == 9 + 2 * Pow2(j)
    decreases j
  {
    if j > 0 {
      BackClosed(j - 1);
    }
  }

  /** A locator grows with the logarithm of the branch. */
  lemma LocatorIsShort(branch: seq<Hash>, hashGenesisBlock: Hash, j: nat)
    requires |branch| <= 9 + 2 * Pow2(j)
    ensures |LocatorOf(branch, hashGenesisBlock)| <= 12 + j
  {
    BackClosed(j);
    hide HashesFrom, Back, Pow2;
    if |HashesFrom(branch, 0)| > 11 + j {
      HashAt(branch, 0, 11 + j);
    }
  }

  /** The branch ends between the last hash taken and the next one. */
  lemma {:induction false} HashCount(branch: seq<Hash>, k: nat)
    ensures Back(k + |HashesFrom(branch, k)|) >= |branch|
    decreases if Back(k) < |branch| then |branch| - Back(k) else 0
  {
    if Back(k) < |branch| {
      assert Back(k + 1) == Back(k) + StepAt(k);
      HashCount(branch, k + 1);
    }
  }

  /** The index of the first hash in `main`, or the length of the list. */
  function FirstIn(v: seq<Hash>, main: set<Hash>): (i: nat)
    ensures i <= |v| && (forall j :: 0 <= j < i ==> v[j] !in main) && (i < |v| ==> v[i] in main)
  {
    if v == [] || v[0] in main then 0 else 1 + FirstIn(v[1..], main)
  }

  lemma FirstNext(v: seq<Hash>, main: set<Hash>, k: nat)
    requires k <= |v|
    ensures v[0..] == v
    ensures FirstIn(v[k..], main) == if k == |v| || v[k] in main then 0 else 1 + FirstIn(v[k + 1..], main)
  {
  }

  /** The distance of the matched entry; the appended genesis block lies at the other end. */
  function MatchedBack(branch: seq<Hash>, hashGenesisBlock: Hash, main: set<Hash>): int {
    var k := FirstIn(LocatorOf(branch, hashGenesisBlock), main);
    if k < |HashesFrom(branch, 0)| then Back(k) else |branch| - 1
  }

  /** When the receiver's main chain leaves the sender's branch `f` blocks below its tip, the
      first hash the receiver knows on its main chain is that of a common block, at most 2f
      blocks back or the genesis block, and for f up to 11 exactly the fork. */
  lemma LocatorFindsFork(branch: seq<Hash>, main: set<Hash>, f: nat)
    requires f < |branch| && forall i :: 0 <= i < |branch| ==> (branch[i] in main <==> i < |branch| - f)
    ensures var v, d := LocatorOf(branch, branch[0]), MatchedBack(branch, branch[0], main);
            && FirstIn(v, main) < |v| && f <= d < |branch|
            && v[FirstIn(v, main)] == branch[|branch| - 1 - d]
            && (d <= 2 * f || d == |branch| - 1) && (f <= 11 ==> d == f)
  {
    hide HashesFrom, Back, FirstIn;
    var taken := HashesFrom(branch, 0);
    var v := LocatorOf(branch, branch[0]);
    var k := FirstIn(v, main);
    HashCount(branch, 0);
    assert v[|taken|] == branch[0];
    if k < |taken| {
      HashAt(branch, 0, k);
      assert v[k] == taken[k];
      if k > 0 {
        HashAt(branch, 0, k - 1);
        assert v[k - 1] == taken[k - 1];
        NextBack(k - 1);
      }
    }
    if f <= 11 {
      ForkTaken(branch, main, f);
    }
  }

  lemma NextBack(k: nat)
    ensures Back(k + 1) <= 2 * Back(k) + 1
  {
  }

  lemma ForkTaken(branch: seq<Hash>, main: set<Hash>, f: nat)
    requires f < |branch| && f <= 11 && forall i :: 0 <= i < |branch| ==> (branch[i] in main <==> i < |branch| - f)
    ensures FirstIn(LocatorOf(branch, branch[0]), main) == f && f < |HashesFrom(branch, 0)|
  {
    var taken := HashesFrom(branch, 0);
    HashCount(branch, 0);
    assert |taken| > f;
    var v := LocatorOf(branch, branch[0]);
    HashAt(branch, 0, f);
    assert v[f] == taken[f] && v[f] in main;
    forall j | 0 <= j < f ensures v[j] !in main {
      HashAt(branch, 0, j);
      assert v[j] == taken[j];
    }
  }

  // ----- the class -----

  ghost function Hashes(path: seq<BlockIndex>): (v: seq<Hash>)
    ensures |v| == |path| && forall i :: 0 <= i < |path| ==> v[i] == path[i].Hash()
  {
    seq(|path|, i requires 0 <= i < |path| => path[i].Hash())
  }

  /** The hashes of the main chain of a node. */
  ghost function MainHashes(node: Node): set<Hash>
    reads node, node.mapBlockIndex.Values
  {
    set h | h in node.mapBlockIndex && node.IsInMainChain(node.mapBlockIndex[h])
  }

  class BlockLocator {
    var vHave: seq<Hash>

    constructor ()
      ensures vHave == []
    {
      vHave := [];
    }

    /** CBlockLocator::Set. */
    method Set(tip: BlockIndex, hashGenesisBlock: Hash)
      requires tip.Rooted()
      modifies this
      ensures vHave == LocatorOf(Hashes(tip.Path()), hashGenesisBlock)
    {
      vHave := TakeHashes(tip);
      vHave := vHave + [hashGenesisBlock];
    }

    /** GetDistanceBack. */
    method GetDistanceBack(node: Node) returns (nDistance: int)
      requires node.Valid()
      ensures nDistance == Back(FirstIn(vHave, MainHashes(node)))
    {
      hide Node.Memory, Node.OnDisk, Back, StepAt, FirstIn;
      NextHash([], 0);
      nDistance := 0;
      var nStep := 1;
      StepsDouble(0);
      FirstNext(vHave, MainHashes(node), 0);
      var k := 0;
      while k < |vHave|
        invariant 0 <= k <= |vHave| && nDistance == Back(k) && nStep == StepAt(k)
        invariant k + FirstIn(vHave[k..], MainHashes(node)) == FirstIn(vHave, MainHashes(node))
      {
        var hash := vHave[k];
        FirstNext(vHave, MainHashes(node), k);
        NextHash([], k);
        if hash in node.mapBlockIndex && node.IsInMainChain(node.mapBlockIndex[hash]) {
          return;
        }
        nDistance := nDistance + nStep;
        if nDistance > 10 {
          nStep := nStep * 2;
        }
        StepsDouble(k);
        k := k + 1;
      }
      FirstNext(vHave, MainHashes(node), k);
    }

    /** GetBlockIndex. */
    method GetBlockIndex(node: Node) returns (pindex: BlockIndex?)
      requires node.Valid()
      ensures var k := FirstIn(vHave, MainHashes(node));
              pindex == if k < |vHave| then node.mapBlockIndex[vHave[k]] else node.pindexGenesisBlock
    {
      hide Node.Memory, Node.OnDisk, FirstIn;
      FirstNext(vHave, MainHashes(node), 0);
      var k := 0;
      while k < |vHave|
        invariant 0 <= k <= |vHave|
        invariant k + FirstIn(vHave[k..], MainHashes(node)) == FirstIn(vHave, MainHashes(node))
      {
        var hash := vHave[k];
        FirstNext(vHave, MainHashes(node), k);
        if hash in node.mapBlockIndex && node.IsInMainChain(node.mapBlockIndex[hash]) {
          return node.mapBlockIndex[hash];
        }
        k := k + 1;
      }
      FirstNext(vHave, MainHashes(node), k);
      return node.pindexGenesisBlock;
    }
  }

  lemma OneTaken(taken: seq<Hash>, hash: Hash, rest: seq<Hash>)
    ensures taken + [hash] + rest == taken + ([hash] + rest)
  {
  }

  /** The outer loop of Set. */
  method TakeHashes(tip: BlockIndex) returns (vHave: seq<Hash>)
    requires tip.Rooted()
    ensures vHave == HashesFrom(Hashes(tip.Path()), 0)
  {
    hide BlockIndex.Rooted, BlockIndex.Path, HashesFrom, Back, StepAt;
    ghost var path := tip.Path();
    ghost var branch := Hashes(path);
    PathPrefix(tip, 0);
    NextHash(branch, 0);
    StepsDouble(0);
    vHave := [];
    var nStep := 1;
    var pindex: BlockIndex? := tip;
    while pindex != null
      invariant nStep == StepAt(|vHave|)
      invariant vHave + HashesFrom(branch, |vHave|) == HashesFrom(branch, 0)
      invariant if pindex == null then Back(|vHave|) >= |path|
                else Back(|vHave|) < |path| && pindex == path[|path| - 1 - Back(|vHave|)]
      decreases if pindex == null then 0 else |path| - Back(|vHave|)
    {
      ghost var k := |vHave|;
      NextHash(branch, k);
      StepsDouble(k);
      OneTaken(vHave, pindex.Hash(), HashesFrom(branch, k + 1));
      vHave := vHave + [pindex.Hash()];
      pindex := WalkBack(tip, pindex, |path| - 1 - Back(k), nStep);
      if |vHave| > 10 {
        nStep := nStep * 2;
      }
    }
    NextHash(branch, |vHave|);
  }

  /** The inner loop of Set. */
  method WalkBack(ghost tip: BlockIndex, start: BlockIndex, ghost at: nat, nStep: nat) returns (pindex: BlockIndex?)
    requires tip.Rooted() && at <= tip.nHeight && |tip.Path()| == tip.nHeight + 1 && tip.Path()[at] == start
    ensures if nStep > at then pindex == null else pindex == tip.Path()[at - nStep]
  {
    hide BlockIndex.Rooted, BlockIndex.Path;
    pindex := start;
    var i := 0;
    while pindex != null && i < nStep
      invariant 0 <= i <= nStep
      invariant if i > at then pindex == null else pindex == tip.Path()[at - i]
      decreases nStep - i
    {
      OnPath(tip, at - i);
      pindex := pindex.pprev;
      i := i + 1;
    }
  }
}
