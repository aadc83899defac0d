/** Merkle trees in a flat array (src/main.h).  `H` is the hash of two concatenated hashes. */
module Merkle {
  import opened Common
  import opened ChainTypes
  import opened Connect

  type PairHash = (Hash, Hash) -> Hash

  function Min(a: int, b: int): int {
    if a <= b then a else b
  }

  /** The level above `s`; the last hash of an odd level is paired with itself. */
  function Parents(H: PairHash, s: seq<Hash>): (p: seq<Hash>)
    ensures |p| == (|s| + 1) / 2
  {
    seq((|s| + 1) / 2, k requires 0 <= k < (|s| + 1) / 2 => H(s[2 * k], s[Min(2 * k + 1, |s| - 1)]))
  }

  /** The root of the tree over the given leaves. */
  function Root(H: PairHash, s: seq<Hash>): Hash
    requires s != []
    decreases |s|
  {
    if |s| == 1 then s[0] else Root(H, Parents(H, s))
  }

  /** All levels one after the other, leaves first. */
  function Flat(H: PairHash, s: seq<Hash>): (f: seq<Hash>)
    ensures s <= f && (s != [] ==> f != [] && f[|f| - 1] == Root(H, s))
    decreases |s|
  {
    if |s| <= 1 then s else s + Flat(H, Parents(H, s))
  }

  lemma NextParent(H: PairHash, s: seq<Hash>, k: nat)
    requires 2 * k < |s|
    ensures Parents(H, s)[..k] + [H(s[2 * k], s[Min(2 * k + 1, |s| - 1)])] == Parents(H, s)[..k + 1]
  {
  }

  /** The inner loop of BuildMerkleTree: appends the parents of the last `nSize` hashes. */
  method AppendParents(H: PairHash, lower: seq<Hash>, j: nat, nSize: nat) returns (vMerkleTree: seq<Hash>)
    requires j + nSize == |lower|
    ensures vMerkleTree == lower + Parents(H, lower[j..])
  {
    hide Parents;
    ghost var level := lower[j..];
    vMerkleTree := lower;
    var i := 0;
    while i < nSize
      invariant 0 <= i <= nSize + 1 && i % 2 == 0
      invariant vMerkleTree == lower + Parents(H, level)[..i / 2]
    {
      var i2 := Min(i + 1, nSize - 1);
      NextParent(H, level, i / 2);
      vMerkleTree := vMerkleTree + [H(vMerkleTree[j + i], vMerkleTree[j + i2])];
      i := i + 2;
    }
    assert Parents(H, level)[..i / 2] == Parents(H, level);
  }

  lemma FlatOfShort(H: PairHash, s: seq<Hash>)
    requires |s| <= 1
    ensures Flat(H, s) == s
  {
  }

  /** The lower levels `tree[..j]` are done, and the level on top of them is `tree[j..]`. */
  ghost predicate Rising(H: PairHash, txids: seq<Hash>, tree: seq<Hash>, j: nat) {
    j <= |tree| && tree[..j] + Flat(H, tree[j..]) == Flat(H, txids)
  }

  lemma RisingStarts(H: PairHash, txids: seq<Hash>)
    ensures Rising(H, txids, txids, 0)
  {
    hide Flat;
    assert txids[..0] == [] && txids[0..] == txids;
  }

  /** Building one more level leaves what is still to be built. */
  lemma RisingStep(H: PairHash, txids: seq<Hash>, lower: seq<Hash>, j: nat)
    requires j + 1 < |lower| && Rising(H, txids, lower, j)
    ensures Rising(H, txids, lower + Parents(H, lower[j..]), |lower|)
  {
    hide Parents;
    var level := lower[j..];
    var tree := lower + Parents(H, level);
    assert Flat(H, level) == level + Flat(H, Parents(H, level));
    hide Flat;
    assert tree[..|lower|] == lower[..j] + level && tree[|lower|..] == Parents(H, level);
    assert lower[..j] + (level + Flat(H, Parents(H, level))) == lower[..j] + level + Flat(H, Parents(H, level));
  }

  lemma RisingEnds(H: PairHash, txids: seq<Hash>, tree: seq<Hash>, j: nat)
    requires Rising(H, txids, tree, j) && |tree| - j <= 1
    ensures tree == Flat(H, txids)
    ensures txids != [] ==> tree != [] && tree[|tree| - 1] == Root(H, txids)
    ensures txids == [] ==> tree == []
  {
    hide Root, Parents, Flat;
    FlatOfShort(H, tree[j..]);
    assert tree[..j] + tree[j..] == tree;
    if txids == [] {
      FlatOfShort(H, txids);
    }
  }

  /** CBlock::BuildMerkleTree. */
  method BuildMerkleTree(H: PairHash, txids: seq<Hash>) returns (root: Hash, vMerkleTree: seq<Hash>)
    ensures vMerkleTree == Flat(H, txids)
    ensures root == if txids == [] then 0 else Root(H, txids)
  {
    hide Parents, Flat, Root, Rising;
    vMerkleTree := txids;
    var j := 0;
    var nSize := |txids|;
    RisingStarts(H, txids);
    while nSize > 1
      invariant j >= 0 && nSize >= 0 && j + nSize == |vMerkleTree|
      invariant Rising(H, txids, vMerkleTree, j)
      decreases nSize
    {
      RisingStep(H, txids, vMerkleTree, j);
      vMerkleTree := AppendParents(H, vMerkleTree, j, nSize);
      j := j + nSize;
      nSize := (nSize + 1) / 2;
    }
    RisingEnds(H, txids, vMerkleTree, j);
    root := if |vMerkleTree| == 0 then 0 else vMerkleTree[|vMerkleTree| - 1];
  }

  // ----- branches -----

  /** nIndex ^ 1 */
  function FlipLow(i: nat): nat {
    if i % 2 == 0 then i + 1 else i - 1
  }

  /** The siblings on the way from the i-th leaf to the root. */
  function Branch(H: PairHash, s: seq<Hash>, i: nat): seq<Hash>
    decreases |s|
  {
    if |s| <= 1 then [] else [s[Min(FlipLow(i), |s| - 1)]] + Branch(H, Parents(H, s), i / 2)
  }

  lemma BranchUnfolds(H: PairHash, s: seq<Hash>, i: nat)
    ensures |s| <= 1 ==> Branch(H, s, i) == []
    ensures |s| > 1 ==> Branch(H, s, i) == [s[Min(FlipLow(i), |s| - 1)]] + Branch(H, Parents(H, s), i / 2)
    ensures |s| > 1 ==> Flat(H, s) == s + Flat(H, Parents(H, s))
  {
  }

  /** CBlock::GetMerkleBranch, on the flat array. */
  method GetMerkleBranch(H: PairHash, txids: seq<Hash>, vMerkleTree: seq<Hash>, nIndex: nat)
    returns (vMerkleBranch: seq<Hash>)
    requires vMerkleTree == Flat(H, txids)
    ensures vMerkleBranch == Branch(H, txids, nIndex)
  {
    hide Branch, Flat, Parents, Root;
    vMerkleBranch := [];
    var j := 0;
    var index: nat := nIndex;
    var nSize := |txids|;
    ghost var level := txids;
    while nSize > 1
      invariant 0 <= j <= |vMerkleTree| && nSize == |level| && vMerkleTree[j..] == Flat(H, level)
      invariant vMerkleBranch + Branch(H, level, index) == Branch(H, txids, nIndex)
      decreases nSize
    {
      BranchUnfolds(H, level, index);
      var i := Min(FlipLow(index), nSize - 1);
      assert vMerkleTree[j + i] == vMerkleTree[j..][i] == level[i];
      vMerkleBranch := vMerkleBranch + [vMerkleTree[j + i]];
      index := index / 2;
      assert vMerkleTree[j + nSize..] == vMerkleTree[j..][nSize..];
      j := j + nSize;
      nSize := (nSize + 1) / 2;
      level := Parents(H, level);
    }
    BranchUnfolds(H, level, index);
  }

  /** Hashing upwards from `hash` along a branch; an odd index is a right child. */
  function Fold(H: PairHash, hash: Hash, branch: seq<Hash>, nIndex: int): Hash
    decreases |branch|
  {
    if branch == [] then hash
    else
      Fold(H, if nIndex % 2 == 1 then H(branch[0], hash) else H(hash, branch[0]), branch[1..], nIndex / 2)
  }

  function BranchRoot(H: PairHash, hash: Hash, branch: seq<Hash>, nIndex: int): Hash {
    if nIndex == -1 then 0 else Fold(H, hash, branch, nIndex)
  }

  /** CBlock::CheckMerkleBranch. */
  method CheckMerkleBranch(H: PairHash, hash: Hash, vMerkleBranch: seq<Hash>, nIndex: int) returns (root: Hash)
    ensures root == BranchRoot(H, hash, vMerkleBranch, nIndex)
  {
    if nIndex == -1 {
      return 0;
    }
    root := hash;
    var index := nIndex;
    for k := 0 to |vMerkleBranch|
      invariant Fold(H, root, vMerkleBranch[k..], index) == Fold(H, hash, vMerkleBranch, nIndex)
    {
      var otherside := vMerkleBranch[k];
      root := if index % 2 == 1 then H(otherside, root) else H(root, otherside);
      index := index / 2;
    }
  }

  lemma ParentOf(H: PairHash, s: seq<Hash>, i: nat)
    requires i < |s|
    ensures var sibling := s[Min(FlipLow(i), |s| - 1)];
            Parents(H, s)[i / 2] == if i % 2 == 1 then H(sibling, s[i]) else H(s[i], sibling)
  {
  }

  /** Every extracted branch leads from its leaf to the root. */
  lemma {:induction false} BranchVerifies(H: PairHash, s: seq<Hash>, i: nat)
    requires i < |s|
    ensures BranchRoot(H, s[i], Branch(H, s, i), i) == Root(H, s)
    decreases |s|
  {
    if |s| > 1 {
      ParentOf(H, s, i);
      hide Parents;
      BranchVerifies(H, Parents(H, s), i / 2);
      assert Branch(H, s, i)[1..] == Branch(H, Parents(H, s), i / 2);
    }
  }

  /** The number of levels above the leaves. */
  function Depth(n: nat): nat {
    if n <= 1 then 0 else 1 + Depth((n + 1) / 2)
  }

  /** A branch has as many hashes as the binary logarithm of the number of leaves, rounded up. */
  lemma {:induction false} BranchLength(H: PairHash, s: seq<Hash>, i: nat)
    requires s != []
    ensures |Branch(H, s, i)| == Depth(|s|)
    ensures |s| <= Pow2(Depth(|s|)) && (|s| > 1 ==> Pow2(Depth(|s|) - 1) < |s|)
    decreases |s|
  {
    if |s| > 1 {
      BranchLength(H, Parents(H, s), i / 2);
    }
  }

  // ----- commitment -----

  /** No two of the given pairs have the same hash. */
  ghost predicate InjectiveOn(H: PairHash, pairs: set<(Hash, Hash)>) {
    forall p, q :: p in pairs && q in pairs && H(p.0, p.1) == H(q.0, q.1) ==> p == q
  }

  lemma InjectiveOnFewer(H: PairHash, few: set<(Hash, Hash)>, many: set<(Hash, Hash)>)
    requires InjectiveOn(H, many) && few <= many
    ensures InjectiveOn(H, few)
  {
  }

  /** The first pair hashed along a branch. */
  function FirstPair(hash: Hash, branch: seq<Hash>, nIndex: int): (Hash, Hash)
    requires branch != []
  {
    if nIndex % 2 == 1 then (branch[0], hash) else (hash, branch[0])
  }

  /** All pairs hashed along a branch. */
  function PathPairs(H: PairHash, hash: Hash, branch: seq<Hash>, nIndex: int): set<(Hash, Hash)>
    decreases |branch|
  {
    if branch == [] then {}
    else
      var p := FirstPair(hash, branch, nIndex);
      {p} + PathPairs(H, H(p.0, p.1), branch[1..], nIndex / 2)
  }

  /** The pairs hashed to get the level above `s`. */
  function LevelPairs(s: seq<Hash>): set<(Hash, Hash)> {
    set k | 0 <= k < (|s| + 1) / 2 :: (s[2 * k], s[Min(2 * k + 1, |s| - 1)])
  }

  /** All pairs hashed to build the tree. */
  function TreePairs(H: PairHash, s: seq<Hash>): set<(Hash, Hash)>
    decreases |s|
  {
    if |s| <= 1 then {} else LevelPairs(s) + TreePairs(H, Parents(H, s))
  }

  lemma LeafPair(s: seq<Hash>, i: nat)
    requires i < |s| && |s| > 1
    ensures 0 <= Min(FlipLow(i), |s| - 1) < |s|
    ensures FirstPair(s[i], [s[Min(FlipLow(i), |s| - 1)]], i) in LevelPairs(s)
  {
    LevelPair(s, i / 2);
    assert FirstPair(s[i], [s[Min(FlipLow(i), |s| - 1)]], i) == (s[2 * (i / 2)], s[Min(2 * (i / 2) + 1, |s| - 1)]);
  }

  /** A branch of the right length that leads to the root starts at the leaf of that index, and
      is the extracted one, unless a collision shows among the pairs hashed. */
  lemma {:induction false} BranchBinds(H: PairHash, s: seq<Hash>, hash: Hash, branch: seq<Hash>, i: nat)
    requires i < |s| && |branch| == Depth(|s|)
    requires InjectiveOn(H, TreePairs(H, s) + PathPairs(H, hash, branch, i))
    requires BranchRoot(H, hash, branch, i) == Root(H, s)
    ensures hash == s[i] && branch == Branch(H, s, i)
    decreases |s|
  {
    hide Parents, Flat, Branch, InjectiveOn, LevelPairs, Min, FlipLow;
    BranchUnfolds(H, s, i);
    if |s| > 1 {
      LeafPair(s, i);
      var all := TreePairs(H, s) + PathPairs(H, hash, branch, i);
      var up := FirstPair(hash, branch, i);
      InjectiveOnFewer(H, TreePairs(H, Parents(H, s)) + PathPairs(H, H(up.0, up.1), branch[1..], i / 2), all);
      BranchBinds(H, Parents(H, s), H(up.0, up.1), branch[1..], i / 2);
      ParentOf(H, s, i);
      var sibling := s[Min(FlipLow(i), |s| - 1)];
      SamePair(H, up, FirstPair(s[i], [sibling], i), all);
      assert branch == [branch[0]] + branch[1..];
    }
  }

  lemma SamePair(H: PairHash, p: (Hash, Hash), q: (Hash, Hash), pairs: set<(Hash, Hash)>)
    requires InjectiveOn(H, pairs) && p in pairs && q in pairs && H(p.0, p.1) == H(q.0, q.1)
    ensures p == q
  {
  }

  /** Along one path, different hashes lead to different roots. */
  lemma {:induction false} FoldInjective(H: PairHash, a: Hash, p: seq<Hash>, b: Hash, q: seq<Hash>, i: int)
    requires |p| == |q| && InjectiveOn(H, PathPairs(H, a, p, i) + PathPairs(H, b, q, i))
    requires Fold(H, a, p, i) == Fold(H, b, q, i)
    ensures a == b && p == q
    decreases |p|
  {
    hide InjectiveOn;
    if p != [] {
      var u, v := FirstPair(a, p, i), FirstPair(b, q, i);
      var all := PathPairs(H, a, p, i) + PathPairs(H, b, q, i);
      InjectiveOnFewer(H, PathPairs(H, H(u.0, u.1), p[1..], i / 2) + PathPairs(H, H(v.0, v.1), q[1..], i / 2), all);
      FoldInjective(H, H(u.0, u.1), p[1..], H(v.0, v.1), q[1..], i / 2);
      SamePair(H, u, v, all);
      assert p == [p[0]] + p[1..] && q == [q[0]] + q[1..];
    }
  }

  lemma ParentsDistinct(H: PairHash, s: seq<Hash>)
    requires InjectiveOn(H, LevelPairs(s)) && Distinct(s)
    ensures Distinct(Parents(H, s))
  {
    forall i, j | 0 <= i < j < |Parents(H, s)| ensures Parents(H, s)[i] != Parents(H, s)[j] {
      assert s[2 * i] != s[2 * j];
      LevelPair(s, i);
      LevelPair(s, j);
    }
  }

  lemma LevelPair(s: seq<Hash>, k: nat)
    requires 2 * k < |s|
    ensures (s[2 * k], s[Min(2 * k + 1, |s| - 1)]) in LevelPairs(s)
  {
  }

  /** A level without duplicates can be read off the level above it, odd lengths included. */
  lemma ParentsFix(H: PairHash, a: seq<Hash>, b: seq<Hash>)
    requires InjectiveOn(H, LevelPairs(a) + LevelPairs(b)) && Distinct(a) && Distinct(b)
             && Parents(H, a) == Parents(H, b)
    ensures a == b
  {
    hide LevelPairs;
    var p, q := Parents(H, a), Parents(H, b);
    forall k | 0 <= k < |p| ensures a[2 * k] == b[2 * k] && a[Min(2 * k + 1, |a| - 1)] == b[Min(2 * k + 1, |b| - 1)] {
      assert p[k] == q[k];
      LevelPair(a, k);
      LevelPair(b, k);
    }
    hide InjectiveOn, Parents;
    var m := |p| - 1;
    assert |p| > 0 ==> a[2 * m] == b[2 * m] && a[Min(2 * m + 1, |a| - 1)] == b[Min(2 * m + 1, |b| - 1)];
    assert |a| == |b|;
    forall i | 0 <= i < |a| ensures a[i] == b[i] {
      var k := i / 2;
      assert a[2 * k] == b[2 * k] && a[Min(2 * k + 1, |a| - 1)] == b[Min(2 * k + 1, |b| - 1)];
    }
  }

  /** The level `n` steps above the leaves. */
  function Level(H: PairHash, s: seq<Hash>, n: nat): seq<Hash>
    decreases n
  {
    if n == 0 then s else Level(H, Parents(H, s), n - 1)
  }

  lemma {:induction false} LevelParents(H: PairHash, s: seq<Hash>, n: nat)
    ensures Parents(H, Level(H, s, n)) == Level(H, Parents(H, s), n) == Level(H, s, n + 1)
    decreases n
  {
    if n > 0 {
      LevelParents(H, Parents(H, s), n - 1);
    }
  }

  lemma {:induction false} LevelDistinct(H: PairHash, s: seq<Hash>, n: nat)
    requires InjectiveOn(H, TreePairs(H, s)) && Distinct(s) && n <= Depth(|s|)
    ensures Distinct(Level(H, s, n))
    decreases n
  {
    hide InjectiveOn, Distinct, LevelPairs, Parents;
    if n > 0 {
      InjectiveOnFewer(H, LevelPairs(s), TreePairs(H, s));
      InjectiveOnFewer(H, TreePairs(H, Parents(H, s)), TreePairs(H, s));
      ParentsDistinct(H, s);
      LevelDistinct(H, Parents(H, s), n - 1);
    }
  }

  /** Below the root, what is hashed at a level is hashed for the tree. */
  lemma {:induction false} LevelInTree(H: PairHash, s: seq<Hash>, n: nat)
    requires n < Depth(|s|)
    ensures LevelPairs(Level(H, s, n)) <= TreePairs(H, s)
    decreases n
  {
    hide LevelPairs, Parents;
    if n > 0 {
      LevelInTree(H, Parents(H, s), n - 1);
    }
  }

  lemma {:induction false} TopLevel(H: PairHash, s: seq<Hash>)
    requires s != []
    ensures Level(H, s, Depth(|s|)) == [Root(H, s)]
    decreases |s|
  {
    if |s| > 1 {
      TopLevel(H, Parents(H, s));
    }
  }

  /** With equal roots, the shallower tree is the top of the deeper one. */
  lemma {:induction false} ShallowIsTop(H: PairHash, a: seq<Hash>, b: seq<Hash>)
    requires InjectiveOn(H, TreePairs(H, a) + TreePairs(H, b)) && Distinct(a) && Distinct(b) && a != [] && b != []
    requires Root(H, a) == Root(H, b) && Depth(|a|) <= Depth(|b|)
    ensures a == Level(H, b, Depth(|b|) - Depth(|a|))
    decreases |a|
  {
    hide Parents, InjectiveOn, Distinct, Level, LevelPairs;
    if |a| == 1 {
      TopLevel(H, b);
    } else {
      var all, n := TreePairs(H, a) + TreePairs(H, b), Depth(|b|) - Depth(|a|);
      InjectiveOnFewer(H, LevelPairs(a), all);
      InjectiveOnFewer(H, LevelPairs(b), all);
      ParentsDistinct(H, a);
      ParentsDistinct(H, b);
      InjectiveOnFewer(H, TreePairs(H, Parents(H, a)) + TreePairs(H, Parents(H, b)), all);
      ShallowIsTop(H, Parents(H, a), Parents(H, b));
      LevelParents(H, b, n);
      InjectiveOnFewer(H, TreePairs(H, b), all);
      LevelDistinct(H, b, n);
      LevelInTree(H, b, n);
      InjectiveOnFewer(H, LevelPairs(a) + LevelPairs(Level(H, b, n)), all);
      ParentsFix(H, a, Level(H, b, n));
    }
  }

  /** None of the pairs hashes to a leaf. */
  ghost predicate NeverLeaf(H: PairHash, pairs: set<(Hash, Hash)>, s: seq<Hash>) {
    forall p :: p in pairs ==> H(p.0, p.1) !in s
  }

  /** Above the leaves, a level starts with the hash of a pair of the tree. */
  lemma LevelIsHashed(H: PairHash, s: seq<Hash>, n: nat) returns (p: (Hash, Hash))
    requires s != [] && 0 < n <= Depth(|s|)
    ensures p in TreePairs(H, s) && Level(H, s, n) != [] && Level(H, s, n)[0] == H(p.0, p.1)
  {
    hide Level, LevelPairs;
    var below := Level(H, s, n - 1);
    LevelParents(H, s, n - 1);
    LevelNotEmpty(H, s, n - 1);
    LevelInTree(H, s, n - 1);
    LevelPair(below, 0);
    p := (below[0], below[Min(1, |below| - 1)]);
  }

  lemma {:induction false} LevelNotEmpty(H: PairHash, s: seq<Hash>, n: nat)
    requires s != []
    ensures Level(H, s, n) != []
    decreases n
  {
    if n > 0 {
      LevelNotEmpty(H, Parents(H, s), n - 1);
    }
  }

  /** The merkle root commits to the list of transaction ids: two lists with one root are equal,
      unless two of the pairs hashed in their trees collide or one hashes to a leaf. */
  lemma RootCommits(H: PairHash, a: seq<Hash>, b: seq<Hash>)
    requires InjectiveOn(H, TreePairs(H, a) + TreePairs(H, b))
    requires NeverLeaf(H, TreePairs(H, a), b) && NeverLeaf(H, TreePairs(H, b), a)
    requires Distinct(a) && Distinct(b) && a != [] && b != []
    ensures Root(H, a) == Root(H, b) <==> a == b
  {
    hide *;
    if Root(H, a) == Root(H, b) {
      if Depth(|a|) <= Depth(|b|) {
        ShallowCommits(H, a, b);
      } else {
        assert TreePairs(H, b) + TreePairs(H, a) == TreePairs(H, a) + TreePairs(H, b);
        ShallowCommits(H, b, a);
      }
    }
  }

  lemma ShallowCommits(H: PairHash, a: seq<Hash>, b: seq<Hash>)
    requires InjectiveOn(H, TreePairs(H, a) + TreePairs(H, b)) && NeverLeaf(H, TreePairs(H, b), a)
    requires Distinct(a) && Distinct(b) && a != [] && b != []
    requires Root(H, a) == Root(H, b) && Depth(|a|) <= Depth(|b|)
    ensures a == b
  {
    hide InjectiveOn, Distinct, Root, Depth, Parents, TreePairs;
    ShallowIsTop(H, a, b);
    var n := Depth(|b|) - Depth(|a|);
    assert a[0] in a;
    if n > 0 {
      var p := LevelIsHashed(H, b, n);
    }
  }

  function Txids(vtx: seq<Tx>): seq<Hash> {
    seq(|vtx|, i requires 0 <= i < |vtx| => vtx[i].txid)
  }

  /** Two blocks that pass CheckBlock's test for duplicates and have the same merkle root have
      the same transaction ids in the same order. */
  lemma BlocksWithOneRoot(H: PairHash, a: Block, b: Block)
    requires InjectiveOn(H, TreePairs(H, Txids(a.vtx)) + TreePairs(H, Txids(b.vtx)))
    requires NeverLeaf(H, TreePairs(H, Txids(a.vtx)), Txids(b.vtx))
             && NeverLeaf(H, TreePairs(H, Txids(b.vtx)), Txids(a.vtx))
    requires a.vtx != [] && b.vtx != [] && DistinctTxids(a.vtx) && DistinctTxids(b.vtx)
    ensures Root(H, Txids(a.vtx)) == Root(H, Txids(b.vtx)) <==> Txids(a.vtx) == Txids(b.vtx)
  {
    RootCommits(H, Txids(a.vtx), Txids(b.vtx));
  }

  /** Without the test for duplicates it would not: whatever the hash, repeating the last of
      three leaves keeps the root. */
  lemma DuplicatesCollide(H: PairHash, x: Hash, y: Hash, z: Hash)
    ensures Root(H, [x, y, z]) == Root(H, [x, y, z, z])
  {
    assert Parents(H, [x, y, z]) == [H(x, y), H(z, z)];
    assert Parents(H, [x, y, z, z]) == [H(x, y), H(z, z)];
  }

  lemma TwoLeaves(H: PairHash, s: seq<Hash>)
    requires |s| == 2
    ensures Root(H, s) == H(s[0], s[1])
  {
    assert Parents(H, s) == [H(s[0], s[1])];
  }

  lemma ParentsOfHalves(H: PairHash, s: seq<Hash>, g: nat)
    requires |s| == 4 * g && g >= 1
    ensures var left, right := Parents(H, s[..2 * g]), Parents(H, s[2 * g..]);
            |left| == |right| == g && Parents(H, s) == left + right
  {
    var left, right := Parents(H, s[..2 * g]), Parents(H, s[2 * g..]);
    forall k | 0 <= k < 2 * g ensures Parents(H, s)[k] == (left + right)[k] {
      if k >= g {
        assert (left + right)[k] == right[k - g];
      }
    }
  }

  /** The root over 2^(k+1) leaves hashes the roots of the two halves, the left one first. */
  lemma {:induction false} RootOfHalves(H: PairHash, s: seq<Hash>, k: nat)
    requires |s| == Pow2(k + 1)
    ensures 0 < Pow2(k) < |s| && Root(H, s) == H(Root(H, s[..Pow2(k)]), Root(H, s[Pow2(k)..]))
    decreases k
  {
    var h := Pow2(k);
    assert |s| == 2 * h;
    hide Parents;
    if k == 0 {
      assert h == 1;
      TwoLeaves(H, s);
    } else {
      var g := Pow2(k - 1);
      assert h == 2 * g;
      hide Pow2;
      ParentsOfHalves(H, s, g);
      var p, left, right := Parents(H, s), Parents(H, s[..h]), Parents(H, s[h..]);
      RootOfHalves(H, p, k - 1);
      assert p[..g] == left && p[g..] == right;
      RootOfParents(H, s);
      RootOfParents(H, s[..h]);
      RootOfParents(H, s[h..]);
    }
  }

  lemma RootOfParents(H: PairHash, s: seq<Hash>)
    requires |s| > 1
    ensures Root(H, s) == Root(H, Parents(H, s))
  {
  }

  /** Three leaves are padded with the last one. */
  lemma ThreeLeaves(H: PairHash, x: Hash, y: Hash, z: Hash)
    ensures Root(H, [x, y, z]) == H(H(x, y), H(z, z))
  {
    assert Parents(H, [x, y, z]) == [H(x, y), H(z, z)];
    RootOfParents(H, [x, y, z]);
    TwoLeaves(H, [H(x, y), H(z, z)]);
  }
}
