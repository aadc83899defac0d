/** Merged mining: accepting work done for another chain (src/auxpow.cpp). */
module AuxPow {
  import opened Common
  import opened ScriptCode
  import opened ChainTypes
  import opened Merkle
  import Compact

  const MERGED_MINING_HEADER: Bytes := [0xfa, 0xbe, 0x6d, 0x6d]
  const MAX_HASH := Pow256(32)

  /** CAuxPow: the parent coinbase (its hash and the script of its first input), its place in the
      parent block, and the branch to the root of the merged chains. */
  datatype Work = Work(
    coinbaseHash: Hash,
    scriptSig: Script,
    vMerkleBranch: seq<Hash>,
    nIndex: int,
    vChainMerkleBranch: seq<Hash>,
    nChainIndex: int,
    parentChainID: int,
    parentMerkleRoot: Hash)

  predicate OccursAt(s: Bytes, p: Bytes, i: nat) {
    i + |p| <= |s| && s[i..i + |p|] == p
  }

  /** std::search: the first occurrence of `p` at or after `from`, or the end. */
  function Search(s: Bytes, p: Bytes, from: nat): (i: nat)
    requires from <= |s|
    ensures from <= i <= |s|
    ensures i < |s| ==> OccursAt(s, p, i)
    ensures p != [] ==> forall j :: from <= j < i ==> !OccursAt(s, p, j)
    decreases |s| - from
  {
    if from == |s| || OccursAt(s, p, from) then from else Search(s, p, from + 1)
  }

  /** The bytes of a root as they stand in the coinbase. */
  function RootBytes(root: Hash): Bytes {
    Reverse(LowBytes(root, 32))
  }

  function Wrap32(x: int): nat {
    x % 0x1_0000_0000
  }

  /** The slot of a chain in a tree of `size` leaves. */
  function Slot(nonce: nat, chainID: int, size: nat): nat
    requires size > 0
  {
    Wrap32(Wrap32(Wrap32(nonce * 1103515245 + 12345) + chainID) * 1103515245 + 12345) % size
  }

  /** What CAuxPow::Check demands of the parent coinbase, once the position `pc` of the root in
      it is known. */
  predicate RootInPlace(script: Script, pc: nat) {
    var pcHead := Search(script, MERGED_MINING_HEADER, 0);
    if pcHead < |script| then
      Search(script, MERGED_MINING_HEADER, pcHead + 1) == |script| && pcHead + |MERGED_MINING_HEADER| == pc
    else pc <= 20
  }

  predicate SlotMatches(script: Script, pc: nat, w: Work, chainID: int)
    requires pc <= |script|
  {
    && |script| - pc >= 8
    && LittleEndian(script[pc..pc + 4]) == Pow2(|w.vChainMerkleBranch|)
    && w.nChainIndex == Slot(LittleEndian(script[pc + 4..pc + 8]), chainID, Pow2(|w.vChainMerkleBranch|))
  }

  function ChainRoot(H: PairHash, w: Work, hashAuxBlock: Hash): Hash {
    BranchRoot(H, hashAuxBlock, w.vChainMerkleBranch, w.nChainIndex)
  }

  predicate Accepts(H: PairHash, testnet: bool, w: Work, hashAuxBlock: Hash, chainID: int) {
    && w.nIndex == 0
    && (testnet || w.parentChainID != chainID)
    && |w.vChainMerkleBranch| <= 30
    && BranchRoot(H, w.coinbaseHash, w.vMerkleBranch, w.nIndex) == w.parentMerkleRoot
    && var pc := Search(w.scriptSig, RootBytes(ChainRoot(H, w, hashAuxBlock)), 0);
       && pc < |w.scriptSig|
       && RootInPlace(w.scriptSig, pc)
       && pc + 32 <= |w.scriptSig|
       && SlotMatches(w.scriptSig, pc + 32, w, chainID)
  }

  /** CAuxPow::Check. */
  method Check(H: PairHash, testnet: bool, w: Work, hashAuxBlock: Hash, chainID: int) returns (ok: bool)
    ensures ok == Accepts(H, testnet, w, hashAuxBlock, chainID)
  {
    hide Search, BranchRoot, RootBytes, LittleEndian, Pow2;
    RootBytesLength(ChainRoot(H, w, hashAuxBlock));
    if w.nIndex != 0 {
      return false;
    }
    if !testnet && w.parentChainID == chainID {
      return false;
    }
    if |w.vChainMerkleBranch| > 30 {
      return false;
    }
    var nRootHash := CheckMerkleBranch(H, hashAuxBlock, w.vChainMerkleBranch, w.nChainIndex);
    var vchRootHash := RootBytes(nRootHash);
    var parentRoot := CheckMerkleBranch(H, w.coinbaseHash, w.vMerkleBranch, w.nIndex);
    if parentRoot != w.parentMerkleRoot {
      return false;
    }
    var script := w.scriptSig;
    var pcHead := Search(script, MERGED_MINING_HEADER, 0);
    var pc := Search(script, vchRootHash, 0);
    if pc == |script| {
      return false;
    }
    if pcHead != |script| {
      if Search(script, MERGED_MINING_HEADER, pcHead + 1) != |script| {
        return false;
      }
      if pcHead + |MERGED_MINING_HEADER| != pc {
        return false;
      }
    } else if pc > 20 {
      return false;
    }
    pc := pc + |vchRootHash|;
    if |script| - pc < 8 {
      return false;
    }
    var nSize := LittleEndian(script[pc..pc + 4]);
    if nSize != Pow2(|w.vChainMerkleBranch|) {
      return false;
    }
    var rand := LittleEndian(script[pc + 4..pc + 8]);
    rand := Wrap32(rand * 1103515245 + 12345);
    rand := Wrap32(rand + chainID);
    rand := Wrap32(rand * 1103515245 + 12345);
    ok := w.nChainIndex == rand % nSize;
  }

  // ----- no work is used twice -----

  /** Hash values have 256 bits. */
  ghost predicate Bounded(H: PairHash) {
    forall a, b :: H(a, b) < MAX_HASH
  }

  lemma {:induction false} FoldBounded(H: PairHash, hash: Hash, branch: seq<Hash>, i: int)
    requires Bounded(H) && hash < MAX_HASH
    ensures Fold(H, hash, branch, i) < MAX_HASH
    decreases |branch|
  {
    hide Pow256;
    if branch != [] {
      FoldBounded(H, if i % 2 == 1 then H(branch[0], hash) else H(hash, branch[0]), branch[1..], i / 2);
    }
  }

  lemma RootBytesInjective(a: Hash, b: Hash)
    requires a < MAX_HASH && b < MAX_HASH && RootBytes(a) == RootBytes(b)
    ensures a == b
  {
    hide Pow256, LowBytes;
    LowBytesValue(a, 32);
    LowBytesValue(b, 32);
    var x, y := LowBytes(a, 32), LowBytes(b, 32);
    forall k | 0 <= k < 32 ensures x[k] == y[k] {
      assert RootBytes(a)[31 - k] == x[k] && RootBytes(b)[31 - k] == y[k];
    }
    assert x == y;
  }

  lemma {:induction false} Pow2Injective(m: nat, n: nat)
    ensures Pow2(m) == Pow2(n) <==> m == n
  {
    if m > 0 && n > 0 {
      Pow2Injective(m - 1, n - 1);
    }
  }

  /** Where the root of accepted work starts in the parent coinbase. */
  function RootPosition(H: PairHash, w: Work, hashAuxBlock: Hash): nat {
    Search(w.scriptSig, RootBytes(ChainRoot(H, w, hashAuxBlock)), 0)
  }

  /** The pairs hashed from the block up to the root of the merged chains. */
  function ChainPairs(H: PairHash, w: Work, hashAuxBlock: Hash): set<(Hash, Hash)> {
    PathPairs(H, hashAuxBlock, w.vChainMerkleBranch, w.nChainIndex)
  }

  /** Two pieces of work in one parent coinbase, for one chain ID and with roots at the same
      position, are for the same block, unless a collision shows in their chain branches. */
  lemma SamePositionSameBlock(H: PairHash, testnet: bool, chainID: int, v: Work, a: Hash, w: Work, b: Hash)
    requires Bounded(H) && a < MAX_HASH && b < MAX_HASH
    requires InjectiveOn(H, ChainPairs(H, v, a) + ChainPairs(H, w, b))
    requires Accepts(H, testnet, v, a, chainID) && Accepts(H, testnet, w, b, chainID)
    requires v.scriptSig == w.scriptSig && RootPosition(H, v, a) == RootPosition(H, w, b)
    ensures a == b
  {
    hide Fold, PathPairs, Pow256, RootInPlace, RootBytes, Search, InjectiveOn, Bounded, LittleEndian;
    var r, q := ChainRoot(H, v, a), ChainRoot(H, w, b);
    var pc := RootPosition(H, v, a);
    RootBytesLength(r);
    RootBytesLength(q);
    assert v.scriptSig[pc..pc + 32] == RootBytes(r) == RootBytes(q);
    FoldBounded(H, a, v.vChainMerkleBranch, v.nChainIndex);
    FoldBounded(H, b, w.vChainMerkleBranch, w.nChainIndex);
    RootBytesInjective(r, q);
    Pow2Injective(|v.vChainMerkleBranch|, |w.vChainMerkleBranch|);
    assert v.nChainIndex == w.nChainIndex >= 0;
    FoldInjective(H, a, v.vChainMerkleBranch, b, w.vChainMerkleBranch, v.nChainIndex);
  }

  lemma RootBytesLength(root: Hash)
    ensures |RootBytes(root)| == 32
  {
  }

  predicate HasHeader(script: Script) {
    Search(script, MERGED_MINING_HEADER, 0) < |script|
  }

  /** With the merged-mining header in the coinbase, at most one block of a chain is served. */
  lemma HeaderServesOneBlock(H: PairHash, testnet: bool, chainID: int, v: Work, a: Hash, w: Work, b: Hash)
    requires Bounded(H) && a < MAX_HASH && b < MAX_HASH
    requires InjectiveOn(H, ChainPairs(H, v, a) + ChainPairs(H, w, b))
    requires Accepts(H, testnet, v, a, chainID) && Accepts(H, testnet, w, b, chainID)
    requires v.scriptSig == w.scriptSig && HasHeader(v.scriptSig)
    ensures a == b
  {
    hide Search, ChainRoot, ChainPairs, RootBytes, BranchRoot, SlotMatches, InjectiveOn, Bounded, Pow256;
    SamePositionSameBlock(H, testnet, chainID, v, a, w, b);
  }

  lemma {:induction false} PigeonHole(S: set<Hash>, position: map<Hash, nat>, n: nat)
    requires S == position.Keys && forall h :: h in S ==> position[h] < n
    requires forall a, b :: a in S && b in S && position[a] == position[b] ==> a == b
    ensures |S| <= n
    decreases n
  {
    if S != {} {
      var x :| x in S;
      if n > 0 {
        var rest := map h | h in S && position[h] != n - 1 :: position[h];
        PigeonHole(rest.Keys, rest, n - 1);
        if h :| h in S && position[h] == n - 1 {
          assert S == rest.Keys + {h};
        } else {
          assert S == rest.Keys;
        }
      }
    }
  }

  /** Each block hash is accepted with its work, in the given parent coinbase. */
  ghost predicate Serves(H: PairHash, testnet: bool, script: Script, chainID: int, works: map<Hash, Work>) {
    forall h :: h in works ==> h < MAX_HASH && works[h].scriptSig == script && Accepts(H, testnet, works[h], h, chainID)
  }

  function AllChainPairs(H: PairHash, works: map<Hash, Work>): set<(Hash, Hash)> {
    set h, p | h in works && p in ChainPairs(H, works[h], h) :: p
  }

  lemma PairsAmongAll(H: PairHash, works: map<Hash, Work>, a: Hash, b: Hash)
    requires a in works && b in works && InjectiveOn(H, AllChainPairs(H, works))
    ensures InjectiveOn(H, ChainPairs(H, works[a], a) + ChainPairs(H, works[b], b))
  {
    hide ChainPairs;
    InjectiveOnFewer(H, ChainPairs(H, works[a], a) + ChainPairs(H, works[b], b), AllChainPairs(H, works));
  }

  /** One parent coinbase serves at most one block of a chain when it carries the header, and
      never more than 21: one for each of the positions 0 to 20 at which a root may start. */
  lemma WorkUsedOnce(H: PairHash, testnet: bool, script: Script, chainID: int, works: map<Hash, Work>)
    requires Bounded(H) && Serves(H, testnet, script, chainID, works)
    requires InjectiveOn(H, AllChainPairs(H, works))
    ensures |works.Keys| <= if HasHeader(script) then 1 else 21
  {
    hide Search, ChainRoot, RootBytes, BranchRoot, SlotMatches, InjectiveOn, ChainPairs, AllChainPairs, Bounded, Pow256;
    var position := map h | h in works :: RootPosition(H, works[h], h);
    forall a, b | a in works && b in works && position[a] == position[b] ensures a == b {
      PairsAmongAll(H, works, a, b);
      SamePositionSameBlock(H, testnet, chainID, works[a], a, works[b], b);
    }
    if HasHeader(script) {
      var ones := map h | h in works :: 0;
      PigeonHole(works.Keys, ones, 1);
    } else {
      PigeonHole(works.Keys, position, 21);
    }
  }

  // ----- honest work is accepted -----

  lemma {:induction false} DepthOfPow2(d: nat)
    ensures Depth(Pow2(d)) == d
  {
    if d > 0 {
      DepthOfPow2(d - 1);
    }
  }

  lemma {:induction false} Pow2Fits(d: nat)
    requires d <= 30
    ensures Pow2(d) < 0x1_0000_0000
    decreases 30 - d
  {
    if d < 30 {
      Pow2Fits(d + 1);
    } else {
      assert Pow2(10) == 1024 && Pow2(20) == 1024 * 1024 && Pow2(30) == 1024 * 1024 * 1024 by {
        Pow2Adds(10, 10);
        Pow2Adds(20, 10);
      }
    }
  }

  lemma {:induction false} Pow2Adds(m: nat, n: nat)
    ensures Pow2(m + n) == Pow2(m) * Pow2(n)
    decreases m
  {
    if m > 0 {
      Pow2Adds(m - 1, n);
    }
  }

  /** What a merged miner puts into the parent coinbase. */
  function Announcement(root: Hash, d: nat, nonce: nat): Bytes {
    MERGED_MINING_HEADER + RootBytes(root) + LowBytes(Pow2(d), 4) + LowBytes(nonce, 4)
  }

  lemma ReadAnnouncement(pre: Script, root: Hash, d: nat, nonce: nat, post: Script)
    requires d <= 30 && nonce < 0x1_0000_0000
    ensures var script, pc := pre + Announcement(root, d, nonce) + post, |pre| + 4;
            && OccursAt(script, MERGED_MINING_HEADER, |pre|) && OccursAt(script, RootBytes(root), pc)
            && |RootBytes(root)| == 32 && |script| >= pc + 40
            && LittleEndian(script[pc + 32..pc + 36]) == Pow2(d) && LittleEndian(script[pc + 36..pc + 40]) == nonce
  {
    hide RootBytes, LittleEndian, LowBytes, Pow2;
    RootBytesLength(root);
    Pow2Fits(d);
    WideEnough();
    LowBytesValue(Pow2(d), 4);
    LowBytesValue(nonce, 4);
    var script, pc := pre + Announcement(root, d, nonce) + post, |pre| + 4;
    assert script[|pre|..pc] == MERGED_MINING_HEADER;
    assert script[pc..pc + 32] == RootBytes(root);
    assert script[pc + 32..pc + 36] == LowBytes(Pow2(d), 4);
    assert script[pc + 36..pc + 40] == LowBytes(nonce, 4);
  }

  /** The announcement stands at `at`; no other merged-mining header occurs, and the root does
      not occur earlier. */
  ghost predicate Announces(script: Script, at: nat, root: Hash, d: nat, nonce: nat) {
    && OccursAt(script, Announcement(root, d, nonce), at)
    && (forall j: nat :: OccursAt(script, MERGED_MINING_HEADER, j) ==> j == at)
    && (forall j: nat :: OccursAt(script, RootBytes(root), j) ==> j >= at + 4)
  }

  lemma SearchFinds(s: Bytes, p: Bytes, i: nat)
    requires p != [] && OccursAt(s, p, i) && forall j: nat :: OccursAt(s, p, j) ==> i <= j
    ensures Search(s, p, 0) == i
  {
  }

  lemma SearchFails(s: Bytes, p: Bytes, from: nat)
    requires from <= |s| && p != [] && forall j: nat :: OccursAt(s, p, j) ==> j < from
    ensures Search(s, p, from) == |s|
  {
  }

  lemma AnnouncedRoot(script: Script, at: nat, root: Hash, d: nat, nonce: nat)
    requires d <= 30 && nonce < 0x1_0000_0000 && Announces(script, at, root, d, nonce)
    ensures Search(script, RootBytes(root), 0) == at + 4 && RootInPlace(script, at + 4) && at + 44 <= |script|
    ensures LittleEndian(script[at + 36..at + 40]) == Pow2(d) && LittleEndian(script[at + 40..at + 44]) == nonce
  {
    hide RootBytes, LittleEndian, Announcement, LowBytes, Pow2, Search;
    AnnouncementSize(root, d, nonce);
    var pre, post := script[..at], script[at + 44..];
    assert script == pre + Announcement(root, d, nonce) + post;
    ReadAnnouncement(pre, root, d, nonce, post);
    SearchFinds(script, MERGED_MINING_HEADER, at);
    SearchFails(script, MERGED_MINING_HEADER, at + 1);
    SearchFinds(script, RootBytes(root), at + 4);
  }

  lemma AnnouncementSize(root: Hash, d: nat, nonce: nat)
    ensures |Announcement(root, d, nonce)| == 44
  {
  }

  // ----- what acceptance and the slot mean -----

  lemma AtLeastOnce(a: int, k: nat)
    requires a >= 1
    ensures a * k >= k
  {
  }

  lemma QuotientsEqual(d: int, q: int, s: int, r: int, k: nat)
    requires d * k + s == q * k + r && 0 <= s < k && 0 <= r < k
    ensures d == q && s == r
  {
    assert (q - d) * k == q * k - d * k && (d - q) * k == d * k - q * k;
    if d < q {
      AtLeastOnce(q - d, k);
    } else if d > q {
      AtLeastOnce(d - q, k);
    }
  }

  lemma DivModInt(x: int, k: nat)
    requires k > 0
    ensures x == (x / k) * k + x % k && 0 <= x % k < k
  {
  }

  lemma ModUnique(x: int, k: nat, q: int, r: int)
    requires k > 0 && x == q * k + r && 0 <= r < k
    ensures x % k == r && x / k == q
  {
    DivModInt(x, k);
    QuotientsEqual(x / k, q, x % k, r, k);
  }

  lemma ModShift(x: int, k: nat, t: int)
    requires k > 0
    ensures (x + t * k) % k == x % k
  {
    DivModInt(x, k);
    assert (x / k + t) * k == (x / k) * k + t * k;
    ModUnique(x + t * k, k, x / k + t, x % k);
  }

  lemma WrapWith(x: int, k: nat, j: nat)
    requires k > 0 && k * j == 0x1_0000_0000
    ensures Wrap32(x) % k == x % k
  {
    var t := x / 0x1_0000_0000;
    assert x == Wrap32(x) + t * (k * j);
    assert t * (k * j) == (t * j) * k;
    ModShift(Wrap32(x), k, t * j);
  }

  lemma SmallPowers()
    ensures Pow2(32) == 0x1_0000_0000
  {
    assert Pow2(8) == 256;
    Pow2Adds(8, 8);
    Pow2Adds(16, 16);
  }

  /** Wrapping to 32 bits does not change the remainder by a power of two up to 2^32. */
  lemma WrapKeepsRemainder(x: int, d: nat)
    requires d <= 32
    ensures Wrap32(x) % Pow2(d) == x % Pow2(d)
  {
    Pow2Adds(d, 32 - d);
    SmallPowers();
    hide Pow2, Wrap32;
    WrapWith(x, Pow2(d), Pow2(32 - d));
  }

  lemma SameRemainder(x: int, y: int, k: nat) returns (t: int)
    requires k > 0 && x % k == y % k
    ensures x == y + t * k
  {
    DivModInt(x, k);
    DivModInt(y, k);
    t := x / k - y / k;
    assert t * k == (x / k) * k - (y / k) * k;
  }

  lemma SumKeepsRemainder(x: int, y: int, z: int, k: nat)
    requires k > 0 && x % k == y % k
    ensures (x + z) % k == (y + z) % k
  {
    var t := SameRemainder(x, y, k);
    ModShift(y + z, k, t);
  }

  lemma ProductKeepsRemainder(x: int, y: int, k: nat)
    requires k > 0 && x % k == y % k
    ensures (x * 1103515245) % k == (y * 1103515245) % k
  {
    var t := SameRemainder(x, y, k);
    assert x * 1103515245 == y * 1103515245 + (t * 1103515245) * k;
    ModShift(y * 1103515245, k, t * 1103515245);
  }

  /** One round of the generator. */
  lemma RoundKeepsRemainder(x: int, y: int, d: nat)
    requires d <= 32 && x % Pow2(d) == y % Pow2(d)
    ensures (Wrap32(x) * 1103515245 + 12345) % Pow2(d) == (y * 1103515245 + 12345) % Pow2(d)
  {
    WrapKeepsRemainder(x, d);
    hide Pow2, Wrap32;
    ProductKeepsRemainder(Wrap32(x), y, Pow2(d));
    SumKeepsRemainder(Wrap32(x) * 1103515245, y * 1103515245, 12345, Pow2(d));
  }

  /** The slot of a chain among 2^d, without the wrapping of the intermediate results. */
  lemma SlotExact(nonce: nat, chainID: int, d: nat)
    requires d <= 32
    ensures Slot(nonce, chainID, Pow2(d))
              == ((nonce * 1103515245 + 12345 + chainID) * 1103515245 + 12345) % Pow2(d)
  {
    hide Pow2, Wrap32;
    var k := Pow2(d);
    var a := nonce * 1103515245 + 12345;
    var b := Wrap32(a) + chainID;
    WrapKeepsRemainder(a, d);
    SumKeepsRemainder(Wrap32(a), a, chainID, k);
    RoundKeepsRemainder(b, a + chainID, d);
    WrapKeepsRemainder(Wrap32(b) * 1103515245 + 12345, d);
  }

  lemma {:induction false} OddCancels(x: int, d: nat)
    requires (x * 1103515245) % Pow2(d) == 0
    ensures x % Pow2(d) == 0
    decreases d
  {
    if d > 0 {
      var k, q := Pow2(d - 1), x * 1103515245 / Pow2(d);
      assert x * 1103515245 == q * (2 * k);
      assert q * (2 * k) == (2 * q) * k;
      ModUnique(x * 1103515245, k, 2 * q, 0);
      OddCancels(x, d - 1);
      var t := x / k;
      assert x == t * k;
      HalfEven(t, q, k);
      assert x == (t / 2) * (2 * k) by {
        assert t == 2 * (t / 2);
        assert (2 * (t / 2)) * k == (t / 2) * (2 * k);
      }
      ModUnique(x, 2 * k, t / 2, 0);
    }
  }

  lemma HalfEven(t: int, q: int, k: nat)
    requires k > 0 && t * k * 1103515245 == q * (2 * k)
    ensures t % 2 == 0
  {
    assert (t * 1103515245) * k == (2 * q) * k;
    SameFactor(t * 1103515245, 2 * q, k);
    assert t == 2 * q - 2 * (551757622 * t);
  }

  lemma SameFactor(a: int, b: int, k: nat)
    requires k > 0 && a * k == b * k
    ensures a == b
  {
    ModUnique(a * k, k, a, 0);
    ModUnique(b * k, k, b, 0);
  }

  /** Two chains fall into one slot exactly when their numbers agree in their last `d` bits: the
      nonce cannot separate them. */
  lemma SlotsCollide(nonce: nat, a: int, b: int, d: nat)
    requires d <= 32
    ensures Slot(nonce, a, Pow2(d)) == Slot(nonce, b, Pow2(d)) <==> (a - b) % Pow2(d) == 0
  {
    SlotExact(nonce, a, d);
    SlotExact(nonce, b, d);
    hide Slot, Pow2;
    var x := (nonce * 1103515245 + 12345 + a) * 1103515245 + 12345;
    var y := (nonce * 1103515245 + 12345 + b) * 1103515245 + 12345;
    assert x == y + (a - b) * 1103515245;
    MultiplierSeparates(x, y, a - b, d);
  }

  lemma MultiplierSeparates(x: int, y: int, z: int, d: nat)
    requires x == y + z * 1103515245
    ensures x % Pow2(d) == y % Pow2(d) <==> z % Pow2(d) == 0
  {
    var k := Pow2(d);
    hide Pow2;
    if x % k == y % k {
      var t := SameRemainder(x, y, k);
      ModUnique(z * 1103515245, k, t, 0);
      OddCancels(z, d);
    }
    if z % k == 0 {
      DivModInt(z, k);
      var t := z / k;
      assert z * 1103515245 == (t * 1103515245) * k;
      ModShift(y, k, t * 1103515245);
    }
  }

  lemma {:induction false} ReversedValue(bs: Bytes)
    ensures LittleEndian(Reverse(bs)) == Compact.BigEndian(bs)
    decreases |bs|
  {
    if bs != [] {
      var front := bs[..|bs| - 1];
      ReversedValue(front);
      assert Reverse(bs) == [bs[|bs| - 1]] + Reverse(front);
      assert Reverse(bs)[1..] == Reverse(front);
    }
  }

  /** Roots are written in 32 bytes, most significant first. */
  lemma RootBytesExact(root: Bytes)
    requires |root| == 32
    ensures RootBytes(Compact.BigEndian(root)) == root
  {
    ReversedValue(root);
    LowBytesOf(Reverse(root));
    hide LowBytes, LittleEndian, Compact.BigEndian;
    assert Reverse(Reverse(root)) == root;
  }

  /** The root stands right behind the only header, or within the first 20 bytes when there is none. */
  ghost predicate Announced(script: Script, pc: nat) {
    if exists j: nat :: OccursAt(script, [0xfa, 0xbe, 0x6d, 0x6d], j)
    then pc >= 4 && forall j: nat :: OccursAt(script, [0xfa, 0xbe, 0x6d, 0x6d], j) <==> j == pc - 4
    else pc <= 20
  }

  lemma AnnouncedExact(script: Script, pc: nat)
    ensures RootInPlace(script, pc) <==> Announced(script, pc)
  {
    var header := MERGED_MINING_HEADER;
    var first := Search(script, header, 0);
    if first < |script| {
      assert OccursAt(script, header, first);
      if Announced(script, pc) {
        assert first == pc - 4;
        SearchFails(script, header, first + 1);
      }
    } else {
      assert forall j: nat :: !OccursAt(script, header, j);
    }
  }

  lemma FirstOccurrence(s: Bytes, p: Bytes, i: nat)
    requires p != [] && OccursAt(s, p, i) && forall j :: 0 <= j < i ==> !OccursAt(s, p, j)
    ensures Search(s, p, 0) == i < |s|
  {
    hide OccursAt;
    NonemptyInside(s, p, i);
  }

  lemma NonemptyInside(s: Bytes, p: Bytes, i: nat)
    requires p != [] && OccursAt(s, p, i)
    ensures i < |s|
  {
  }

  /** What accepted work is, for a coinbase script that contains the root over the chains first at
      `pc`: the coinbase is the first transaction under the parent's merkle root, the parent is not a
      block of the same chain (on the main network), the block is at most 30 levels below the root, the
      root is announced, and behind it stand the number of slots and the nonce that gives this chain
      its slot. */
  lemma AcceptedExact(H: PairHash, testnet: bool, w: Work, hashAuxBlock: Hash, chainID: int, root: Bytes, pc: nat)
    requires |root| == 32 && Compact.BigEndian(root) == ChainRoot(H, w, hashAuxBlock)
    requires OccursAt(w.scriptSig, root, pc) && forall j :: 0 <= j < pc ==> !OccursAt(w.scriptSig, root, j)
    ensures Accepts(H, testnet, w, hashAuxBlock, chainID) <==>
              && w.nIndex == 0 && Fold(H, w.coinbaseHash, w.vMerkleBranch, 0) == w.parentMerkleRoot
              && (!testnet ==> w.parentChainID != chainID)
              && |w.vChainMerkleBranch| <= 30
              && Announced(w.scriptSig, pc) && pc + 40 <= |w.scriptSig|
              && LittleEndian(w.scriptSig[pc + 32..pc + 36]) == Pow2(|w.vChainMerkleBranch|)
              && var nonce, slots := LittleEndian(w.scriptSig[pc + 36..pc + 40]), Pow2(|w.vChainMerkleBranch|);
                 w.nChainIndex == ((nonce * 1103515245 + 12345 + chainID) * 1103515245 + 12345) % slots
  {
    hide Slot, Pow2, LittleEndian, RootBytes, Fold, RootInPlace, Search, Announced, Compact.BigEndian, ChainRoot;
    var script := w.scriptSig;
    RootBytesExact(root);
    FirstOccurrence(script, root, pc);
    AnnouncedExact(script, pc);
    if |w.vChainMerkleBranch| <= 30 && pc + 40 <= |script| {
      SlotExact(LittleEndian(script[pc + 36..pc + 40]), chainID, |w.vChainMerkleBranch|);
    }
  }

  /** A script without the root is refused. */
  lemma UnannouncedRefused(H: PairHash, testnet: bool, w: Work, hashAuxBlock: Hash, chainID: int, root: Bytes)
    requires |root| == 32 && Compact.BigEndian(root) == ChainRoot(H, w, hashAuxBlock)
    requires forall j: nat :: !OccursAt(w.scriptSig, root, j)
    ensures !Accepts(H, testnet, w, hashAuxBlock, chainID)
  {
    hide Compact.BigEndian, ChainRoot, RootBytes, Search, RootInPlace, SlotMatches;
    RootBytesExact(root);
    SearchFails(w.scriptSig, root, 0);
  }

  /** Work whose branches are extracted from the parent block and from a tree of 2^d chains, the
      block's own chain in its slot, and which the parent coinbase announces, is accepted. */
  lemma HonestWorkAccepted(H: PairHash, testnet: bool, chainID: int, parentChainID: int, parentTxids: seq<Hash>,
                           chains: seq<Hash>, d: nat, nonce: nat, script: Script, at: nat)
    requires parentTxids != [] && d <= 30 && |chains| == Pow2(d) && nonce < 0x1_0000_0000
    requires testnet || parentChainID != chainID
    requires Announces(script, at, Root(H, chains), d, nonce)
    ensures var slot := Slot(nonce, chainID, Pow2(d));
            Accepts(H, testnet,
                    Work(parentTxids[0], script, Branch(H, parentTxids, 0), 0, Branch(H, chains, slot), slot,
                         parentChainID, Root(H, parentTxids)),
                    chains[slot], chainID)
  {
    hide Announces, Search, RootBytes, Branch, Root, LittleEndian, BranchRoot, Depth, RootInPlace, Slot;
    var slot := Slot(nonce, chainID, Pow2(d));
    AnnouncedRoot(script, at, Root(H, chains), d, nonce);
    SlotInTree(nonce, chainID, Pow2(d));
    BranchVerifies(H, parentTxids, 0);
    BranchVerifies(H, chains, slot);
    BranchLength(H, chains, slot);
    DepthOfPow2(d);
  }

  lemma SlotInTree(nonce: nat, chainID: int, size: nat)
    requires size > 0
    ensures Slot(nonce, chainID, size) < size
  {
  }

  // ----- the hypotheses are met, and the header is needed -----

  lemma {:induction false} LowBytesSmall(v: nat, n: nat)
    requires v < 256 && n > 0
    ensures LowBytes(v, n) == [v] + seq(n - 1, _ => 0)
  {
    LowBytesZero(n - 1);
  }

  lemma {:induction false} LowBytesZero(n: nat)
    ensures LowBytes(0, n) == seq(n, _ => 0)
  {
    if n > 0 {
      LowBytesZero(n - 1);
    }
  }

  /** An announcement of the root 11 over two chains, and nothing else. */
  function SmallScript(): (s: Script)
    ensures |s| == 44 && OccursAt(s, MERGED_MINING_HEADER, 0)
    ensures (forall k :: 0 < k < 44 ==> s[k] != 0xfa) && (forall k :: 0 <= k < 44 ==> (s[k] == 11 <==> k == 35))
  {
    MERGED_MINING_HEADER + (seq(31, _ => 0) + [11]) + [2, 0, 0, 0] + [0, 0, 0, 0]
  }

  lemma SmallScriptIs()
    ensures SmallScript() == Announcement(11, 1, 0) && RootBytes(11)[31] == 11
  {
    LowBytesSmall(11, 32);
    LowBytesSmall(2, 4);
    LowBytesSmall(0, 4);
    hide LowBytes;
    assert Pow2(1) == 2;
    assert RootBytes(11) == seq(31, _ => 0) + [11];
    assert LowBytes(2, 4) == [2, 0, 0, 0] && LowBytes(0, 4) == [0, 0, 0, 0];
  }

  lemma SmallScriptAnnounces()
    ensures Announces(SmallScript(), 0, 11, 1, 0)
  {
    SmallScriptIs();
    RootBytesLength(11);
    hide SmallScript, Announcement, RootBytes;
    var s := SmallScript();
    assert s[0..44] == s;
    forall j: nat | OccursAt(s, MERGED_MINING_HEADER, j) ensures j == 0 {
      assert s[j] == s[j..j + 4][0] == 0xfa;
    }
    forall j: nat | OccursAt(s, RootBytes(11), j) ensures j >= 4 {
      assert s[j + 31] == s[j..j + 32][31] == 11;
    }
  }

  /** Two chains, with the hashes 5 and 6. */
  lemma SmallTree(H: PairHash, slot: nat)
    requires H(5, 6) == 11 && slot < 2
    ensures Root(H, [5, 6]) == 11 && Branch(H, [5, 6], slot) == [[5, 6][1 - slot]]
  {
    BranchUnfolds(H, [5, 6], slot);
    assert Parents(H, [5, 6]) == [11];
    BranchUnfolds(H, [11], slot / 2);
  }

  lemma LonePair(H: PairHash, hash: Hash, sibling: Hash, i: int)
    ensures |PathPairs(H, hash, [sibling], i)| == 1 && InjectiveOn(H, PathPairs(H, hash, [sibling], i))
  {
    var p := FirstPair(hash, [sibling], i);
    assert PathPairs(H, H(p.0, p.1), [], i / 2) == {};
    assert PathPairs(H, hash, [sibling], i) == {p};
  }

  /** There is a bounded hash and accepted work with the header for a block in a tree of two
      chains, without a collision in its branch. */
  lemma HeaderWorkExists() returns (H: PairHash, w: Work, hash: Hash)
    ensures Bounded(H) && hash < MAX_HASH && HasHeader(w.scriptSig) && Accepts(H, false, w, hash, 1)
    ensures InjectiveOn(H, ChainPairs(H, w, hash)) && |ChainPairs(H, w, hash)| == 1
  {
    hide Search, LowBytes, Slot, Announces, RootBytes, SmallScript, Pow256, InjectiveOn, PathPairs, Branch, Root;
    H := (a: Hash, b: Hash) => if (a, b) == (5, 6) then 11 else 0;
    SmallHashBounded(H);
    SmallScriptAnnounces();
    SearchFinds(SmallScript(), MERGED_MINING_HEADER, 0);
    var slot := Slot(0, 1, 2);
    SlotInTree(0, 1, 2);
    SmallTree(H, slot);
    HonestWorkAccepted(H, false, 1, 0, [1], [5, 6], 1, 0, SmallScript(), 0);
    hide Accepts;
    assert Pow2(1) == 2;
    w := Work(1, SmallScript(), Branch(H, [1], 0), 0, Branch(H, [5, 6], slot), slot, 0, Root(H, [1]));
    hash := [5, 6][slot];
    LonePair(H, hash, [5, 6][1 - slot], slot);
  }

  lemma SmallHashBounded(H: PairHash)
    requires forall a, b :: H(a, b) <= 11
    ensures Bounded(H) && 11 < MAX_HASH
  {
    assert Pow256(32) == 256 * Pow256(31);
  }

  lemma {:induction false} LowBytesOf(bs: Bytes)
    ensures LowBytes(LittleEndian(bs), |bs|) == bs && LittleEndian(bs) < Pow256(|bs|)
  {
    if bs != [] {
      var x, n := LittleEndian(bs[1..]), |bs| - 1;
      LowBytesOf(bs[1..]);
      SplitByte(bs[0], x, Pow256(n));
      assert LowBytes(bs[0] + 256 * x, n + 1) == [(bs[0] + 256 * x) % 256] + LowBytes((bs[0] + 256 * x) / 256, n);
      assert bs == [bs[0]] + bs[1..];
    }
  }

  lemma SplitByte(b: byte, x: nat, p: nat)
    requires x < p
    ensures (b + 256 * x) % 256 == b && (b + 256 * x) / 256 == x && b + 256 * x < 256 * p
  {
  }

  /** The hash that is written as the given 32 bytes. */
  lemma RootOf(bs: Bytes) returns (root: Hash)
    requires |bs| == 32
    ensures root < MAX_HASH && RootBytes(root) == bs
  {
    root := LittleEndian(Reverse(bs));
    LowBytesOf(Reverse(bs));
    hide LowBytes, Pow256, LittleEndian;
    assert Reverse(Reverse(bs)) == bs;
  }

  /** The bytes 1 to 32, and two places where the size and the nonce of a lone chain stand. */
  function TwoRoots(): (s: Script)
    ensures |s| == 48 && s[32..36] == [1, 0, 0, 0] == s[40..44]
    ensures (forall k :: 0 <= k < 32 ==> s[k] == k + 1) && (forall k :: 32 <= k < 48 ==> s[k] <= 1)
  {
    seq(32, k requires 0 <= k < 32 => k + 1) + [1, 0, 0, 0] + [0, 0, 0, 0] + [1, 0, 0, 0] + [0, 0, 0, 0]
  }

  /** A lone chain whose root is the block hash itself, found at `pc`, is accepted. */
  lemma LoneChainAccepted(H: PairHash, script: Script, pc: nat, root: Hash)
    requires pc <= 20 && pc + 40 <= |script| && Search(script, RootBytes(root), 0) == pc
    requires Search(script, MERGED_MINING_HEADER, 0) == |script|
    requires script[pc + 32..pc + 36] == [1, 0, 0, 0]
    ensures Accepts(H, false, Work(1, script, [], 0, [], 0, 0, 1), root, 1)
  {
    hide Search, RootBytes;
    assert LittleEndian([1, 0, 0, 0]) == 1 by {
      assert LittleEndian([0, 0, 0]) == 0;
    }
    hide LittleEndian;
    var nonce := LittleEndian(script[pc + 36..pc + 40]);
    SlotInTree(nonce, 1, 1);
  }

  lemma TwoRootsFound(a: Hash, b: Hash)
    requires RootBytes(a) == TwoRoots()[0..32] && RootBytes(b) == TwoRoots()[8..40]
    ensures Search(TwoRoots(), RootBytes(a), 0) == 0 && Search(TwoRoots(), RootBytes(b), 0) == 8
    ensures Search(TwoRoots(), MERGED_MINING_HEADER, 0) == |TwoRoots()|
  {
    hide RootBytes, Search, TwoRoots;
    var s := TwoRoots();
    SearchFinds(s, RootBytes(a), 0);
    forall j: nat | OccursAt(s, RootBytes(b), j) ensures 8 <= j {
      assert s[j] == s[j..j + 32][0] == s[8..40][0] == 9;
    }
    SearchFinds(s, RootBytes(b), 8);
    forall j: nat ensures !OccursAt(s, MERGED_MINING_HEADER, j) {
      if j + 4 <= |s| {
        assert s[j..j + 4][0] == s[j] != 0xfa;
      }
    }
    SearchFails(s, MERGED_MINING_HEADER, 0);
  }

  /** Without the header, one coinbase can serve two blocks of a chain, whatever the hash. */
  lemma HeaderlessServesTwo(H: PairHash) returns (works: map<Hash, Work>)
    ensures Serves(H, false, TwoRoots(), 1, works) && InjectiveOn(H, AllChainPairs(H, works))
    ensures |works.Keys| == 2 && !HasHeader(TwoRoots())
  {
    hide RootBytes, Pow256, TwoRoots, Search, Accepts, PathPairs;
    var script := TwoRoots();
    var a := RootOf(script[0..32]);
    var b := RootOf(script[8..40]);
    assert script[0..32][0] == 1 && script[8..40][0] == 9;
    TwoRootsFound(a, b);
    LoneChainAccepted(H, script, 0, a);
    LoneChainAccepted(H, script, 8, b);
    var w := Work(1, script, [], 0, [], 0, 0, 1);
    works := map[a := w, b := w];
    NothingHashed(H, works);
    assert works.Keys == {a, b} && a != b;
  }

  lemma NothingHashed(H: PairHash, works: map<Hash, Work>)
    requires forall h :: h in works ==> works[h].vChainMerkleBranch == []
    ensures InjectiveOn(H, AllChainPairs(H, works))
  {
    assert AllChainPairs(H, works) == {};
  }

  // ----- the coinbase that carries the announcement -----

  /** What `script << n` appends for an unsigned number. */
  function PushUInt(n: nat): Script {
    if 1 <= n <= 16 then [OP_1 - 1 + n] else PushData(Compact.GetVch(n))
  }

  /** MakeCoinbaseWithAux. */
  function CoinbaseWithAux(nBits: nat, nExtraNonce: nat, vchAux: Bytes): Script {
    PushUInt(nBits) + PushUInt(nExtraNonce) + [OP_1 + 1] + PushData(MERGED_MINING_HEADER + vchAux)
  }

  /** The coinbase built for a root, a tree size and a nonce holds their announcement, behind the
      two numbers, OP_2 and one size byte. */
  lemma CoinbaseAnnounces(nBits: nat, nExtraNonce: nat, root: Hash, d: nat, nonce: nat)
    ensures var aux := RootBytes(root) + LowBytes(Pow2(d), 4) + LowBytes(nonce, 4);
            OccursAt(CoinbaseWithAux(nBits, nExtraNonce, aux), Announcement(root, d, nonce),
                     |PushUInt(nBits)| + |PushUInt(nExtraNonce)| + 2)
  {
    hide RootBytes, LowBytes, PushUInt, Pow2;
    RootBytesLength(root);
    var aux := RootBytes(root) + LowBytes(Pow2(d), 4) + LowBytes(nonce, 4);
    assert MERGED_MINING_HEADER + aux == Announcement(root, d, nonce);
    ShortPush(Announcement(root, d, nonce));
    var pre := PushUInt(nBits) + PushUInt(nExtraNonce) + [OP_1 + 1] + [44];
    assert CoinbaseWithAux(nBits, nExtraNonce, aux) == pre + Announcement(root, d, nonce);
  }

  lemma ShortPush(b: Bytes)
    requires |b| < OP_PUSHDATA1
    ensures PushData(b) == [|b|] + b
  {
  }
}
