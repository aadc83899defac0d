/** The difficulty every block must have (src/main.cpp). */
module NextWork {
  import opened Common
  import opened Compact

  const TARGET_SPACING := 600
  const INTERVAL := 2016
  const TESTNET_RULE_TIME := 1394838000

  /** Block times are unsigned numbers of 32 bits. */
  type Time = t: int | 0 <= t < 0x1_0000_0000

  /** What the rule reads of a block. */
  datatype Head = Head(nTime: Time, nBits: nat)

  /** The difference of two times, in the arithmetic of their type. */
  function TimeSince(nTime: Time, before: Time): Time {
    (nTime - before) % 0x1_0000_0000
  }

  /** Network parameters: the limit on targets, and the height from which a retarget looks back
      the full interval. */
  datatype Params = Params(testnet: bool, limit: nat, fullRetargetStart: int)

  predicate ValidLimit(limit: nat) {
    0 < MpiLength(limit) < 256
  }

  /** On the test network: the last block of the period that was not mined at minimum difficulty. */
  function LastReal(p: Params, branch: seq<Head>, i: nat): (r: nat)
    requires i < |branch|
    ensures r <= i && r / INTERVAL == i / INTERVAL
    ensures forall j :: r < j <= i ==> branch[j].nBits == GetCompact(p.limit)
    ensures r % INTERVAL == 0 || branch[r].nBits != GetCompact(p.limit)
  {
    if i > 0 && i % INTERVAL != 0 && branch[i].nBits == GetCompact(p.limit) then LastReal(p, branch, i - 1) else i
  }

  /** CheckProofOfWork lets no block with a negative target into the tree. */
  predicate NonNegative(branch: seq<Head>) {
    forall i :: 0 <= i < |branch| ==> SetCompact(branch[i].nBits) >= 0
  }

  /** The bits demanded of the block on top of `branch`, whose own time is `nTime`. */
  function NextBits(p: Params, branch: seq<Head>, nTime: Time): nat
    requires NonNegative(branch)
  {
    if branch == [] then GetCompact(p.limit)
    else
      var last := branch[|branch| - 1];
      if |branch| % INTERVAL != 0 then
        if p.testnet && nTime > TESTNET_RULE_TIME then
          if TimeSince(nTime, last.nTime) > 2 * TARGET_SPACING then GetCompact(p.limit)
          else branch[LastReal(p, branch, |branch| - 1)].nBits
        else last.nBits
      else
        var back := if |branch| - 1 >= p.fullRetargetStart && |branch| > INTERVAL then INTERVAL else INTERVAL - 1;
        Retarget(last.nBits, last.nTime - branch[|branch| - 1 - back].nTime, p.limit)
  }

  /** GetNextWorkRequired. */
  method GetNextWorkRequired(p: Params, branch: seq<Head>, nTime: Time) returns (bits: nat)
    requires NonNegative(branch)
    ensures bits == NextBits(p, branch, nTime)
  {
    hide GetCompact, Retarget, SetCompact;
    var nProofOfWorkLimit := GetCompact(p.limit);
    if branch == [] {
      return nProofOfWorkLimit;
    }
    var pindexLast := |branch| - 1;
    if (pindexLast + 1) % INTERVAL != 0 {
      if p.testnet && nTime > TESTNET_RULE_TIME {
        if TimeSince(nTime, branch[pindexLast].nTime) > TARGET_SPACING * 2 {
          return nProofOfWorkLimit;
        }
        var pindex: nat := pindexLast;
        while pindex > 0 && pindex % INTERVAL != 0 && branch[pindex].nBits == nProofOfWorkLimit
          invariant pindex <= pindexLast && LastReal(p, branch, pindex) == LastReal(p, branch, pindexLast)
        {
          pindex := pindex - 1;
        }
        return branch[pindex].nBits;
      }
      return branch[pindexLast].nBits;
    }
    var nBlocksBack := INTERVAL - 1;
    if pindexLast >= p.fullRetargetStart && pindexLast + 1 > INTERVAL {
      nBlocksBack := INTERVAL;
    }
    var pindexFirst := pindexLast;
    var i := 0;
    while i < nBlocksBack
      invariant 0 <= i <= nBlocksBack && pindexFirst == pindexLast - i >= 0
    {
      pindexFirst := pindexFirst - 1;
      i := i + 1;
    }
    bits := Retarget(branch[pindexLast].nBits, branch[pindexLast].nTime - branch[pindexFirst].nTime, p.limit);
  }

  /** On the test network, after 15 March 2014, a block between retargets is allowed the minimum
      difficulty exactly when it comes more than twenty minutes after its parent, or before it: the
      difference then wraps around. */
  lemma EarlierBlockIsEasy(p: Params, branch: seq<Head>, nTime: Time)
    requires NonNegative(branch) && branch != [] && |branch| % 2016 != 0 && p.testnet && nTime > 1394838000
    ensures var last := branch[|branch| - 1];
            NextBits(p, branch, nTime)
              == if last.nTime <= nTime <= last.nTime + 1200
                 then branch[LastReal(p, branch, |branch| - 1)].nBits
                 else GetCompact(p.limit)
  {
    hide GetCompact, Retarget, SetCompact, LastReal;
    var last := branch[|branch| - 1];
    assert TimeSince(nTime, last.nTime)
             == if last.nTime <= nTime then nTime - last.nTime else nTime - last.nTime + 0x1_0000_0000;
  }

  /** At the end of a period of 2016 blocks the target follows the time between the last block and
      the one 2015 blocks before it, or 2016 from `fullRetargetStart` on: multiplied by that time over
      two weeks, within a factor of four, never above the limit, and rounded to a compact form. */
  lemma PeriodEnd(p: Params, branch: seq<Head>, nTime: Time)
    requires NonNegative(branch) && branch != [] && |branch| % 2016 == 0 && ValidLimit(p.limit)
    ensures var first := if |branch| > p.fullRetargetStart && |branch| > 2016 then |branch| - 2017 else |branch| - 2016;
            var took := branch[|branch| - 1].nTime - branch[first].nTime;
            var prev: nat := SetCompact(branch[|branch| - 1].nBits);
            var next := SetCompact(NextBits(p, branch, nTime));
            && (took < 302400 ==> RoundsTo(if prev / 4 > p.limit then p.limit else prev / 4, next))
            && (took > 4838400 ==> RoundsTo(if 4 * prev > p.limit then p.limit else 4 * prev, next))
            && (302400 <= took <= 4838400 && 1209600 * p.limit <= prev * took ==> RoundsTo(p.limit, next))
            && (302400 <= took <= 4838400 && prev * took < 1209600 * p.limit ==>
                  1209600 * next <= prev * took && 0x7fff * (prev * took) < 0x8000 * 1209600 * (next + 1))
  {
    hide SetCompact, GetCompact, Retarget, MpiLength, RoundsTo;
    var back := if |branch| - 1 >= p.fullRetargetStart && |branch| > INTERVAL then INTERVAL else INTERVAL - 1;
    var last := branch[|branch| - 1];
    RetargetExact(last.nBits, last.nTime - branch[|branch| - 1 - back].nTime, p.limit);
  }

  // ----- over whole chains -----

  /** Every block above genesis has the bits the rule demands of it.  The genesis block is given:
      its bits, those of the limit on neither network, are never tested. */
  ghost predicate Follows(p: Params, branch: seq<Head>) {
    NonNegative(branch)
    && forall i :: 1 <= i < |branch| ==> branch[i].nBits == NextBits(p, branch[..i], branch[i].nTime)
  }

  predicate InRange(p: Params, nBits: nat) {
    0 <= SetCompact(nBits) <= p.limit
  }

  lemma LimitInRange(p: Params)
    requires ValidLimit(p.limit)
    ensures InRange(p, GetCompact(p.limit))
  {
    hide SetCompact, GetCompact, MpiLength;
    CompactLoss(p.limit);
  }

  lemma RetargetInRange(p: Params, nBits: nat, actual: int)
    requires ValidLimit(p.limit) && InRange(p, nBits)
    ensures InRange(p, Retarget(nBits, actual, p.limit))
  {
    hide SetCompact, Retarget, MpiLength;
    RetargetBounds(nBits, actual, p.limit);
  }

  /** The rule never leaves the range. */
  lemma NextInRange(p: Params, branch: seq<Head>, nTime: Time)
    requires ValidLimit(p.limit) && forall i :: 0 <= i < |branch| ==> InRange(p, branch[i].nBits)
    ensures NonNegative(branch) && InRange(p, NextBits(p, branch, nTime))
  {
    hide SetCompact, GetCompact, Retarget, MpiLength;
    LimitInRange(p);
    if branch != [] && |branch| % INTERVAL == 0 {
      var back := if |branch| - 1 >= p.fullRetargetStart && |branch| > INTERVAL then INTERVAL else INTERVAL - 1;
      RetargetInRange(p, branch[|branch| - 1].nBits, branch[|branch| - 1].nTime - branch[|branch| - 1 - back].nTime);
    }
  }

  /** On top of a genesis block in range, no block of a chain that follows the rule has a target
      above the limit. */
  lemma {:induction false} TargetsInRange(p: Params, branch: seq<Head>, n: nat)
    requires ValidLimit(p.limit) && Follows(p, branch) && n <= |branch|
    requires branch != [] ==> InRange(p, branch[0].nBits)
    ensures forall i :: 0 <= i < n ==> InRange(p, branch[i].nBits)
    decreases n
  {
    hide InRange, NextBits, ValidLimit;
    if n > 1 {
      TargetsInRange(p, branch, n - 1);
      NextInRange(p, branch[..n - 1], branch[n - 1].nTime);
    }
  }

  /** The target changes by a factor of four at most from one block to the next, up to the
      rounding of the compact form. */
  ghost predicate SmallStep(limit: nat, prev: int, next: int) {
    next <= 4 * prev && (0x8000 * next >= 0x7fff * (prev / 4) || (limit < prev / 4 && 0x8000 * next >= 0x7fff * limit))
  }

  /** On the main network the difficulty changes only at the end of a period, and never by more
      than a factor of four. */
  lemma MainNetworkSteps(p: Params, branch: seq<Head>, i: nat)
    requires ValidLimit(p.limit) && Follows(p, branch) && 0 < i < |branch| && !p.testnet
    requires InRange(p, branch[0].nBits)
    ensures i % 2016 != 0 ==> branch[i].nBits == branch[i - 1].nBits
    ensures SmallStep(p.limit, SetCompact(branch[i - 1].nBits), SetCompact(branch[i].nBits))
  {
    hide SetCompact, GetCompact, Retarget, MpiLength;
    TargetsInRange(p, branch, i);
    var before := branch[..i];
    assert before[i - 1] == branch[i - 1];
    if i % INTERVAL == 0 {
      var back := if i - 1 >= p.fullRetargetStart && i > INTERVAL then INTERVAL else INTERVAL - 1;
      RetargetBounds(branch[i - 1].nBits, before[i - 1].nTime - before[i - 1 - back].nTime, p.limit);
    }
  }

  /** A chain that follows the rule can always be continued, whatever the time of the next block:
      by exactly the bits of the rule, and the longer chain follows it again. */
  lemma RuleContinues(p: Params, branch: seq<Head>, e: Head)
    requires ValidLimit(p.limit) && Follows(p, branch) && branch != [] && InRange(p, branch[0].nBits)
    ensures Follows(p, branch + [e]) <==> e.nBits == NextBits(p, branch, e.nTime)
  {
    hide SetCompact, NextBits, ValidLimit;
    var longer := branch + [e];
    TargetsInRange(p, branch, |branch|);
    NextInRange(p, branch, e.nTime);
    assert longer[..|branch|] == branch && longer[|branch|] == e;
    assert forall i :: 0 <= i < |branch| ==> longer[i] == branch[i] && longer[..i] == branch[..i];
  }

  // ----- the two networks -----

  const MAIN_NETWORK := Params(false, Pow256(28) - 1, 19200)
  const TEST_NETWORK := Params(true, 16 * Pow256(28) - 1, 0)

  /** The genesis blocks of both networks. */
  const MAIN_GENESIS := Head(1303000001, 0x1c00_7fff)
  const TEST_GENESIS := Head(1296688602, 0x1d07_fff8)

  lemma FourPowers(n: nat)
    requires n >= 3
    ensures Pow256(n) == 256 * Pow256(n - 1) == 0x1_0000 * Pow256(n - 2) == 0x100_0000 * Pow256(n - 3)
  {
  }

  lemma LimitLength(limit: nat)
    requires 128 * Pow256(27) <= limit < 128 * Pow256(28)
    ensures ValidLimit(limit)
  {
    hide MpiLength, Pow256;
    LengthUnique(limit, 29);
  }

  /** Bits of at most half the limit are in range and are not those of the limit; a chain of one
      such block follows the rule. */
  lemma FirstBlock(p: Params, genesis: Head)
    requires ValidLimit(p.limit) && 0 <= 2 * SetCompact(genesis.nBits) <= p.limit && p.limit > 0
    ensures InRange(p, genesis.nBits) && Follows(p, [genesis]) && genesis.nBits != GetCompact(p.limit)
  {
    hide SetCompact, GetCompact, MpiLength, NextBits;
    CompactLoss(p.limit);
  }

  /** The genesis blocks of both networks meet the hypotheses of `TargetsInRange` and
      `MainNetworkSteps`, and neither has the bits of the limit. */
  lemma GenesisInRange(testnet: bool)
    ensures var p := if testnet then TEST_NETWORK else MAIN_NETWORK;
            var genesis := if testnet then TEST_GENESIS else MAIN_GENESIS;
            && ValidLimit(p.limit) && p.testnet == testnet
            && InRange(p, genesis.nBits) && Follows(p, [genesis]) && genesis.nBits != GetCompact(p.limit)
  {
    hide SetCompact, GetCompact, MpiLength, NextBits, InRange, Follows, ValidLimit, Pow256;
    FourPowers(28);
    if testnet {
      LimitLength(TEST_NETWORK.limit);
      CompactValue(0x1d, 0x07, 0xff, 0xf8);
      FirstBlock(TEST_NETWORK, TEST_GENESIS);
    } else {
      LimitLength(MAIN_NETWORK.limit);
      CompactValue(0x1c, 0x00, 0x7f, 0xff);
      FirstBlock(MAIN_NETWORK, MAIN_GENESIS);
    }
  }

  /** No target is above 2^224 - 1, on the test network 2^228 - 1. */
  lemma NetworkLimits()
    ensures MAIN_NETWORK.limit == 0xffffffff_ffffffff_ffffffff_ffffffff_ffffffff_ffffffff_ffffffff
    ensures TEST_NETWORK.limit == 0xf_ffffffff_ffffffff_ffffffff_ffffffff_ffffffff_ffffffff_ffffffff
  {
    EightBytes(0);
    EightBytes(8);
    EightBytes(16);
    FourBytes(24);
  }

  lemma PeriodBlocks(p: Params, branch: seq<Head>, nTime: Time)
    requires NonNegative(branch) && branch != [] && |branch| % 2016 == 0
    ensures var first := if |branch| > p.fullRetargetStart && |branch| > 2016 then |branch| - 2017 else |branch| - 2016;
            var last := branch[|branch| - 1];
            NextBits(p, branch, nTime) == Retarget(last.nBits, last.nTime - branch[first].nTime, p.limit)
  {
    hide Retarget, GetCompact;
  }

  /** Which two block times count at the end of a period: on the main network 2015 blocks apart until
      block 19200 and 2016 afterwards, on the test network 2016 from the second period on. */
  lemma NetworkPeriods(branch: seq<Head>, nTime: Time)
    requires NonNegative(branch) && branch != [] && |branch| % 2016 == 0
    ensures var main := if |branch| > 19200 then |branch| - 2017 else |branch| - 2016;
            var test := if |branch| > 2016 then |branch| - 2017 else 0;
            var last := branch[|branch| - 1];
            && NextBits(MAIN_NETWORK, branch, nTime)
                 == Retarget(last.nBits, last.nTime - branch[main].nTime, MAIN_NETWORK.limit)
            && NextBits(TEST_NETWORK, branch, nTime)
                 == Retarget(last.nBits, last.nTime - branch[test].nTime, TEST_NETWORK.limit)
  {
    hide Retarget, Pow256, NextBits;
    PeriodBlocks(MAIN_NETWORK, branch, nTime);
    PeriodBlocks(TEST_NETWORK, branch, nTime);
  }
}
