/** The greedy matching of signatures to keys in OP_CHECKMULTISIG (src/script.cpp). */
module Multisig {
  import opened Common

  type SigCheck = (Bytes, Bytes) -> bool

  /** What the loop decides; the next signature and the next key are the first ones. */
  function Greedy(check: SigCheck, sigs: seq<Bytes>, keys: seq<Bytes>): bool
    decreases |keys|
  {
    if sigs == [] then true
    else if |sigs| > |keys| then false
    else Greedy(check, if check(sigs[0], keys[0]) then sigs[1..] else sigs, keys[1..])
  }

  /** How many signatures the loop checks. */
  function GreedyChecks(check: SigCheck, sigs: seq<Bytes>, keys: seq<Bytes>): (n: nat)
    ensures n <= |keys|
    decreases |keys|
  {
    if sigs == [] || |sigs| > |keys| then 0
    else 1 + GreedyChecks(check, if check(sigs[0], keys[0]) then sigs[1..] else sigs, keys[1..])
  }

  method MatchSignatures(check: SigCheck, sigs: seq<Bytes>, keys: seq<Bytes>) returns (fSuccess: bool, nChecks: nat)
    requires |sigs| <= |keys|
    ensures fSuccess == Greedy(check, sigs, keys)
    ensures nChecks == GreedyChecks(check, sigs, keys)
  {
    var isig, ikey := 0, 0;
    var nSigsCount, nKeysCount := |sigs|, |keys|;
    fSuccess, nChecks := true, 0;
    while fSuccess && nSigsCount > 0
      invariant 0 <= isig == |sigs| - nSigsCount <= |sigs| && 0 <= ikey == |keys| - nKeysCount <= |keys|
      invariant fSuccess <==> nSigsCount <= nKeysCount
      invariant Greedy(check, sigs[isig..], keys[ikey..]) == Greedy(check, sigs, keys)
      invariant nChecks + GreedyChecks(check, sigs[isig..], keys[ikey..]) == GreedyChecks(check, sigs, keys)
      decreases nKeysCount
    {
      if check(sigs[isig], keys[ikey]) {
        isig := isig + 1;
        nSigsCount := nSigsCount - 1;
      }
      ikey := ikey + 1;
      nKeysCount := nKeysCount - 1;
      nChecks := nChecks + 1;
      if nSigsCount > nKeysCount {
        fSuccess := false;
      }
    }
  }

  /** Each signature gets a key of its own, in the same order, that verifies it. */
  ghost predicate Matching(check: SigCheck, sigs: seq<Bytes>, keys: seq<Bytes>, f: seq<nat>) {
    && |f| == |sigs|
    && (forall i :: 0 <= i < |f| ==> f[i] < |keys| && check(sigs[i], keys[f[i]]))
    && (forall i, j :: 0 <= i < j < |f| ==> f[i] < f[j])
  }

  ghost predicate Matchable(check: SigCheck, sigs: seq<Bytes>, keys: seq<Bytes>) {
    exists f: seq<nat> :: Matching(check, sigs, keys, f)
  }

  function Later(f: seq<nat>): (g: seq<nat>)
    ensures |g| == |f| && forall i :: 0 <= i < |f| ==> g[i] == f[i] + 1
  {
    seq(|f|, i requires 0 <= i < |f| => f[i] + 1)
  }

  function Earlier(f: seq<nat>): (g: seq<nat>)
    requires forall i :: 0 <= i < |f| ==> f[i] > 0
    ensures |g| == |f| && forall i :: 0 <= i < |f| ==> g[i] == f[i] - 1
  {
    seq(|f|, i requires 0 <= i < |f| => f[i] - 1)
  }

  lemma UseFirstKey(check: SigCheck, sigs: seq<Bytes>, keys: seq<Bytes>, g: seq<nat>)
    requires sigs != [] && keys != [] && check(sigs[0], keys[0]) && Matching(check, sigs[1..], keys[1..], g)
    ensures Matching(check, sigs, keys, [0] + Later(g))
  {
    var f := [0] + Later(g);
    forall i | 0 <= i < |f| ensures f[i] < |keys| && check(sigs[i], keys[f[i]]) {
      if i > 0 {
        assert sigs[i] == sigs[1..][i - 1] && keys[f[i]] == keys[1..][g[i - 1]];
      }
    }
  }

  lemma SkipFirstKey(check: SigCheck, sigs: seq<Bytes>, keys: seq<Bytes>, g: seq<nat>)
    requires keys != [] && Matching(check, sigs, keys[1..], g)
    ensures Matching(check, sigs, keys, Later(g))
  {
  }

  /** When the greedy loop succeeds there is a matching. */
  lemma {:induction false} GreedySound(check: SigCheck, sigs: seq<Bytes>, keys: seq<Bytes>) returns (f: seq<nat>)
    requires Greedy(check, sigs, keys)
    ensures Matching(check, sigs, keys, f)
    decreases |keys|
  {
    if sigs == [] {
      f := [];
    } else {
      hide Matching;
      if check(sigs[0], keys[0]) {
        var g := GreedySound(check, sigs[1..], keys[1..]);
        UseFirstKey(check, sigs, keys, g);
        f := [0] + Later(g);
      } else {
        var g := GreedySound(check, sigs, keys[1..]);
        SkipFirstKey(check, sigs, keys, g);
        f := Later(g);
      }
    }
  }

  lemma {:induction false} MatchingFits(check: SigCheck, sigs: seq<Bytes>, keys: seq<Bytes>, f: seq<nat>, i: nat)
    requires Matching(check, sigs, keys, f) && i < |f|
    ensures i <= f[i]
    decreases i
  {
    if i > 0 {
      MatchingFits(check, sigs, keys, f, i - 1);
    }
  }

  lemma FirstKeyFree(check: SigCheck, sigs: seq<Bytes>, keys: seq<Bytes>, f: seq<nat>)
    requires Matching(check, sigs, keys, f) && sigs != [] && f[0] > 0
    ensures Matchable(check, sigs, keys[1..])
  {
    MatchingPositive(check, sigs, keys, f);
    assert Matching(check, sigs, keys[1..], Earlier(f));
  }

  lemma MatchingPositive(check: SigCheck, sigs: seq<Bytes>, keys: seq<Bytes>, f: seq<nat>)
    requires Matching(check, sigs, keys, f) && sigs != []
    ensures forall i :: 0 < i < |f| ==> f[0] < f[i]
    ensures keys != []
  {
    assert f[0] < |keys|;
  }

  lemma FirstKeyUsed(check: SigCheck, sigs: seq<Bytes>, keys: seq<Bytes>, f: seq<nat>)
    requires Matching(check, sigs, keys, f) && sigs != [] && keys != []
    ensures Matchable(check, sigs[1..], keys[1..])
  {
    MatchingPositive(check, sigs, keys, f);
    var g := Earlier(f[1..]);
    forall i | 0 <= i < |g| ensures g[i] < |keys| - 1 && check(sigs[1..][i], keys[1..][g[i]]) {
      assert sigs[1..][i] == sigs[i + 1] && keys[1..][g[i]] == keys[f[i + 1]];
    }
    assert Matching(check, sigs[1..], keys[1..], g);
  }

  /** Taking the first key that verifies never spoils a matching. */
  lemma {:induction false} GreedyComplete(check: SigCheck, sigs: seq<Bytes>, keys: seq<Bytes>, f: seq<nat>)
    requires Matching(check, sigs, keys, f)
    ensures Greedy(check, sigs, keys)
    decreases |keys|
  {
    if sigs != [] {
      MatchingFits(check, sigs, keys, f, |f| - 1);
      assert |sigs| <= |keys|;
      if check(sigs[0], keys[0]) {
        FirstKeyUsed(check, sigs, keys, f);
        var g: seq<nat> :| Matching(check, sigs[1..], keys[1..], g);
        hide Matching;
        GreedyComplete(check, sigs[1..], keys[1..], g);
      } else {
        assert f[0] > 0;
        FirstKeyFree(check, sigs, keys, f);
        var g: seq<nat> :| Matching(check, sigs, keys[1..], g);
        hide Matching;
        GreedyComplete(check, sigs, keys[1..], g);
      }
    }
  }

  /** The loop succeeds if and only if an order-preserving injection from signatures to keys
      exists in which every pair verifies. */
  lemma GreedyExact(check: SigCheck, sigs: seq<Bytes>, keys: seq<Bytes>)
    ensures Greedy(check, sigs, keys) <==> Matchable(check, sigs, keys)
  {
    if Greedy(check, sigs, keys) {
      var f := GreedySound(check, sigs, keys);
    }
    if Matchable(check, sigs, keys) {
      var f: seq<nat> :| Matching(check, sigs, keys, f);
      GreedyComplete(check, sigs, keys, f);
    }
  }
}
