/** Assembling a block from the memory pool (src/main.cpp). */
module Miner {
  import opened Common
  import opened ChainTypes
  import opened Connect
  import opened TestPool
  import opened MinerFees
  import opened NameRules
  import opened Supply

  const MAX_BLOCK_SIZE_GEN := 500000
  const MAX_BLOCK_SIGOPS := 20000

  /** What CreateNewBlock consults besides the chain: which transactions are final, which inputs
      wait for a pool transaction, minimum fees, signature operations, the other reasons to pass a
      transaction over, and the coinbase for a value. */
  datatype Policy = Policy(
    isFinal: Tx -> bool,
    depends: (Tx, nat) -> bool,
    minFee: (nat, Tx) -> int,
    sigOps: Tx -> nat,
    passOver: (seq<Tx>, Tx) -> bool,
    coinbase: int -> Tx)

  ghost predicate ValidCoinbase(policy: Policy) {
    forall v :: policy.coinbase(v).IsCoinBase() && SumOut(policy.coinbase(v).vout) == v
  }

  function DependsOn(policy: Policy, tx: Tx): set<Hash> {
    set i | 0 <= i < |tx.vin| && policy.depends(tx, i) :: tx.vin[i].hash
  }

  function SumOps(policy: Policy, vtx: seq<Tx>): nat {
    if vtx == [] then 0 else SumOps(policy, vtx[..|vtx| - 1]) + policy.sigOps(vtx[|vtx| - 1])
  }

  predicate Minable(policy: Policy, mem: Pool, h: Hash) {
    h in mem.txs && !mem.txs[h].IsCoinBase() && policy.isFinal(mem.txs[h])
  }

  /** What has been taken so far, with its fees. */
  ghost predicate Sound(site: Site, mem: Pool, s: Indexes, vtx: seq<Tx>, c: Assembly, total: int)
    requires site.Valid()
  {
    Assembled(site, mem, s, vtx, c) && Solvent(site, mem, s, c, total) && total <= MAX_MONEY
  }

  /** Why a candidate is not taken: the block would be too large, or have too many signature
      operations; it is passed over for another reason; or it does not connect with the fee asked. */
  predicate PassedOver(site: Site, mem: Pool, s: Indexes, policy: Policy, vtx: seq<Tx>, nBlockSize: nat,
                       nBlockSigOps: nat, c: Assembly, tx: Tx)
    requires site.Valid()
  {
    || nBlockSize + tx.size >= 500000 || nBlockSigOps + policy.sigOps(tx) >= 20000 || policy.passOver(vtx, tx)
    || MinerConnect(site, mem, s, policy.minFee(nBlockSize, tx), c, tx).Skipped?
  }

  /** One candidate of CreateNewBlock.  Its fee never takes the total out of range. */
  method TryTransaction(site: Site, mem: Pool, s: Indexes, policy: Policy, vtx: seq<Tx>, nBlockSize: nat,
                        nBlockSigOps: nat, c: Assembly, tx: Tx, ghost total: int)
    returns (taken: bool, d: Assembly)
    requires site.Valid() && FromPool(mem, tx) && Sound(site, mem, s, vtx, c, total)
    ensures Sound(site, mem, s, if taken then vtx + [tx] else vtx, d, total)
    ensures taken <==> !PassedOver(site, mem, s, policy, vtx, nBlockSize, nBlockSigOps, c, tx)
    ensures !taken ==> d == c
  {
    hide MinerConnect, Assembled, Solvent, FromPool;
    taken, d := false, c;
    if nBlockSize + tx.size >= MAX_BLOCK_SIZE_GEN || nBlockSigOps + policy.sigOps(tx) >= MAX_BLOCK_SIGOPS
       || policy.passOver(vtx, tx) {
      return;
    }
    var minFee := policy.minFee(nBlockSize, tx);
    FeesNeverOverflow(site, mem, s, minFee, c, tx, total);
    match MinerConnect(site, mem, s, minFee, c, tx) {
      case Skipped =>
      case Overflowed(_) =>
        assert false;
      case Taken(next) =>
        TakeOne(site, mem, s, minFee, c, vtx, tx, next);
        taken, d := true, next;
    }
  }

  // ----- every candidate is accounted for -----

  function Ids(vtx: seq<Tx>): set<Hash> {
    set i | 0 <= i < |vtx| :: vtx[i].txid
  }

  /** The transaction was tried at some point of the assembly, and not taken. */
  ghost predicate TriedInVain(site: Site, mem: Pool, s: Indexes, policy: Policy, vtx: seq<Tx>, tx: Tx)
    requires site.Valid()
  {
    exists i: nat, c :: i <= |vtx| && InVainAt(site, mem, s, policy, vtx[..i], c, tx)
  }

  ghost predicate InVainAt(site: Site, mem: Pool, s: Indexes, policy: Policy, front: seq<Tx>, c: Assembly, tx: Tx)
    requires site.Valid()
  {
    && Assembled(site, mem, s, front, c)
    && PassedOver(site, mem, s, policy, front, 1000 + SumSizes(front, |front|), 100 + SumOps(policy, front), c, tx)
  }

  /** A minable transaction is in the block, in the queue, waiting for exactly the transactions it
      depends on that are not in the block, or was tried in vain. */
  ghost predicate Accounted(site: Site, mem: Pool, s: Indexes, policy: Policy, vtx: seq<Tx>, ready: set<Hash>,
                            waiting: map<Hash, set<Hash>>, h: Hash)
    requires site.Valid() && h in mem.txs
  {
    || h in Ids(vtx) || h in ready
    || (h in waiting && waiting[h] != {} && waiting[h] == DependsOn(policy, mem.txs[h]) - Ids(vtx))
    || TriedInVain(site, mem, s, policy, vtx, mem.txs[h])
  }

  ghost predicate AllAccounted(site: Site, mem: Pool, s: Indexes, policy: Policy, vtx: seq<Tx>, ready: set<Hash>,
                               waiting: map<Hash, set<Hash>>)
    requires site.Valid()
  {
    forall h :: Minable(policy, mem, h) ==> Accounted(site, mem, s, policy, vtx, ready, waiting, h)
  }

  lemma TriedLonger(site: Site, mem: Pool, s: Indexes, policy: Policy, vtx: seq<Tx>, more: Tx, tx: Tx)
    requires site.Valid() && TriedInVain(site, mem, s, policy, vtx, tx)
    ensures TriedInVain(site, mem, s, policy, vtx + [more], tx)
  {
    hide InVainAt;
    var i: nat, c :| i <= |vtx| && InVainAt(site, mem, s, policy, vtx[..i], c, tx);
    assert (vtx + [more])[..i] == vtx[..i];
  }

  lemma IdsLonger(vtx: seq<Tx>, tx: Tx)
    ensures Ids(vtx + [tx]) == Ids(vtx) + {tx.txid}
  {
    var longer := vtx + [tx];
    assert forall i :: 0 <= i < |vtx| ==> longer[i] == vtx[i];
    assert longer[|vtx|] == tx;
    forall h | h in Ids(vtx) ensures h in Ids(longer) {
      var i :| 0 <= i < |vtx| && vtx[i].txid == h;
      assert longer[i].txid == h;
    }
  }

  /** A candidate tried in vain leaves the queue. */
  lemma PassAccounted(site: Site, mem: Pool, s: Indexes, policy: Policy, vtx: seq<Tx>, ready: set<Hash>,
                      waiting: map<Hash, set<Hash>>, hash: Hash, c: Assembly)
    requires site.Valid() && AllAccounted(site, mem, s, policy, vtx, ready, waiting) && hash in mem.txs
    requires InVainAt(site, mem, s, policy, vtx, c, mem.txs[hash])
    ensures AllAccounted(site, mem, s, policy, vtx, ready - {hash}, waiting)
  {
    hide InVainAt, Ids, DependsOn;
    assert vtx[..|vtx|] == vtx;
    forall h | Minable(policy, mem, h) ensures Accounted(site, mem, s, policy, vtx, ready - {hash}, waiting, h) {
      assert Accounted(site, mem, s, policy, vtx, ready, waiting, h);
    }
  }

  /** One that is taken releases what waited only for it. */
  lemma TakeAccounted(site: Site, mem: Pool, s: Indexes, policy: Policy, vtx: seq<Tx>, ready: set<Hash>,
                      waiting: map<Hash, set<Hash>>, hash: Hash, more: set<Hash>, left: map<Hash, set<Hash>>)
    requires site.Valid() && AllAccounted(site, mem, s, policy, vtx, ready, waiting)
    requires hash in mem.txs && mem.txs[hash].txid == hash
    requires more == ready - {hash} + ReleasedBy(waiting, hash) && left == LeftBy(waiting, hash)
    ensures AllAccounted(site, mem, s, policy, vtx + [mem.txs[hash]], more, left)
  {
    hide Ids, DependsOn, TriedInVain;
    var longer := vtx + [mem.txs[hash]];
    IdsLonger(vtx, mem.txs[hash]);
    forall h | Minable(policy, mem, h) ensures Accounted(site, mem, s, policy, longer, more, left, h) {
      assert Accounted(site, mem, s, policy, vtx, ready, waiting, h);
      if TriedInVain(site, mem, s, policy, vtx, mem.txs[h]) {
        TriedLonger(site, mem, s, policy, vtx, mem.txs[hash], mem.txs[h]);
      } else if h in waiting && waiting[h] != {hash} && waiting[h] != {} {
        var d :| d in waiting[h] && (d != hash || waiting[h] == {hash});
        assert d in waiting[h] - {hash};
      }
    }
  }

  /** What waited only for one transaction, and what the others still wait for. */
  function ReleasedBy(waiting: map<Hash, set<Hash>>, hash: Hash): set<Hash> {
    set h | h in waiting && waiting[h] == {hash}
  }

  function LeftBy(waiting: map<Hash, set<Hash>>, hash: Hash): map<Hash, set<Hash>> {
    map h | h in waiting && waiting[h] != {hash} :: waiting[h] - {hash}
  }

  /** The queue holds minable transactions, each at most once and none that is in the block. */
  ghost predicate Queued(policy: Policy, mem: Pool, vtx: seq<Tx>, ready: set<Hash>, waiting: map<Hash, set<Hash>>) {
    && (forall h :: h in ready || h in waiting ==> Minable(policy, mem, h))
    && (forall h :: h in ready ==> h !in waiting)
    && (forall j :: 0 <= j < |vtx| ==> InBlockOnly(policy, mem, vtx[j], ready, waiting))
    && DistinctTxids(vtx)
  }

  predicate InBlockOnly(policy: Policy, mem: Pool, tx: Tx, ready: set<Hash>, waiting: map<Hash, set<Hash>>) {
    Minable(policy, mem, tx.txid) && mem.txs[tx.txid] == tx && tx.txid !in ready && tx.txid !in waiting
  }

  lemma QueueShrinks(policy: Policy, mem: Pool, vtx: seq<Tx>, ready: set<Hash>, waiting: map<Hash, set<Hash>>,
                     hash: Hash)
    requires Queued(policy, mem, vtx, ready, waiting) && hash in ready && mem.txs[hash].txid == hash
    ensures Queued(policy, mem, vtx, ready - {hash}, waiting)
    ensures Queued(policy, mem, vtx + [mem.txs[hash]], ready - {hash}, waiting)
  {
    var longer := vtx + [mem.txs[hash]];
    forall j | 0 <= j < |longer| ensures InBlockOnly(policy, mem, longer[j], ready - {hash}, waiting) {
      if j < |vtx| {
        assert InBlockOnly(policy, mem, vtx[j], ready, waiting);
      }
    }
    forall j | 0 <= j < |vtx| ensures InBlockOnly(policy, mem, vtx[j], ready - {hash}, waiting) {
      assert InBlockOnly(policy, mem, vtx[j], ready, waiting);
    }
  }

  lemma QueueReleases(policy: Policy, mem: Pool, vtx: seq<Tx>, ready: set<Hash>, waiting: map<Hash, set<Hash>>,
                      left: map<Hash, set<Hash>>, released: set<Hash>)
    requires Queued(policy, mem, vtx, ready, waiting) && released <= waiting.Keys
             && left.Keys == waiting.Keys - released
    ensures Queued(policy, mem, vtx, ready + released, left)
    ensures |left.Keys| <= |waiting.Keys| && (released != {} ==> |left.Keys| < |waiting.Keys|)
  {
    assert waiting.Keys == left.Keys + released;
    forall j | 0 <= j < |vtx| ensures InBlockOnly(policy, mem, vtx[j], ready + released, left) {
      assert InBlockOnly(policy, mem, vtx[j], ready, waiting);
    }
  }

  /** Makes ready what waited only for the transaction that was taken. */
  method Release(policy: Policy, mem: Pool, vtx: seq<Tx>, ready: set<Hash>, waiting: map<Hash, set<Hash>>, hash: Hash)
    returns (more: set<Hash>, left: map<Hash, set<Hash>>)
    requires Queued(policy, mem, vtx, ready, waiting)
    ensures Queued(policy, mem, vtx, more, left)
    ensures |left.Keys| < |waiting.Keys| || (|left.Keys| == |waiting.Keys| && more == ready)
    ensures more == ready + ReleasedBy(waiting, hash) && left == LeftBy(waiting, hash)
  {
    hide Queued;
    var released := set h | h in waiting && waiting[h] == {hash};
    left := map h | h in waiting && waiting[h] != {hash} :: waiting[h] - {hash};
    QueueReleases(policy, mem, vtx, ready, waiting, left, released);
    more := ready + released;
    if released == {} {
      assert left.Keys == waiting.Keys;
    }
  }

  /** The collecting loop of CreateNewBlock.  Priorities only decide which of the ready
      transactions comes next, so any of them may.  Every minable transaction is taken, unless one it
      depends on is not, or it was tried in vain at some point of the assembly. */
  method CollectTransactions(site: Site, mem: Pool, s: Indexes, policy: Policy, ghost sites: seq<Site>)
    returns (vtx: seq<Tx>, c: Assembly)
    requires OnBestChain(site, s, sites) && forall h :: h in mem.txs ==> mem.txs[h].txid == h
    ensures forall j :: 0 <= j < |vtx| ==> Minable(policy, mem, vtx[j].txid) && mem.txs[vtx[j].txid] == vtx[j]
    ensures DistinctTxids(vtx)
    ensures 1000 + SumSizes(vtx, |vtx|) < 500000 && 100 + SumOps(policy, vtx) < 20000
    ensures site.Valid() && MoneyRange(c.fees) && Assembled(site, mem, s, vtx, c)
    ensures forall h :: Minable(policy, mem, h) && DependsOn(policy, mem.txs[h]) <= Ids(vtx) ==>
                          h in Ids(vtx) || TriedInVain(site, mem, s, policy, vtx, mem.txs[h])
  {
    hide MinerConnect, Assembled, Queued, DistinctTxids, Solvent, OnBestChain, Sound, AllAccounted, PassedOver,
         DependsOn, Ids, TriedInVain, ReleasedBy, LeftBy;
    var ready := set h | h in mem.txs && Minable(policy, mem, h) && DependsOn(policy, mem.txs[h]) == {};
    var waiting :=
      map h | h in mem.txs && Minable(policy, mem, h) && DependsOn(policy, mem.txs[h]) != {} ::
        DependsOn(policy, mem.txs[h]);
    vtx, c := [], Assembly(map[], 0);
    ghost var total := StartsSolvent(site, mem, s, sites);
    NothingAssembled(site, mem, s, total);
    QueueStarts(policy, mem, ready, waiting);
    StartAccounted(site, mem, s, policy, ready, waiting);
    var nBlockSize, nBlockSigOps: nat := 1000, 100;
    while ready != {}
      invariant Queued(policy, mem, vtx, ready, waiting)
      invariant nBlockSize == 1000 + SumSizes(vtx, |vtx|) < MAX_BLOCK_SIZE_GEN
                && nBlockSigOps == 100 + SumOps(policy, vtx) < MAX_BLOCK_SIGOPS
      invariant site.Valid() && Sound(site, mem, s, vtx, c, total)
      invariant AllAccounted(site, mem, s, policy, vtx, ready, waiting)
      decreases |waiting.Keys|, |ready|
    {
      var hash :| hash in ready;
      QueueMinable(policy, mem, vtx, ready, waiting, hash);
      QueueShrinks(policy, mem, vtx, ready, waiting, hash);
      ghost var queue, front, before := ready, vtx, c;
      ready := ready - {hash};
      var tx := mem.txs[hash];
      var taken;
      taken, c := TryTransaction(site, mem, s, policy, vtx, nBlockSize, nBlockSigOps, c, tx, total);
      SizesAllowed(site, mem, s, policy, vtx, nBlockSize, nBlockSigOps, before, tx);
      if taken {
        OneMore(policy, vtx, tx);
        vtx := vtx + [tx];
        nBlockSize := nBlockSize + tx.size;
        nBlockSigOps := nBlockSigOps + policy.sigOps(tx);
        ghost var waited := waiting;
        ready, waiting := Release(policy, mem, vtx, ready, waiting, hash);
        TakeAccounted(site, mem, s, policy, front, queue, waited, hash, ready, waiting);
      } else {
        InVain(site, mem, s, policy, vtx, nBlockSize, nBlockSigOps, before, tx, total);
        PassAccounted(site, mem, s, policy, vtx, queue, waiting, hash, before);
      }
    }
    QueueEnds(policy, mem, vtx, ready, waiting);
    EndAccounted(site, mem, s, policy, vtx, waiting);
    SoundEnds(site, mem, s, vtx, c, total);
  }

  lemma SizesAllowed(site: Site, mem: Pool, s: Indexes, policy: Policy, vtx: seq<Tx>, nBlockSize: nat,
                     nBlockSigOps: nat, c: Assembly, tx: Tx)
    requires site.Valid()
    ensures !PassedOver(site, mem, s, policy, vtx, nBlockSize, nBlockSigOps, c, tx) ==>
              nBlockSize + tx.size < 500000 && nBlockSigOps + policy.sigOps(tx) < 20000
  {
    hide MinerConnect;
  }

  lemma InVain(site: Site, mem: Pool, s: Indexes, policy: Policy, vtx: seq<Tx>, nBlockSize: nat, nBlockSigOps: nat,
               c: Assembly, tx: Tx, total: int)
    requires site.Valid() && PassedOver(site, mem, s, policy, vtx, nBlockSize, nBlockSigOps, c, tx)
    requires nBlockSize == 1000 + SumSizes(vtx, |vtx|) && nBlockSigOps == 100 + SumOps(policy, vtx)
    requires Sound(site, mem, s, vtx, c, total)
    ensures InVainAt(site, mem, s, policy, vtx, c, tx)
  {
    hide PassedOver, Assembled, Solvent;
  }

  lemma StartAccounted(site: Site, mem: Pool, s: Indexes, policy: Policy, ready: set<Hash>,
                       waiting: map<Hash, set<Hash>>)
    requires site.Valid()
    requires forall h :: Minable(policy, mem, h) && DependsOn(policy, mem.txs[h]) == {} ==> h in ready
    requires forall h :: Minable(policy, mem, h) && DependsOn(policy, mem.txs[h]) != {} ==>
                           h in waiting && waiting[h] == DependsOn(policy, mem.txs[h])
    ensures AllAccounted(site, mem, s, policy, [], ready, waiting)
  {
    hide DependsOn, Minable, TriedInVain;
    assert Ids([]) == {};
  }

  lemma EndAccounted(site: Site, mem: Pool, s: Indexes, policy: Policy, vtx: seq<Tx>, waiting: map<Hash, set<Hash>>)
    requires site.Valid() && AllAccounted(site, mem, s, policy, vtx, {}, waiting)
    ensures forall h :: Minable(policy, mem, h) && DependsOn(policy, mem.txs[h]) <= Ids(vtx) ==>
                          h in Ids(vtx) || TriedInVain(site, mem, s, policy, vtx, mem.txs[h])
  {
    hide DependsOn, TriedInVain, Ids;
    forall h | Minable(policy, mem, h) && DependsOn(policy, mem.txs[h]) <= Ids(vtx)
      ensures h in Ids(vtx) || TriedInVain(site, mem, s, policy, vtx, mem.txs[h])
    {
      assert Accounted(site, mem, s, policy, vtx, {}, waiting, h);
    }
  }

  lemma SoundEnds(site: Site, mem: Pool, s: Indexes, vtx: seq<Tx>, c: Assembly, total: int)
    requires site.Valid() && Sound(site, mem, s, vtx, c, total)
    ensures MoneyRange(c.fees) && Assembled(site, mem, s, vtx, c)
  {
    hide Assembled, Solvent;
    SolventInRange(site, mem, s, c, total);
  }

  lemma QueueStarts(policy: Policy, mem: Pool, ready: set<Hash>, waiting: map<Hash, set<Hash>>)
    requires forall h :: h in ready || h in waiting ==> Minable(policy, mem, h)
    requires forall h :: h in ready ==> h !in waiting
    ensures Queued(policy, mem, [], ready, waiting)
  {
  }

  lemma QueueMinable(policy: Policy, mem: Pool, vtx: seq<Tx>, ready: set<Hash>, waiting: map<Hash, set<Hash>>,
                     hash: Hash)
    requires Queued(policy, mem, vtx, ready, waiting) && hash in ready
    ensures Minable(policy, mem, hash)
  {
  }

  lemma QueueEnds(policy: Policy, mem: Pool, vtx: seq<Tx>, ready: set<Hash>, waiting: map<Hash, set<Hash>>)
    requires Queued(policy, mem, vtx, ready, waiting)
    ensures DistinctTxids(vtx)
    ensures forall j :: 0 <= j < |vtx| ==> Minable(policy, mem, vtx[j].txid) && mem.txs[vtx[j].txid] == vtx[j]
  {
    forall j | 0 <= j < |vtx| ensures Minable(policy, mem, vtx[j].txid) && mem.txs[vtx[j].txid] == vtx[j] {
      assert InBlockOnly(policy, mem, vtx[j], ready, waiting);
    }
  }

  lemma NothingAssembled(site: Site, mem: Pool, s: Indexes, total: int)
    requires site.Valid() && Solvent(site, mem, s, Assembly(map[], 0), total) && total <= MAX_MONEY
    ensures Sound(site, mem, s, [], Assembly(map[], 0), total)
  {
    hide Solvent;
  }

  lemma TakeOne(site: Site, mem: Pool, s: Indexes, minFee: int, c: Assembly, vtx: seq<Tx>, tx: Tx, d: Assembly)
    requires site.Valid() && Assembled(site, mem, s, vtx, c) && MinerConnect(site, mem, s, minFee, c, tx) == Taken(d)
    ensures Assembled(site, mem, s, vtx + [tx], d)
  {
    hide MinerConnect;
    assert Front(vtx + [tx]) == vtx && Last(vtx + [tx]) == tx;
    assert TakenBy(site, mem, s, c, tx, d);
  }

  lemma OneMore(policy: Policy, vtx: seq<Tx>, tx: Tx)
    ensures SumSizes(vtx + [tx], |vtx| + 1) == SumSizes(vtx, |vtx|) + tx.size
    ensures SumOps(policy, vtx + [tx]) == SumOps(policy, vtx) + policy.sigOps(tx)
  {
    SizesOfFront(vtx, tx, |vtx|);
    assert (vtx + [tx])[..|vtx|] == vtx;
  }

  lemma {:induction false} SizesOfFront(vtx: seq<Tx>, tx: Tx, n: nat)
    requires n <= |vtx|
    ensures SumSizes(vtx + [tx], n) == SumSizes(vtx, n)
  {
    if n > 0 {
      SizesOfFront(vtx, tx, n - 1);
    }
  }

  /** CreateNewBlock, up to the header: the coinbase claims 50 coins, halved once per 210000 blocks,
      and the fees. */
  method CreateNewBlock(site: Site, mem: Pool, s: Indexes, policy: Policy, ghost sites: seq<Site>)
    returns (vtx: seq<Tx>, c: Assembly)
    requires OnBestChain(site, s, sites) && ValidCoinbase(policy) && forall h :: h in mem.txs ==> mem.txs[h].txid == h
    ensures site.Valid() && vtx != [] && vtx[0].IsCoinBase()
    ensures var claim, era := SumOut(vtx[0].vout) - c.fees, Pow2((site.Height() + 1) / 210000);
            claim * era <= 5000000000 < (claim + 1) * era
    ensures forall j :: 1 <= j < |vtx| ==> !vtx[j].IsCoinBase() && FromPool(mem, vtx[j])
    ensures DistinctTxids(vtx[1..])
    ensures 1000 + SumSizes(vtx[1..], |vtx| - 1) < 500000 && 100 + SumOps(policy, vtx[1..]) < 20000
    ensures MoneyRange(c.fees) && Assembled(site, mem, s, vtx[1..], c)
    ensures forall h :: Minable(policy, mem, h) && DependsOn(policy, mem.txs[h]) <= Ids(vtx[1..]) ==>
                          h in Ids(vtx[1..]) || TriedInVain(site, mem, s, policy, vtx[1..], mem.txs[h])
  {
    hide Assembled, OnBestChain, ShiftRight, Pow2, TriedInVain, Ids, DependsOn, SumOut;
    assert site.Valid() by {
      BestChainValid(site, s, sites);
    }
    var txs;
    txs, c := CollectTransactions(site, mem, s, policy, sites);
    ShiftExact(50 * COIN, (site.Height() + 1) / 210000);
    vtx := [policy.coinbase(BlockValue(site.Height() + 1, c.fees))] + txs;
    assert vtx[1..] == txs;
  }
}
