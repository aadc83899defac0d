/** Name transactions accepted for mining are accepted one block later (src/namecoin.cpp). */
module MinedNames {
  import opened Common
  import opened ScriptCode
  import opened NameScript
  import opened ChainTypes
  import opened NameRules
  import opened Connect
  import opened Undo
  import opened TestPool
  import opened MinedBlock
  import Compact

  // ----- the name rules one height later -----

  /** The fee at a height counted four times as fast from 24000 on. */
  function FeeAt(start: nat, h: nat): int {
    if h / 8192 >= 60 then 0 else ShiftRight(start, h / 8192) - ShiftRight(ShiftRight(start, h / 8192), 14) * (h % 8192)
  }

  lemma {:induction false} ShiftDivides(v: nat, k: nat)
    ensures k > 0 ==> ShiftRight(v, k) == ShiftRight(v, k - 1) / 2
    decreases k
  {
    if k > 1 {
      ShiftDivides(v / 2, k - 1);
    }
  }

  lemma TwoShifts(v: nat)
    ensures ShiftRight(v, 2) == v / 4
  {
    assert ShiftRight(v, 2) == ShiftRight(v / 2, 1) == ShiftRight(v / 2 / 2, 0);
  }

  /** Shifting by `a` and then by `b`, when both are known divisions. */
  lemma ShiftTwice(v: nat, a: nat, p: nat, b: nat, q: nat)
    requires p > 0 && q > 0 && (forall u: nat :: ShiftRight(u, a) == u / p)
             && (forall u: nat :: ShiftRight(u, b) == u / q)
    ensures ShiftRight(v, a + b) == v / (p * q)
  {
    ShiftSum(v, a, b);
    Compact.DivTwice(v, p, q);
  }

  lemma FourteenShifts(v: nat)
    ensures ShiftRight(v, 14) == v / 16384
  {
    hide ShiftRight;
    forall u: nat ensures ShiftRight(u, 2) == u / 4 {
      TwoShifts(u);
    }
    forall u: nat ensures ShiftRight(u, 4) == u / 16 {
      ShiftTwice(u, 2, 4, 2, 4);
    }
    forall u: nat ensures ShiftRight(u, 6) == u / 64 {
      ShiftTwice(u, 2, 4, 4, 16);
    }
    forall u: nat ensures ShiftRight(u, 8) == u / 256 {
      ShiftTwice(u, 4, 16, 4, 16);
    }
    ShiftTwice(v, 6, 64, 8, 256);
  }

  lemma {:induction false} ShiftSum(v: nat, a: nat, b: nat)
    ensures ShiftRight(v, a + b) == ShiftRight(ShiftRight(v, a), b)
    decreases a
  {
    if a > 0 {
      ShiftSum(v / 2, a - 1, b);
    }
  }

  lemma FeeStep(start: nat, h: nat)
    ensures FeeAt(start, h + 1) <= FeeAt(start, h)
  {
    var k := h / 8192;
    var r := ShiftRight(start, k);
    FourteenShifts(r);
    hide ShiftRight;
    if h % 8192 < 8191 {
      assert (h + 1) / 8192 == k && (h + 1) % 8192 == h % 8192 + 1;
      var q: nat := r / 16384;
      assert q * (h % 8192 + 1) == q * (h % 8192) + q;
    } else {
      assert (h + 1) / 8192 == k + 1 && (h + 1) % 8192 == 0;
      ShiftDivides(start, k + 1);
      assert r - (r / 16384) * 8191 >= r / 2;
    }
  }

  /** GetNetworkFee never increases. */
  lemma NetworkFeeNeverIncreases(testnet: bool, height: nat)
    ensures NetworkFee(testnet, height + 1) <= NetworkFee(testnet, height)
  {
    var start: nat := if testnet then 10 * CENT else 50 * COIN;
    var h := if height >= 24000 then height + (height - 24000) * 3 else height;
    FeeStep(start, h);
    FeeStep(start, h + 1);
    FeeStep(start, h + 2);
    FeeStep(start, h + 3);
    hide ShiftRight;
  }

  /** How deep the spent name transaction lies where the block is assembled. */
  function PrevDepth(site: Site, a: Inputs): int
    requires site.Valid() && |a.scripts| == |a.prevPos|
  {
    var prev := ScanScripts(true, a.scripts, |a.scripts|);
    if prev.found then RelativeDepth(site.path, a.prevPos[prev.index], ExpirationDepth(site.Height())) else -1
  }

  /** Past the fork, what the name hook accepts for mining it accepts one block later, when the
      history of the name is still the same; only a name_update in its last unexpired block is
      one block too late. */
  lemma MinedNameAccepted(site: Site, next: Site, mem: Pool, names: map<Name, seq<NameIndex>>,
                          now: map<Name, seq<NameIndex>>, tx: Tx, a: Inputs, q: Inputs)
    requires site.Valid() && next.Valid() && |next.path| == |site.path| + 1 && next.path[..|site.path|] == site.path
    requires next.env.testnet == site.env.testnet && next.env.hash160 == site.env.hash160
    requires PostLibcoinFork(site.env.testnet, site.Height())
    requires |a.scripts| == |a.prevPos| && |q.scripts| == |q.prevPos| && q.scripts == a.scripts
    requires var prev := ScanScripts(true, a.scripts, |a.scripts|);
             prev.found ==>
               q.prevPos[prev.index] == a.prevPos[prev.index] && !InBlock(Tip(next.path), a.prevPos[prev.index])
    requires MinerNameCheck(site, mem, names, tx, a)
    requires var d := DecodeNameTx(tx, true);
             tx.IsName() && d.good && Registers(d.op) ==> History(now, d.args[0]) == History(names, d.args[0])
    ensures NameDecision(next, now, tx, q).Ok? <==>
            (tx.IsName() && DecodeNameTx(tx, true).op == OP_NAME_UPDATE ==>
               PrevDepth(site, a) + 1 < ExpirationDepth(next.Height()))
  {
    hide ScanScripts, NetworkFee, RelativeDepth, DecodeNameTx, HasNameOutput;
    var prev := ScanScripts(true, a.scripts, |a.scripts|);
    NetworkFeeNeverIncreases(site.env.testnet, site.Height());
    assert next.path == site.path + [Tip(next.path)];
    if prev.found {
      OneDeeper(site.path, Tip(next.path), a.prevPos[prev.index], MIN_FIRSTUPDATE_DEPTH);
      OneDeeper(site.path, Tip(next.path), a.prevPos[prev.index], ExpirationDepth(next.Height()));
      DepthWithin(site.path, a.prevPos[prev.index], site.Height());
    }
  }

  /** The depth does not depend on how far the search would still have gone. */
  lemma DepthWithin(path: Chain, pos: DiskTxPos, height: nat)
    ensures var r, q :=
              RelativeDepth(path, pos, ExpirationDepth(height)), RelativeDepth(path, pos, ExpirationDepth(height + 1));
            r == if 0 <= q < ExpirationDepth(height) then q else -1
  {
    DepthCut(path, pos, ExpirationDepth(height), ExpirationDepth(height + 1), 0);
  }

  lemma {:induction false} DepthFound(path: Chain, pos: DiskTxPos, m: int, d: nat)
    requires DepthFrom(path, pos, m, d) >= 0
    ensures exists b :: b in path && InBlock(b, pos)
    decreases |path| - d
  {
    if InBlock(path[|path| - 1 - d], pos) {
      assert path[|path| - 1 - d] in path;
    } else {
      DepthFound(path, pos, m, d + 1);
    }
  }

  lemma PrevOnChain(site: Site, mem: Pool, names: map<Name, seq<NameIndex>>, tx: Tx, a: Inputs)
    requires site.Valid() && |a.scripts| == |a.prevPos| && MinerNameCheck(site, mem, names, tx, a)
    requires forall b :: b in site.path ==> !InBlock(b, POOL_POS)
    ensures var prev := ScanScripts(true, a.scripts, |a.scripts|);
            prev.found ==> a.prevPos[prev.index] != POOL_POS
  {
    hide ScanScripts, NetworkFee, DepthFrom, DecodeNameTx, HasNameOutput;
    var prev := ScanScripts(true, a.scripts, |a.scripts|);
    if prev.found {
      DepthCut(site.path, a.prevPos[prev.index], ExpirationDepth(site.Height()), ExpirationDepth(site.Height()), 0);
      DepthFound(site.path, a.prevPos[prev.index], ExpirationDepth(site.Height()), 0);
    }
  }

  /** What a taken transaction spends through a name script lies on the chain, and stands at the
      same position, outside of the block, when the block is connected. */
  lemma TakenPrev(site: Site, mem: Pool, s: Indexes, next: Site, n: nat, testPool: map<Hash, TxIndex>, tx: Tx,
                  t: map<Hash, TxIndex>)
    requires Placed(site, mem, s.txs, next) && 0 < n <= |Tip(next.path).block.vtx|
    requires forall b :: b in site.path ==> !InBlock(b, POOL_POS)
    requires Refines(s.txs, Tip(next.path), n, Overlay(s.txs, testPool), t)
    requires var a := MinerInputs(site, mem, s.txs, testPool, tx, |tx.vin|);
             a.Ok? && MinerNameCheck(site, mem, s.names, tx, a.value)
    ensures var a, q := MinerInputs(site, mem, s.txs, testPool, tx, |tx.vin|).value, SpendInputs(next, t, tx, |tx.vin|);
            && q.Ok? && q.value.scripts == a.scripts
            && var prev := ScanScripts(true, a.scripts, |a.scripts|);
               prev.found ==>
                 q.value.prevPos[prev.index] == a.prevPos[prev.index] && !InBlock(Tip(next.path), a.prevPos[prev.index])
  {
    hide MinerInputs, SpendInputs, MinerNameCheck, Refines, Overlay, ScanScripts;
    var a := MinerInputs(site, mem, s.txs, testPool, tx, |tx.vin|).value;
    InputsConnect(site, mem, s.txs, next, n, testPool, tx, |tx.vin|, t);
    var q := SpendInputs(next, t, tx, |tx.vin|).value;
    PrevOnChain(site, mem, s.names, tx, a);
    var prev := ScanScripts(true, a.scripts, |a.scripts|);
    assert prev.found ==> SameSpot(Tip(next.path), a.prevPos[prev.index], q.prevPos[prev.index]);
  }

  /** The same for a transaction as the test pool took it and as it stands in the block. */
  lemma TakenNameAccepted(site: Site, mem: Pool, s: Indexes, next: Site, n: nat, testPool: map<Hash, TxIndex>, tx: Tx,
                          t: map<Hash, TxIndex>, now: map<Name, seq<NameIndex>>)
    requires Placed(site, mem, s.txs, next) && 0 < n <= |Tip(next.path).block.vtx|
    requires next.env.testnet == site.env.testnet && next.env.hash160 == site.env.hash160
    requires PostLibcoinFork(site.env.testnet, site.Height()) && forall b :: b in site.path ==> !InBlock(b, POOL_POS)
    requires Refines(s.txs, Tip(next.path), n, Overlay(s.txs, testPool), t)
    requires var a := MinerInputs(site, mem, s.txs, testPool, tx, |tx.vin|);
             a.Ok? && MinerNameCheck(site, mem, s.names, tx, a.value)
    requires var d := DecodeNameTx(tx, true);
             tx.IsName() && d.good && Registers(d.op) ==> History(now, d.args[0]) == History(s.names, d.args[0])
    ensures var a, q := MinerInputs(site, mem, s.txs, testPool, tx, |tx.vin|).value, SpendInputs(next, t, tx, |tx.vin|);
            q.Ok? && (NameDecision(next, now, tx, q.value).Ok? <==>
                      (tx.IsName() && DecodeNameTx(tx, true).op == OP_NAME_UPDATE ==>
                         PrevDepth(site, a) + 1 < ExpirationDepth(next.Height())))
  {
    hide MinerInputs, SpendInputs, MinerNameCheck, NameDecision, Refines, Overlay, RelativeDepth, DecodeNameTx,
         ScanScripts, PrevDepth;
    TakenPrev(site, mem, s, next, n, testPool, tx, t);
    MinedNameAccepted(site, next, mem, s.names, now, tx, MinerInputs(site, mem, s.txs, testPool, tx, |tx.vin|).value,
                      SpendInputs(next, t, tx, |tx.vin|).value);
  }
}
