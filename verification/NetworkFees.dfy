/** The fee that a name_firstupdate burns (src/namecoin.cpp). */
module NetworkFees {
  import opened Common
  import opened ChainTypes
  import opened NameRules
  import opened Supply

  /** The fee starts at 50 coins (a tenth of a coin on the test network), has halved at the start of
      every further 8192 blocks, falls linearly in between, never below half of what it was at the
      start of the period, and is gone after 60 periods; from block 24000 on, each block counts four
      times. */
  lemma NetworkFeeExact(testnet: bool, height: nat) returns (start: nat, perBlock: nat)
    ensures var h := if height < 24000 then height else 4 * height - 72000;
            && (h >= 491520 ==> NetworkFee(testnet, height) == 0)
            && (h < 491520 ==>
                  && start * Pow2(h / 8192) <= (if testnet then 10000000 else 5000000000) < (start + 1) * Pow2(h / 8192)
                  && 16384 * perBlock <= start < 16384 * (perBlock + 1)
                  && NetworkFee(testnet, height) == start - perBlock * (h % 8192)
                  && start <= 2 * NetworkFee(testnet, height) <= 2 * start)
  {
    var h: nat := if height < 24000 then height else 4 * height - 72000;
    var first: nat := if testnet then 10 * CENT else 50 * COIN;
    start, perBlock := ShiftRight(first, h / 8192), ShiftRight(ShiftRight(first, h / 8192), 14);
    ShiftExact(first, h / 8192);
    ShiftExact(start, 14);
    assert Pow2(14) == 16384 by {
      assert Pow2(7) == 128;
      assert Pow2(14) == 128 * Pow2(7);
    }
    hide ShiftRight, Pow2;
    AtMostHalf(start, perBlock, h % 8192);
  }

  lemma AtMostHalf(start: nat, perBlock: nat, r: nat)
    requires 16384 * perBlock <= start && r < 8192
    ensures 0 <= 2 * (perBlock * r) <= start
  {
    Product(r, 8192, perBlock);
  }

  /** What is burnt is what goes to outputs whose script is the single instruction 0x6a. */
  lemma {:induction false} NetFeeAdds(a: seq<TxOut>, b: seq<TxOut>)
    ensures NameNetFee(a + b) == NameNetFee(a) + NameNetFee(b)
    ensures forall out: TxOut :: NameNetFee([out]) == if out.scriptPubKey == [0x6a] then out.nValue else 0
    decreases |b|
  {
    if b == [] {
      assert a + b == a;
    } else {
      var front := b[..|b| - 1];
      assert (a + b)[..|a + b| - 1] == a + front;
      NetFeeAdds(a, front);
    }
    forall out: TxOut ensures NameNetFee([out]) == if out.scriptPubKey == [0x6a] then out.nValue else 0 {
      assert [out][..0] == [];
    }
  }

  /** The burnt amount is part of the outputs: for amounts that are not negative it is at most their
      total. */
  lemma {:induction false} NetFeeBelowTotal(vout: seq<TxOut>)
    requires forall i :: 0 <= i < |vout| ==> vout[i].nValue >= 0
    ensures 0 <= NameNetFee(vout) <= SumOut(vout)
  {
    if vout != [] {
      NetFeeBelowTotal(vout[..|vout| - 1]);
    }
  }
}
