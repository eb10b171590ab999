/** Gas pricing in saturating 128-bit arithmetic. */
module Gas {
  import opened Basics

  const U128_MAX: int := 0xFFFF_FFFF_FFFF_FFFF_FFFF_FFFF_FFFF_FFFF
  type U128 = n: int | 0 <= n <= U128_MAX
  type U32 = n: int | 0 <= n <= 0xFFFF_FFFF

  const MINIMUM_REPLACEMENT_BUMP_PERCENT: U32 := 10

  datatype Fees = Fees(total: U128, tip: U128)

  datatype Bump = To(fees: Fees) | AtCeiling

  datatype GasPolicy = GasPolicy(maxFeeCap: U128, maxTipCap: U128, bumpPercent: U32, headroomPercent: U32)

  function Min(a: U128, b: U128): U128 { if a <= b then a else b }

  function Saturate(n: int): U128
    requires 0 <= n
  {
    if n > U128_MAX then U128_MAX else n
  }

  function SatMul(value: U128, percent: U32): U128 {
    ProductIsNat(value, percent);
    Saturate(value * percent)
  }

  function PercentOf(value: U128, percent: U32): U128 {
    SatMul(value, percent) / 100
  }

  predicate Clears(from: U128, to: U128) {
    to > from && to >= Saturate(from + PercentOf(from, MINIMUM_REPLACEMENT_BUMP_PERCENT))
  }

  function Initial(p: GasPolicy, baseFee: U128, suggestedTip: U128): Fees {
    var tip := Min(suggestedTip, p.maxTipCap);
    var total := Min(Saturate(PercentOf(baseFee, p.headroomPercent) + tip), p.maxFeeCap);
    Fees(total, Min(tip, total))
  }

  function Raise(p: GasPolicy, value: U128): U128 {
    var byPercent := Saturate(value + PercentOf(value, p.bumpPercent));
    var byOne := Saturate(value + 1);
    if byPercent >= byOne then byPercent else byOne
  }

  function BumpFees(p: GasPolicy, previous: Fees): Bump {
    if previous.total >= p.maxFeeCap then AtCeiling
    else
      var total := Min(Raise(p, previous.total), p.maxFeeCap);
      var tip := Min(Min(Raise(p, previous.tip), p.maxTipCap), total);
      if !Clears(previous.total, total) then AtCeiling else To(Fees(total, tip))
  }

  lemma ProductIsNat(a: int, b: int)
    requires 0 <= a && 0 <= b
    ensures 0 <= a * b
  {
  }

  lemma ProductMonotone(value: int, p: int, q: int)
    requires 0 <= value && p <= q
    ensures value * p <= value * q
  {
  }

  /** A larger percentage is never less, saturation included. */
  lemma PercentMonotone(value: U128, p: U32, q: U32)
    requires p <= q
    ensures PercentOf(value, p) <= PercentOf(value, q)
  {
    ProductIsNat(value, p);
    ProductIsNat(value, q);
    ProductMonotone(value, p, q);
  }

  predicate WithinCaps(p: GasPolicy, f: Fees) {
    f.total <= p.maxFeeCap && f.tip <= p.maxTipCap && f.tip <= f.total
  }

  /** A first offer stays under both caps whatever the node reports, and when no
      cap cuts it, covers the base fee with its headroom plus the whole tip. */
  lemma InitialIsWithinCaps(p: GasPolicy, baseFee: U128, suggestedTip: U128)
    ensures WithinCaps(p, Initial(p, baseFee, suggestedTip))
    ensures var f := Initial(p, baseFee, suggestedTip);
      f.total < p.maxFeeCap && suggestedTip <= p.maxTipCap && p.headroomPercent >= 100
        && baseFee * p.headroomPercent <= U128_MAX ==>
        f.tip == suggestedTip && f.total >= baseFee + f.tip
  {
    var f := Initial(p, baseFee, suggestedTip);
    ProductIsNat(baseFee, p.headroomPercent);
    if f.total < p.maxFeeCap && suggestedTip <= p.maxTipCap && p.headroomPercent >= 100
       && baseFee * p.headroomPercent <= U128_MAX {
      ProductMonotone(baseFee, 100, p.headroomPercent);
      assert PercentOf(baseFee, p.headroomPercent) >= baseFee;
    }
  }

  /** MAIN. What headroom buys: a first offer no cap cuts still pays its whole tip
      at any later base fee up to the given percentage of today's, and at no base
      fee beyond that. */
  lemma HeadroomCoversExactly(p: GasPolicy, baseFee: U128, suggestedTip: U128, later: U128)
    requires baseFee * p.headroomPercent <= U128_MAX
    requires Initial(p, baseFee, suggestedTip).total < p.maxFeeCap
    ensures var f := Initial(p, baseFee, suggestedTip);
      && f.tip == Min(suggestedTip, p.maxTipCap)
      && (later + f.tip <= f.total <==> later <= baseFee * p.headroomPercent / 100)
  {
    ProductIsNat(baseFee, p.headroomPercent);
  }

  /** A raise by at least ten percent clears the node's rule. */
  lemma RaisesClear(p: GasPolicy, value: U128)
    requires p.bumpPercent >= MINIMUM_REPLACEMENT_BUMP_PERCENT && value < U128_MAX
    ensures Clears(value, Raise(p, value))
  {
    PercentMonotone(value, MINIMUM_REPLACEMENT_BUMP_PERCENT, p.bumpPercent);
  }

  /** What a raised fee must reach for the node to take it. */
  function Required(value: U128): U128 {
    Saturate(value + PercentOf(value, MINIMUM_REPLACEMENT_BUMP_PERCENT))
  }

  /** MAIN. Every replacement offered stays under both caps, tip at most total,
      clears the rule on the total, and on the tip unless a cap cut the tip;
      whatever terms the transaction it replaces was sent on. */
  lemma BumpsAreAcceptable(p: GasPolicy, previous: Fees)
    ensures BumpFees(p, previous).To? ==>
      var f := BumpFees(p, previous).fees;
      && WithinCaps(p, f)
      && Clears(previous.total, f.total)
      && (p.bumpPercent >= MINIMUM_REPLACEMENT_BUMP_PERCENT && f.tip < p.maxTipCap && f.tip < f.total ==>
            Clears(previous.tip, f.tip))
  {
    if p.bumpPercent >= MINIMUM_REPLACEMENT_BUMP_PERCENT && BumpFees(p, previous).To? {
      var f := BumpFees(p, previous).fees;
      if f.tip < p.maxTipCap && f.tip < f.total {
        UncutTipsAreRaised(p, previous);
        RaisesClear(p, previous.tip);
      }
    }
  }

  lemma UncutTipsAreRaised(p: GasPolicy, previous: Fees)
    requires BumpFees(p, previous).To?
    requires BumpFees(p, previous).fees.tip < p.maxTipCap
    requires BumpFees(p, previous).fees.tip < BumpFees(p, previous).fees.total
    ensures BumpFees(p, previous).fees.tip == Raise(p, previous.tip) && previous.tip < U128_MAX
  {
  }

  /** How far one raise goes: by the policy's percentage, rounded down, and by at
      least one. Stated by what the rise is, not by how it is computed. */
  lemma RaisesAreByThePercentage(p: GasPolicy, value: U128)
    requires value * p.bumpPercent <= U128_MAX && Raise(p, value) < U128_MAX
    ensures var rise := Raise(p, value) - value;
      && rise >= 1
      && (value * p.bumpPercent >= 100 ==> 100 * rise <= value * p.bumpPercent < 100 * (rise + 1))
      && (value * p.bumpPercent < 100 ==> rise == 1)
  {
    ProductIsNat(value, p.bumpPercent);
  }

  /** And a bump is one raise of each fee, cut only by a cap. */
  lemma BumpsAreOneRaise(p: GasPolicy, previous: Fees)
    requires BumpFees(p, previous).To?
    ensures var f := BumpFees(p, previous).fees;
      && (f.total == Raise(p, previous.total) || (f.total == p.maxFeeCap < Raise(p, previous.total)))
      && (f.tip == Raise(p, previous.tip)
          || (f.tip < Raise(p, previous.tip) && (f.tip == p.maxTipCap || f.tip == f.total)))
  {
  }

  /** MAIN. With at least ten percent per bump, the ceiling is reported exactly
      when no total under the cap would clear the rule on the total. What it says
      of the tip is nothing: see below. */
  lemma CeilingIsHonest(p: GasPolicy, previous: Fees)
    requires p.bumpPercent >= MINIMUM_REPLACEMENT_BUMP_PERCENT
    ensures BumpFees(p, previous).AtCeiling?
       <==> forall total: U128 :: total <= p.maxFeeCap ==> !Clears(previous.total, total)
  {
    if previous.total < p.maxFeeCap {
      RaisesClear(p, previous.total);
      if BumpFees(p, previous).To? {
        assert Clears(previous.total, BumpFees(p, previous).fees.total);
      } else {
        assert Min(Raise(p, previous.total), p.maxFeeCap) == p.maxFeeCap;
        forall total: U128 | total <= p.maxFeeCap
          ensures !Clears(previous.total, total)
        {
        }
      }
    }
  }

  /** A node compares both fees with those of the transaction being replaced. */
  predicate NodeTakes(previous: Fees, offer: Fees) {
    Clears(previous.total, offer.total) && Clears(previous.tip, offer.tip)
  }

  /** The tip cap leaves room for one more raise of the tip. */
  predicate TipHasRoom(p: GasPolicy, previous: Fees) {
    previous.tip < p.maxTipCap && Required(previous.tip) <= p.maxTipCap
  }

  lemma RequiredMonotone(a: U128, b: U128)
    requires a <= b
    ensures Required(a) <= Required(b)
  {
  }

  lemma RaisesReach(p: GasPolicy, value: U128)
    requires p.bumpPercent >= MINIMUM_REPLACEMENT_BUMP_PERCENT
    ensures Required(value) <= Raise(p, value)
  {
    PercentMonotone(value, MINIMUM_REPLACEMENT_BUMP_PERCENT, p.bumpPercent);
  }

  /** MAIN. Exactly which bumps a node takes: a bump is offered whenever the total
      has room, and is refused unless the tip has room too and one raise of it
      reaches what the rule requires, which from ten percent up it always does. */
  lemma NodesTakeBumpsExactly(p: GasPolicy, previous: Fees)
    requires previous.tip <= previous.total
    ensures BumpFees(p, previous).To? ==>
      (NodeTakes(previous, BumpFees(p, previous).fees)
       <==> TipHasRoom(p, previous) && Required(previous.tip) <= Raise(p, previous.tip))
    ensures p.bumpPercent >= MINIMUM_REPLACEMENT_BUMP_PERCENT ==>
      Required(previous.tip) <= Raise(p, previous.tip)
  {
    RequiredMonotone(previous.tip, previous.total);
    if p.bumpPercent >= MINIMUM_REPLACEMENT_BUMP_PERCENT {
      RaisesReach(p, previous.tip);
    }
  }

  /** MAIN. From ten percent up, a replacement within the caps that a node would
      take exists exactly when a bump is offered and the tip has room, and then
      the offer is one: what goes wrong is not that a better offer is missed, but
      that a useless one is made. */
  lemma BumpsFindEveryReplacement(p: GasPolicy, previous: Fees)
    requires p.bumpPercent >= MINIMUM_REPLACEMENT_BUMP_PERCENT && previous.tip <= previous.total
    ensures (exists f: Fees :: WithinCaps(p, f) && NodeTakes(previous, f))
       <==> BumpFees(p, previous).To? && TipHasRoom(p, previous)
    ensures BumpFees(p, previous).To? && TipHasRoom(p, previous) ==>
      NodeTakes(previous, BumpFees(p, previous).fees)
  {
    NodesTakeBumpsExactly(p, previous);
    CeilingIsHonest(p, previous);
    if BumpFees(p, previous).To? && TipHasRoom(p, previous) {
      BumpsAreAcceptable(p, previous);
      assert WithinCaps(p, BumpFees(p, previous).fees) && NodeTakes(previous, BumpFees(p, previous).fees);
    }
  }

  /** The policy the relayer starts with unless told otherwise. */
  const DEFAULT := GasPolicy(5_000_000_000, 1_000_000_000, 25, 200)

  /** Such offers are made: the default policy's own first offer, on a chain that
      suggests a tip at its cap, is bumped to one the node refuses. */
  lemma DefaultBumpsAreRefused()
    ensures var first := Initial(DEFAULT, 500_000_000, 1_000_000_000);
      && first == Fees(2_000_000_000, 1_000_000_000)
      && BumpFees(DEFAULT, first) == To(Fees(2_500_000_000, 1_000_000_000))
      && !NodeTakes(first, BumpFees(DEFAULT, first).fees) && !TipHasRoom(DEFAULT, first)
  {
  }

  /** Whatever the percentage: the ceiling is reported honestly exactly when the
      cap itself would be refused, or one raise reaches what the rule requires. */
  lemma CeilingIsHonestExactly(p: GasPolicy, previous: Fees)
    ensures (BumpFees(p, previous).AtCeiling? <==>
             forall total: U128 :: total <= p.maxFeeCap ==> !Clears(previous.total, total))
       <==> p.maxFeeCap <= previous.total || p.maxFeeCap < Required(previous.total)
            || Required(previous.total) <= Raise(p, previous.total)
  {
    var v, cap := previous.total, p.maxFeeCap;
    if v < cap {
      if cap < Required(v) {
        assert forall total: U128 :: total <= cap ==> !Clears(v, total);
      } else {
        assert Clears(v, cap);
      }
    }
  }

  /** Below ten percent a raise is too small for every fee of 100 or more whose
      tenfold is exact, so the policy never bumps, however far away the cap is. */
  lemma SmallBumpsNeverClear(p: GasPolicy, previous: Fees)
    requires p.bumpPercent < MINIMUM_REPLACEMENT_BUMP_PERCENT
    requires 100 <= previous.total <= U128_MAX / 10
    ensures BumpFees(p, previous).AtCeiling?
    ensures Raise(p, previous.total) < Required(previous.total)
    ensures previous.total + previous.total / 10 <= p.maxFeeCap ==> Clears(previous.total, p.maxFeeCap)
  {
    var v := previous.total;
    ProductIsNat(v, p.bumpPercent);
    ProductMonotone(v, p.bumpPercent, 9);
    assert SatMul(v, p.bumpPercent) <= v * 9;
    assert PercentOf(v, p.bumpPercent) <= (v * 9) / 100 < v / 10 == PercentOf(v, 10);
  }

  // --- how fast a chain of bumps grows ---------------------------------------

  /** The rule's ten percent is a tenth of the fee while ten times the fee does
      not saturate, and a hundredth of the whole range after that. */
  lemma RuleIsATenth(total: U128)
    ensures PercentOf(total, MINIMUM_REPLACEMENT_BUMP_PERCENT)
         == (if total <= U128_MAX / 10 then total / 10 else U128_MAX / 100)
  {
  }

  lemma PercentsSaturate(value: U128, percent: U32)
    ensures PercentOf(value, percent) <= U128_MAX / 100
  {
  }

  /** Every bump adds at least one, and a whole tenth exactly when a tenth of the
      fee is no more than a hundredth of the range, where the percentage itself
      saturates. */
  lemma EachBumpAdds(p: GasPolicy, previous: Fees)
    ensures BumpFees(p, previous).To? ==>
      var f := BumpFees(p, previous).fees;
      && f.total >= previous.total + 1
      && (f.total >= previous.total + previous.total / 10 <==> previous.total / 10 <= U128_MAX / 100)
      && (previous.total > U128_MAX / 10 ==>
            f.total == U128_MAX || f.total >= previous.total + U128_MAX / 100)
  {
    RuleIsATenth(previous.total);
    PercentsSaturate(previous.total, p.bumpPercent);
  }

  /** Such fees exist, and are bumped. */
  lemma SaturationCutsTheTenth()
    ensures var p := GasPolicy(U128_MAX, U128_MAX, 10, 200);
      var previous := Fees(U128_MAX / 5, 0);
      && BumpFees(p, previous).To?
      && BumpFees(p, previous).fees.total < previous.total + previous.total / 10
  {
  }

  ghost predicate IsBumpChain(p: GasPolicy, chain: seq<Fees>) {
    && chain != []
    && forall i :: 0 <= i < |chain| - 1 ==> BumpFees(p, chain[i]) == To(chain[i + 1])
  }

  /** MAIN. Every bump of every chain stays within both caps, whatever terms the
      chain starts from. */
  lemma {:induction false} ChainsStayWithinCaps(p: GasPolicy, chain: seq<Fees>, i: nat)
    requires IsBumpChain(p, chain) && i < |chain|
    ensures i > 0 || WithinCaps(p, chain[0]) ==> WithinCaps(p, chain[i])
    ensures chain[i].total >= chain[0].total + i
  {
    if i > 0 {
      ChainsStayWithinCaps(p, chain, i - 1);
      assert BumpFees(p, chain[i - 1]) == To(chain[i - 1 + 1]);
      BumpsAreAcceptable(p, chain[i - 1]);
      EachBumpAdds(p, chain[i - 1]);
    }
  }

  /** From a fee of at least ten, `n` bumps add at least `n` times its tenth,
      until fees leave the range where ten times a fee is exact. */
  lemma {:induction false} BumpsAddUp(p: GasPolicy, chain: seq<Fees>, i: nat, n: nat)
    requires IsBumpChain(p, chain) && i + n < |chain|
    ensures chain[i + n].total >= chain[i].total
    ensures chain[i + n].total > U128_MAX / 10 || chain[i + n].total >= chain[i].total + n * (chain[i].total / 10)
  {
    if n > 0 {
      BumpsAddUp(p, chain, i, n - 1);
      assert BumpFees(p, chain[i + n - 1]) == To(chain[i + n - 1 + 1]);
      EachBumpAdds(p, chain[i + n - 1]);
      assert n * (chain[i].total / 10) == (n - 1) * (chain[i].total / 10) + chain[i].total / 10;
    }
  }

  /** Twenty bumps double a fee of at least ten. */
  lemma {:induction false} TwentyBumpsDouble(p: GasPolicy, chain: seq<Fees>, k: nat)
    requires IsBumpChain(p, chain) && 10 + 20 * k < |chain|
    ensures chain[10 + 20 * k].total > U128_MAX / 10 || chain[10 + 20 * k].total >= 10 * Pow2(k)
  {
    if k == 0 {
      ChainsStayWithinCaps(p, chain, 10);
    } else {
      var i := 10 + 20 * (k - 1);
      TwentyBumpsDouble(p, chain, k - 1);
      BumpsAddUp(p, chain, i, 20);
      ChainsStayWithinCaps(p, chain, i);
      var v: int := chain[i].total;
      assert i + 20 == 10 + 20 * k;
      assert v >= 10;
      assert 20 * (v / 10) >= v;
    }
  }

  const STEP: int := 0x28F_5C28_F5C2_8F5C_28F5_C28F_5C28_F5C2      // U128_MAX / 100

  /** Past that range every bump still adds a hundredth of the whole range. */
  lemma HighBumpAdds(p: GasPolicy, chain: seq<Fees>, i: nat)
    requires IsBumpChain(p, chain) && i + 1 < |chain|
    requires chain[i].total > U128_MAX / 10
    ensures chain[i].total < U128_MAX
    ensures chain[i + 1].total == U128_MAX || chain[i + 1].total >= chain[i].total + STEP
  {
    assert BumpFees(p, chain[i]) == To(chain[i + 1]);
    EachBumpAdds(p, chain[i]);
  }

  lemma {:induction false} HighBumpsAddUp(p: GasPolicy, chain: seq<Fees>, i: nat, n: nat)
    requires IsBumpChain(p, chain) && i + n < |chain|
    requires chain[i].total > U128_MAX / 10
    ensures chain[i + n].total == U128_MAX || chain[i + n].total >= chain[i].total + n * STEP
    ensures chain[i + n].total > U128_MAX / 10
  {
    if n > 0 {
      HighBumpsAddUp(p, chain, i, n - 1);
      HighBumpAdds(p, chain, i + n - 1);
      assert i + (n - 1) + 1 == i + n;
    }
  }

  /** MAIN. Bumping stops: a chain of bumps is logarithmic in the cap. */
  lemma BumpChainsAreShort(p: GasPolicy, chain: seq<Fees>, k: nat)
    requires IsBumpChain(p, chain)
    requires 10 * Pow2(k) > p.maxFeeCap
    ensures |chain| <= 10 + 20 * k + 92
    ensures p.maxFeeCap <= U128_MAX / 10 ==> |chain| <= 10 + 20 * k
  {
    var i := 10 + 20 * k;
    if |chain| > i {
      TwentyBumpsDouble(p, chain, k);
      ChainsStayWithinCaps(p, chain, i);
      if |chain| > i + 92 {
        HighBumpsAddUp(p, chain, i, 91);
        HighBumpAdds(p, chain, i + 91);
      }
    }
  }
}
