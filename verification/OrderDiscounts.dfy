/** What a percentage order discount is computed on:
src/promotions/application/pos-evaluate-promotions.use-case.ts (runEvaluationPass, pickBestOrderPromo,
computeAppliedDiscountCents).

The subtotal after line discounts takes a per-unit discount off once per line. On a line of several units that leaves the
subtotal too high, and the order discount is a percentage of it.
*/
module OrderDiscounts {
  import opened Common
  import opened SaleItems
  import opened PromotionEngine
  import opened EngineLaws

  /** What per-unit discounts save beyond the first unit of each line. */
  function Overstated(lines: seq<EvalLine>, results: seq<LineResult>): int {
    if lines == [] then 0
    else
      var line := lines[|lines| - 1];
      Overstated(lines[..|lines| - 1], results) +
      match Existing(results, line.itemId)
      case None => 0
      case Some(r) => if r.PerUnit? then AppliedCents(line, r) * (line.quantity - 1) else 0
  }

  lemma {:induction false} RankedIsNetPlusOverstated(lines: seq<EvalLine>, results: seq<LineResult>)
    ensures RankedSubtotal(lines, results) == NetSubtotal(lines, results) + Overstated(lines, results)
  {
    if lines != [] {
      var line := lines[|lines| - 1];
      RankedIsNetPlusOverstated(lines[..|lines| - 1], results);
      match Existing(results, line.itemId)
      case None =>
      case Some(r) => OneUnitMore(AppliedCents(line, r), line.quantity);
    }
  }

  lemma OneUnitMore(cents: int, quantity: int)
    ensures cents * quantity == cents + cents * (quantity - 1)
  {
  }

  lemma EarnedValues(lines: seq<EvalLine>, results: seq<LineResult>, candidates: seq<Promotion>, input: EvalInput)
    requires PerUnitsEarned(results, lines, candidates, input)
    ensures forall r :: r in results && r.PerUnit? ==> 1 <= r.value
  {
    forall r | r in results && r.PerUnit?
      ensures 1 <= r.value
    {
      var l, p :| l in lines && p in candidates && ProductDiscountOf(r, l, p, input);
    }
  }

  /** Rounding to the nearest cent moves exactly when the excess passes the room left before the next step. */
  lemma RoundingRoom(n: int, excess: nat)
    ensures RoundDiv(n + excess, 100) == RoundDiv(n, 100) <==> (n + 50) % 100 + excess < 100
  {
    var q := (n + 50) / 100;
    assert (2 * n + 100) / 200 == q;
    assert (2 * (n + excess) + 100) / 200 == (n + excess + 50) / 100;
  }

  lemma {:induction false} OrderCandidatesCents(candidates: seq<Promotion>, input: EvalInput, subtotal: int)
    ensures forall c :: c in OrderCandidates(candidates, input, subtotal) ==>
                          OrderEligible(c.promotion, input, subtotal) && c.cents == OrderDiscountCents(c.promotion, subtotal)
  {
    if candidates != [] {
      OrderCandidatesCents(candidates[..|candidates| - 1], input, subtotal);
    }
  }

  lemma PercentOfRanked(candidates: seq<Promotion>, input: EvalInput, results: seq<LineResult>)
    requires OrderPass(candidates, input, results).Some? && OrderPass(candidates, input, results).value.discountType == Percentage
    ensures var o := OrderPass(candidates, input, results).value;
            0 <= o.value && o.amountCents == RoundDiv(RankedSubtotal(input.lines, results) * o.value, 100)
  {
    var subtotal := RankedSubtotal(input.lines, results);
    OrderCandidatesCents(candidates, input, subtotal);
    BestIsCandidate(OrderCandidates(candidates, input, subtotal));
  }

  /** The order discount of an evaluation, as a percentage of the ranked subtotal. */
  lemma EvaluatedPercent(promotions: seq<Promotion>, input: EvalInput)
    requires Evaluate(promotions, input).selection.order.Some?
    requires Evaluate(promotions, input).selection.order.value.discountType == Percentage
    ensures var s := Evaluate(promotions, input).selection;
            0 <= s.order.value.value && s.order.value.amountCents == RoundDiv(RankedSubtotal(input.lines, s.lines) * s.order.value.value, 100)
  {
    var loaded := BotFiltered(promotions, input.botOnly);
    var r := EvaluateFrom(loaded, input, {});
    EvaluateWithinCapacity(loaded, input, {});
    PercentOfRanked(Without(loaded, r.excluded), input, r.selection.lines);
  }

  lemma OverstatedNonNegative(promotions: seq<Promotion>, input: EvalInput)
    requires forall l :: l in input.lines ==> 0 <= l.priceCents
    ensures 0 <= Overstated(input.lines, Evaluate(promotions, input).selection.lines)
  {
    var loaded := BotFiltered(promotions, input.botOnly);
    var lines := EvaluateFrom(loaded, input, {}).selection.lines;
    EvaluateEarned(loaded, input, {});
    EarnedValues(input.lines, lines, loaded, input);
    RankedSubtotalExactIff(input.lines, lines);
    RankedIsNetPlusOverstated(input.lines, lines);
  }

  /** What rounding to a cent forgives: the overstated part, times the percentage, stays below the next step. */
  predicate Forgiven(net: int, over: int, percent: int) {
    (net * percent + 50) % 100 + over * percent < 100
  }

  lemma PercentRoom(ranked: int, net: int, over: nat, percent: nat)
    requires ranked == net + over
    ensures RoundDiv(ranked * percent, 100) == RoundDiv(net * percent, 100) <==> Forgiven(net, over, percent)
  {
    ProductMonotone(0, over, percent);
    assert ranked * percent == net * percent + over * percent;
    RoundingRoom(net * percent, over * percent);
  }

  /** A percentage order discount is the percentage of what the lines really cost exactly when rounding forgives the
      overstated part. */
  lemma PercentOrderExactIff(promotions: seq<Promotion>, input: EvalInput)
    requires forall l :: l in input.lines ==> 0 <= l.priceCents
    requires Evaluate(promotions, input).selection.order.Some?
    requires Evaluate(promotions, input).selection.order.value.discountType == Percentage
    ensures var s := Evaluate(promotions, input).selection;
            s.order.value.amountCents == RoundDiv(NetSubtotal(input.lines, s.lines) * s.order.value.value, 100)
            <==> Forgiven(NetSubtotal(input.lines, s.lines), Overstated(input.lines, s.lines), s.order.value.value)
  {
    var s := Evaluate(promotions, input).selection;
    var net, over := NetSubtotal(input.lines, s.lines), Overstated(input.lines, s.lines);
    EvaluatedPercent(promotions, input);
    OverstatedNonNegative(promotions, input);
    RankedIsNetPlusOverstated(input.lines, s.lines);
    PercentRoom(RankedSubtotal(input.lines, s.lines), net, over, s.order.value.value);
  }

  // ----- A cart that pays too little -----

  const TWO_UNITS: EvalLine := EvalLine(1, 1, None, 2, 1000, None, None, None, false)

  const LINE_TEN_OFF: Promotion :=
    Promotion(7, "ten off", ProductDiscount, false, false, true, Everyone, Some(Products), None, None,
              [Target(DefaultSide, Products, 1)], {}, Some(Percentage), Some(10), None, None, None, None, None)

  const ORDER_TEN_OFF: Promotion :=
    Promotion(8, "ten off all", OrderDiscount, false, false, true, Everyone, None, None, None,
              [], {}, Some(Percentage), Some(10), None, None, None, None, None)

  const BOTH: seq<Promotion> := [LINE_TEN_OFF, ORDER_TEN_OFF]

  const TWO_UNIT_CART: EvalInput := EvalInput(None, false, false, [TWO_UNITS], {}, {})

  const TEN_OFF_EACH: LineResult := PerUnit(1, 7, Percentage, 10, "ten off")

  const ORDER_RESULT: OrderResult := OrderResult(8, Percentage, 10, "ten off all", 190)

  lemma LineWinner()
    ensures PdPass([TWO_UNITS], BOTH, TWO_UNIT_CART) == [TEN_OFF_EACH]
  {
    var none: seq<Promotion> := [];
    assert BOTH[..1] == [LINE_TEN_OFF] && [LINE_TEN_OFF][..0] == none && [TWO_UNITS][..0] == [];
    assert RoundDiv(10000, 100) == 100;
    assert PdEligible(TWO_UNITS, LINE_TEN_OFF, TWO_UNIT_CART) && !PdEligible(TWO_UNITS, ORDER_TEN_OFF, TWO_UNIT_CART);
    var c := Candidate(LINE_TEN_OFF, 100);
    assert PdCandidates(TWO_UNITS, [LINE_TEN_OFF], TWO_UNIT_CART) == [c];
    assert PdCandidates(TWO_UNITS, BOTH, TWO_UNIT_CART) == [c];
    assert [c][..0] == [];
    assert MaxOrdinal([c], TWO_UNITS) == 2;
    assert Survivors([c], TWO_UNITS, 2) == [c];
    assert Best([c][..0]) == None && Best([c]) == Some(c);
    assert PdWinner(TWO_UNITS, BOTH, TWO_UNIT_CART) == Some(c);
  }

  lemma NoRewards()
    ensures LinePasses(BOTH, TWO_UNIT_CART) == [TEN_OFF_EACH]
  {
    LineWinner();
    assert BOTH[..1] == [LINE_TEN_OFF] && [LINE_TEN_OFF][..0] == [] && [TWO_UNITS][..0] == [];
    assert BxgyCandidates(TWO_UNITS, [LINE_TEN_OFF], TWO_UNIT_CART) == [];
    assert BxgyCandidates(TWO_UNITS, BOTH, TWO_UNIT_CART) == [];
    assert BxgyPass([TWO_UNITS], BOTH, TWO_UNIT_CART, [TEN_OFF_EACH]) == [TEN_OFF_EACH];
    assert AdvancedPass([LINE_TEN_OFF], TWO_UNIT_CART, [TEN_OFF_EACH]) == [TEN_OFF_EACH];
    assert AdvancedPass(BOTH, TWO_UNIT_CART, [TEN_OFF_EACH]) == [TEN_OFF_EACH];
  }

  lemma TwoSubtotals()
    ensures RankedSubtotal([TWO_UNITS], [TEN_OFF_EACH]) == 1900 && NetSubtotal([TWO_UNITS], [TEN_OFF_EACH]) == 1800
  {
    assert [TWO_UNITS][..0] == [] && RoundDiv(10000, 100) == 100;
    assert Existing([TEN_OFF_EACH], 1) == Some(TEN_OFF_EACH);
    assert AppliedCents(TWO_UNITS, TEN_OFF_EACH) == 100;
    assert RankedSubtotal([TWO_UNITS][..0], [TEN_OFF_EACH]) == 0 && NetSubtotal([TWO_UNITS][..0], [TEN_OFF_EACH]) == 0;
  }

  lemma OrderWinner()
    ensures Select(BOTH, TWO_UNIT_CART) == Selection([TEN_OFF_EACH], Some(ORDER_RESULT))
  {
    NoRewards();
    TwoSubtotals();
    assert BOTH[..1] == [LINE_TEN_OFF] && [LINE_TEN_OFF][..0] == [];
    assert RoundDiv(19000, 100) == 190;
    assert OrderDiscountCents(ORDER_TEN_OFF, 1900) == 190;
    var c := Candidate(ORDER_TEN_OFF, 190);
    assert OrderCandidates([LINE_TEN_OFF], TWO_UNIT_CART, 1900) == [];
    assert OrderEligible(ORDER_TEN_OFF, TWO_UNIT_CART, 1900);
    assert OrderCandidates(BOTH, TWO_UNIT_CART, 1900) == [c];
    assert [c][..0] == [] && Best([c][..0]) == None && Best([c]) == Some(c);
  }

  lemma NothingOverruns()
    ensures Evaluate(BOTH, TWO_UNIT_CART).selection == Selection([TEN_OFF_EACH], Some(ORDER_RESULT))
  {
    OrderWinner();
    assert BOTH[..1] == [LINE_TEN_OFF] && [LINE_TEN_OFF][..0] == [];
    assert BotFiltered([LINE_TEN_OFF], false) == [LINE_TEN_OFF] && BotFiltered(BOTH, false) == BOTH;
    assert Without([LINE_TEN_OFF], {}) == [LINE_TEN_OFF] && Without(BOTH, {}) == BOTH;
    var s := Selection([TEN_OFF_EACH], Some(ORDER_RESULT));
    assert Remaining([LINE_TEN_OFF], 7) == None && Remaining(BOTH, 7) == None && Remaining(BOTH, 8) == None;
    assert SelectedIds(s) == {7, 8};
    assert Overruns(BOTH, [TWO_UNITS], s) == {};
  }

  /** Two units at 1000 cents, 10% off each and 10% off the order: the lines cost 1800, the order discount is 190. */
  lemma OrderDiscountTooLarge()
    ensures var s := Evaluate(BOTH, TWO_UNIT_CART).selection;
            && s.lines == [TEN_OFF_EACH] && NetSubtotal(TWO_UNIT_CART.lines, s.lines) == 1800
            && s.order == Some(ORDER_RESULT) && ORDER_RESULT.amountCents == 190 && RoundDiv(1800 * 10, 100) == 180
  {
    NothingOverruns();
    TwoSubtotals();
  }
}
