/** What the promotion engine guarantees its caller, proved of the selection it computes. */
module EngineLaws {
  import opened Common
  import opened SaleItems
  import opened PromotionEngine

  // ----- One sound result per line -----

  ghost predicate DistinctLines(lines: seq<EvalLine>) {
    forall i, j :: 0 <= i < j < |lines| ==> lines[i].itemId != lines[j].itemId
  }

  ghost predicate DistinctResults(results: seq<LineResult>) {
    forall i, j :: 0 <= i < j < |results| ==> results[i].itemId != results[j].itemId
  }

  /** A reward is positive and within its line; a per-unit result comes from a promotion that saves something. */
  ghost predicate LegalFor(line: EvalLine, r: LineResult) {
    && line.itemId == r.itemId
    && !line.manualDiscount
    && (r.WholeLine? ==> 0 < r.lineCents <= line.priceCents * line.quantity && r.units <= line.quantity)
    && (r.PerUnit? ==> 1 <= r.value && (r.discountType == Percentage ==> r.value <= 99) && AppliedCents(line, r) > 0)
  }

  ghost predicate Legal(r: LineResult, lines: seq<EvalLine>) {
    exists l :: l in lines && LegalFor(l, r)
  }

  ghost predicate SoundResults(results: seq<LineResult>, lines: seq<EvalLine>) {
    DistinctResults(results) && forall r :: r in results ==> Legal(r, lines)
  }

  lemma RewardWithinPrice(priceCents: int, percent: Percent, units: nat, quantity: Positive)
    requires units <= quantity && units * PerUnitReward(priceCents, percent) > 0
    ensures units * PerUnitReward(priceCents, percent) <= priceCents * quantity
  {
    var w := PerUnitReward(priceCents, percent);
    assert w > 0;
    assert 200 * w <= 2 * (priceCents * percent) + 100;
    if priceCents < 0 {
      ProductMonotone(priceCents, 0, percent);
      assert false;
    }
    ProductMonotone(percent, 100, priceCents);
    assert w <= priceCents;
    ProductMonotone(w, priceCents, units);
    ProductMonotone(units, quantity, priceCents);
  }

  lemma BxgyUnitsWithinLine(line: EvalLine, p: Promotion)
    requires HasRewardFields(p)
    ensures BxgyUnits(line, p) <= line.quantity
  {
    var n, m := p.buyQuantity.value, p.getQuantity.value;
    DivisionBounds(line.quantity, n + m);
    var groups := line.quantity / (n + m);
    assert 0 <= groups;
    ProductMonotone(m, n + m, groups);
  }

  lemma {:induction false} PdCandidatesEligible(line: EvalLine, candidates: seq<Promotion>, input: EvalInput)
    ensures forall c :: c in PdCandidates(line, candidates, input) ==>
                          PdEligible(line, c.promotion, input) && c.promotion in candidates
  {
    if candidates != [] {
      PdCandidatesEligible(line, candidates[..|candidates| - 1], input);
    }
  }

  lemma {:induction false} SurvivorsSubset(cs: seq<Candidate>, line: EvalLine, ordinal: nat)
    ensures forall c :: c in Survivors(cs, line, ordinal) <==> c in cs && CandidateOrdinal(c, line) == ordinal
  {
    if cs != [] {
      SurvivorsSubset(cs[..|cs| - 1], line, ordinal);
    }
  }

  lemma {:induction false} MaxOrdinalIsMax(cs: seq<Candidate>, line: EvalLine)
    ensures forall c :: c in cs ==> CandidateOrdinal(c, line) <= MaxOrdinal(cs, line)
    ensures cs != [] ==> exists c :: c in cs && CandidateOrdinal(c, line) == MaxOrdinal(cs, line)
  {
    if cs != [] {
      var init, last := cs[..|cs| - 1], cs[|cs| - 1];
      MaxOrdinalIsMax(init, line);
      assert cs == init + [last];
      if CandidateOrdinal(last, line) > MaxOrdinal(init, line) || init == [] {
        assert last in cs;
      } else {
        var c :| c in init && CandidateOrdinal(c, line) == MaxOrdinal(init, line);
        assert c in cs;
      }
    }
  }

  /** Specificity first, then saving: no eligible promotion is more specific than the winner, and none of
      the same specificity saves more. */
  lemma PdWinnerIsMostSpecificBest(line: EvalLine, candidates: seq<Promotion>, input: EvalInput)
    ensures PdWinner(line, candidates, input).Some? <==>
              !line.manualDiscount && exists p :: p in candidates && PdEligible(line, p, input)
    ensures PdWinner(line, candidates, input).Some? ==>
              var w := PdWinner(line, candidates, input).value;
              && PdEligible(line, w.promotion, input) && w.promotion in candidates
              && w.cents == LineDiscountCents(w.promotion, line.priceCents)
              && forall p :: p in candidates && PdEligible(line, p, input) ==>
                   var o, best := TierOrdinal(MatchTier(p.targets, line, DefaultSide)),
                                  TierOrdinal(MatchTier(w.promotion.targets, line, DefaultSide));
                   o < best || (o == best && LineDiscountCents(p, line.priceCents) <= w.cents)
  {
    var cs := PdCandidates(line, candidates, input);
    PdCandidatesEligible(line, candidates, input);
    PdCandidatesComplete(line, candidates, input);
    MaxOrdinalIsMax(cs, line);
    SurvivorsSubset(cs, line, MaxOrdinal(cs, line));
    BestIsCandidate(Survivors(cs, line, MaxOrdinal(cs, line)));
    if cs != [] {
      assert cs[0] in cs;
    }
  }

  lemma {:induction false} PdCandidatesComplete(line: EvalLine, candidates: seq<Promotion>, input: EvalInput)
    ensures forall p :: p in candidates && PdEligible(line, p, input) ==>
                          Candidate(p, LineDiscountCents(p, line.priceCents)) in PdCandidates(line, candidates, input)
    ensures forall c :: c in PdCandidates(line, candidates, input) ==>
                          c.cents == LineDiscountCents(c.promotion, line.priceCents)
  {
    if candidates != [] {
      PdCandidatesComplete(line, candidates[..|candidates| - 1], input);
    }
  }

  lemma PdResultLegal(line: EvalLine, p: Promotion, input: EvalInput)
    requires !line.manualDiscount && PdEligible(line, p, input)
    ensures LegalFor(line, PdResult(line.itemId, p))
  {
  }

  lemma {:induction false} PdPassSound(lines: seq<EvalLine>, candidates: seq<Promotion>, input: EvalInput)
    requires DistinctLines(lines)
    ensures SoundResults(PdPass(lines, candidates, input), lines)
  {
    if lines != [] {
      var init, line := lines[..|lines| - 1], lines[|lines| - 1];
      PdPassSound(init, candidates, input);
      forall r | r in PdPass(init, candidates, input)
        ensures Legal(r, lines)
        ensures r.itemId != line.itemId
      {
        var l :| l in init && LegalFor(l, r);
        assert l in lines;
      }
      PdWinnerIsMostSpecificBest(line, candidates, input);
      match PdWinner(line, candidates, input)
      case None =>
      case Some(w) =>
        PdResultLegal(line, w.promotion, input);
        assert line in lines;
    }
  }

  lemma UpsertSound(results: seq<LineResult>, r: LineResult, lines: seq<EvalLine>)
    requires SoundResults(results, lines) && Legal(r, lines)
    ensures SoundResults(Upsert(results, r), lines)
  {
    match IndexOf(results, r.itemId)
    case None =>
    case Some(i) =>
      forall x | x in results[i := r]
        ensures Legal(x, lines)
      {
      }
  }

  lemma {:induction false} BxgyPassSound(lines: seq<EvalLine>, all: seq<EvalLine>, candidates: seq<Promotion>,
                                         input: EvalInput, results: seq<LineResult>)
    requires forall l :: l in lines ==> l in all
    requires SoundResults(results, all)
    ensures SoundResults(BxgyPass(lines, candidates, input, results), all)
  {
    if lines != [] {
      var line := lines[|lines| - 1];
      BxgyPassSound(lines[..|lines| - 1], all, candidates, input, results);
      match BxgyWinner(line, candidates, input)
      case None =>
      case Some(w) =>
        BxgyUnitsWithinLine(line, w.promotion);
        RewardWithinPrice(line.priceCents, w.promotion.getPercent.value, BxgyUnits(line, w.promotion), line.quantity);
        assert LegalFor(line, BxgyResult(line, w.promotion));
        UpsertSound(BxgyPass(lines[..|lines| - 1], candidates, input, results), BxgyResult(line, w.promotion), all);
    }
  }

  lemma {:induction false} ApplyRewardsSound(p: Promotion, rewards: seq<Reward>, results: seq<LineResult>,
                                             lines: seq<EvalLine>)
    requires HasRewardFields(p) && SoundResults(results, lines)
    requires forall w :: w in rewards ==> w.line in lines && !w.line.manualDiscount && w.units <= w.line.quantity
                                          && w.perUnitCents == PerUnitReward(w.line.priceCents, p.getPercent.value)
    ensures SoundResults(ApplyRewards(p, rewards, results), lines)
  {
    if rewards != [] {
      var rest, w := ApplyRewards(p, rewards[..|rewards| - 1], results), rewards[|rewards| - 1];
      ApplyRewardsSound(p, rewards[..|rewards| - 1], results, lines);
      if w.Cents() > 0 {
        RewardWithinPrice(w.line.priceCents, p.getPercent.value, w.units, w.line.quantity);
        assert LegalFor(w.line, AdvancedResult(p, w));
        UpsertSound(rest, AdvancedResult(p, w), lines);
      }
    }
  }

  lemma {:induction false} AdvancedPassSound(candidates: seq<Promotion>, input: EvalInput, results: seq<LineResult>)
    requires SoundResults(results, input.lines)
    ensures SoundResults(AdvancedPass(candidates, input, results), input.lines)
  {
    if candidates != [] {
      var p := candidates[|candidates| - 1];
      AdvancedPassSound(candidates[..|candidates| - 1], input, results);
      if AdvancedUsable(p, input) {
        ApplyRewardsSound(p, AdvancedRewards(p, input.lines),
                          AdvancedPass(candidates[..|candidates| - 1], input, results), input.lines);
      }
    }
  }

  lemma SelectSound(candidates: seq<Promotion>, input: EvalInput)
    requires DistinctLines(input.lines)
    ensures SoundResults(Select(candidates, input).lines, input.lines)
  {
    PdPassSound(input.lines, candidates, input);
    BxgyPassSound(input.lines, input.lines, candidates, input, PdPass(input.lines, candidates, input));
    AdvancedPassSound(candidates, input, BxgyPass(input.lines, candidates, input, PdPass(input.lines, candidates, input)));
  }

  /** At most one result per item, none on a manually discounted line, every reward positive and within its line. */
  lemma {:induction false} EvaluateSound(loaded: seq<Promotion>, input: EvalInput, excluded: set<Id>)
    requires DistinctLines(input.lines)
    ensures SoundResults(EvaluateFrom(loaded, input, excluded).selection.lines, input.lines)
    decreases |Ids(loaded) - excluded|
  {
    var candidates := Without(loaded, excluded);
    var s := Select(candidates, input);
    var over := Overruns(candidates, input.lines, s);
    SelectSound(candidates, input);
    if over != {} {
      OverrunsShrink(loaded, excluded, over);
      EvaluateSound(loaded, input, excluded + over);
    }
  }

  // ----- Where per-unit discounts come from -----

  /** The result is that of a product discount eligible on the line. */
  predicate ProductDiscountOf(r: LineResult, l: EvalLine, p: Promotion, input: EvalInput) {
    PdEligible(l, p, input) && r == PdResult(l.itemId, p)
  }

  ghost predicate FromProductDiscount(r: LineResult, lines: seq<EvalLine>, candidates: seq<Promotion>, input: EvalInput) {
    exists l, p :: l in lines && p in candidates && ProductDiscountOf(r, l, p, input)
  }

  /** Every per-unit discount among the results is an eligible product discount's own. */
  ghost predicate PerUnitsEarned(results: seq<LineResult>, lines: seq<EvalLine>, candidates: seq<Promotion>, input: EvalInput) {
    forall r :: r in results && r.PerUnit? ==> FromProductDiscount(r, lines, candidates, input)
  }

  lemma {:induction false} PdPassEarned(lines: seq<EvalLine>, candidates: seq<Promotion>, input: EvalInput)
    ensures PerUnitsEarned(PdPass(lines, candidates, input), lines, candidates, input)
  {
    if lines != [] {
      var init, line := lines[..|lines| - 1], lines[|lines| - 1];
      PdPassEarned(init, candidates, input);
      PdWinnerIsMostSpecificBest(line, candidates, input);
      forall r | r in PdPass(lines, candidates, input) && r.PerUnit?
        ensures FromProductDiscount(r, lines, candidates, input)
      {
        if r in PdPass(init, candidates, input) {
          var l, p :| l in init && p in candidates && ProductDiscountOf(r, l, p, input);
          assert l in lines;
        } else {
          var w := PdWinner(line, candidates, input).value;
          assert line in lines && ProductDiscountOf(r, line, w.promotion, input);
        }
      }
    }
  }

  lemma UpsertEarned(results: seq<LineResult>, x: LineResult, lines: seq<EvalLine>, candidates: seq<Promotion>, input: EvalInput)
    requires PerUnitsEarned(results, lines, candidates, input) && x.WholeLine?
    ensures PerUnitsEarned(Upsert(results, x), lines, candidates, input)
  {
    forall r | r in Upsert(results, x) && r.PerUnit?
      ensures FromProductDiscount(r, lines, candidates, input)
    {
      assert r in results;
    }
  }

  lemma {:induction false} BxgyPassEarned(lines: seq<EvalLine>, all: seq<EvalLine>, candidates: seq<Promotion>, input: EvalInput,
                                          results: seq<LineResult>)
    requires PerUnitsEarned(results, all, candidates, input)
    ensures PerUnitsEarned(BxgyPass(lines, candidates, input, results), all, candidates, input)
  {
    if lines != [] {
      var line := lines[|lines| - 1];
      BxgyPassEarned(lines[..|lines| - 1], all, candidates, input, results);
      match BxgyWinner(line, candidates, input)
      case None =>
      case Some(w) =>
        UpsertEarned(BxgyPass(lines[..|lines| - 1], candidates, input, results), BxgyResult(line, w.promotion), all, candidates, input);
    }
  }

  lemma {:induction false} ApplyRewardsEarned(p: Promotion, rewards: seq<Reward>, results: seq<LineResult>, lines: seq<EvalLine>,
                                              candidates: seq<Promotion>, input: EvalInput)
    requires HasRewardFields(p) && PerUnitsEarned(results, lines, candidates, input)
    ensures PerUnitsEarned(ApplyRewards(p, rewards, results), lines, candidates, input)
  {
    if rewards != [] {
      var rest, w := ApplyRewards(p, rewards[..|rewards| - 1], results), rewards[|rewards| - 1];
      ApplyRewardsEarned(p, rewards[..|rewards| - 1], results, lines, candidates, input);
      UpsertEarned(rest, AdvancedResult(p, w), lines, candidates, input);
    }
  }

  lemma {:induction false} AdvancedPassEarned(some: seq<Promotion>, candidates: seq<Promotion>, input: EvalInput, results: seq<LineResult>)
    requires PerUnitsEarned(results, input.lines, candidates, input)
    ensures PerUnitsEarned(AdvancedPass(some, input, results), input.lines, candidates, input)
  {
    if some != [] {
      var p := some[|some| - 1];
      AdvancedPassEarned(some[..|some| - 1], candidates, input, results);
      if AdvancedUsable(p, input) {
        ApplyRewardsEarned(p, AdvancedRewards(p, input.lines), AdvancedPass(some[..|some| - 1], input, results), input.lines,
                           candidates, input);
      }
    }
  }

  /** Every per-unit discount an evaluation emits is that of a loaded product discount eligible on its line. */
  lemma EvaluateEarned(loaded: seq<Promotion>, input: EvalInput, excluded: set<Id>)
    ensures PerUnitsEarned(EvaluateFrom(loaded, input, excluded).selection.lines, input.lines, loaded, input)
  {
    EvaluateWithinCapacity(loaded, input, excluded);
    var r := EvaluateFrom(loaded, input, excluded);
    var candidates := Without(loaded, r.excluded);
    PdPassEarned(input.lines, candidates, input);
    BxgyPassEarned(input.lines, input.lines, candidates, input, PdPass(input.lines, candidates, input));
    AdvancedPassEarned(candidates, candidates, input,
                       BxgyPass(input.lines, candidates, input, PdPass(input.lines, candidates, input)));
    forall x | x in r.selection.lines && x.PerUnit?
      ensures FromProductDiscount(x, input.lines, loaded, input)
    {
      var l, p :| l in input.lines && p in candidates && ProductDiscountOf(x, l, p, input);
      assert p in loaded;
    }
  }

  // ----- Capacity -----

  /** The selection returned never takes more units of a capped promotion than it has left,
      and takes none of an excluded one. */
  lemma {:induction false} EvaluateWithinCapacity(loaded: seq<Promotion>, input: EvalInput, excluded: set<Id>)
    ensures var r := EvaluateFrom(loaded, input, excluded);
            && excluded <= r.excluded
            && r.demands == Demands(input.lines, r.selection)
            && r.selection == Select(Without(loaded, r.excluded), input)
            && forall id :: id in r.demands && Remaining(Without(loaded, r.excluded), id).Some? ==>
                 r.demands[id] <= Remaining(Without(loaded, r.excluded), id).value
    decreases |Ids(loaded) - excluded|
  {
    var candidates := Without(loaded, excluded);
    var s := Select(candidates, input);
    var over := Overruns(candidates, input.lines, s);
    if over != {} {
      OverrunsShrink(loaded, excluded, over);
      EvaluateWithinCapacity(loaded, input, excluded + over);
    }
  }

  // ----- Pruned opt-ins change nothing -----

  function Pruned(loaded: seq<Promotion>, input: EvalInput): EvalInput {
    input.(optedIn := input.optedIn * Targetable(loaded, input))
  }

  /** An opt-in the engine does not report as targetable never made its promotion usable on a line or the order. */
  lemma UsableUnderPruning(p: Promotion, loaded: seq<Promotion>, input: EvalInput)
    requires p in loaded
    ensures Usable(p, Pruned(loaded, input)) ==> Usable(p, input)
    ensures Usable(p, input) && !p.manual ==> Usable(p, Pruned(loaded, input))
    ensures Usable(p, input) && p.kind == OrderDiscount ==> Usable(p, Pruned(loaded, input))
    ensures Usable(p, input) && (p.kind == ProductDiscount || p.kind == BuyXGetYDiscount) &&
            (exists l :: l in input.lines && MatchTier(p.targets, l, DefaultSide).Some?) ==>
              Usable(p, Pruned(loaded, input))
  {
    if Usable(p, input) && p.manual && IsTargetable(p, input) {
      assert p.id in Targetable(loaded, input);
    }
  }

  lemma {:induction false} CandidatesPruned(line: EvalLine, candidates: seq<Promotion>, loaded: seq<Promotion>,
                                            input: EvalInput)
    requires line in input.lines && forall p :: p in candidates ==> p in loaded
    ensures PdCandidates(line, candidates, Pruned(loaded, input)) == PdCandidates(line, candidates, input)
    ensures BxgyCandidates(line, candidates, Pruned(loaded, input)) == BxgyCandidates(line, candidates, input)
  {
    if candidates != [] {
      var p := candidates[|candidates| - 1];
      CandidatesPruned(line, candidates[..|candidates| - 1], loaded, input);
      UsableUnderPruning(p, loaded, input);
    }
  }

  lemma {:induction false} LinePassesPruned(lines: seq<EvalLine>, candidates: seq<Promotion>, loaded: seq<Promotion>,
                                            input: EvalInput, results: seq<LineResult>)
    requires (forall l :: l in lines ==> l in input.lines) && (forall p :: p in candidates ==> p in loaded)
    ensures PdPass(lines, candidates, Pruned(loaded, input)) == PdPass(lines, candidates, input)
    ensures BxgyPass(lines, candidates, Pruned(loaded, input), results) == BxgyPass(lines, candidates, input, results)
  {
    if lines != [] {
      LinePassesPruned(lines[..|lines| - 1], candidates, loaded, input, results);
      CandidatesPruned(lines[|lines| - 1], candidates, loaded, input);
    }
  }

  lemma {:induction false} AdvancedPassPruned(candidates: seq<Promotion>, loaded: seq<Promotion>, input: EvalInput,
                                              results: seq<LineResult>)
    requires forall p :: p in candidates ==> p in loaded
    ensures AdvancedPass(candidates, Pruned(loaded, input), results) == AdvancedPass(candidates, input, results)
  {
    if candidates != [] {
      AdvancedPassPruned(candidates[..|candidates| - 1], loaded, input, results);
      UsableUnderPruning(candidates[|candidates| - 1], loaded, input);
    }
  }

  lemma {:induction false} OrderCandidatesPruned(candidates: seq<Promotion>, loaded: seq<Promotion>, input: EvalInput,
                                                 subtotal: int)
    requires forall p :: p in candidates ==> p in loaded
    ensures OrderCandidates(candidates, Pruned(loaded, input), subtotal) == OrderCandidates(candidates, input, subtotal)
  {
    if candidates != [] {
      OrderCandidatesPruned(candidates[..|candidates| - 1], loaded, input, subtotal);
      UsableUnderPruning(candidates[|candidates| - 1], loaded, input);
    }
  }

  lemma SelectPruned(candidates: seq<Promotion>, loaded: seq<Promotion>, input: EvalInput)
    requires forall p :: p in candidates ==> p in loaded
    ensures Select(candidates, Pruned(loaded, input)) == Select(candidates, input)
  {
    LinePassesPruned(input.lines, candidates, loaded, input, PdPass(input.lines, candidates, input));
    AdvancedPassPruned(candidates, loaded, input,
                       BxgyPass(input.lines, candidates, input, PdPass(input.lines, candidates, input)));
    var results := LinePasses(candidates, input);
    OrderCandidatesPruned(candidates, loaded, input, RankedSubtotal(input.lines, results));
  }

  lemma TargetablePruned(loaded: seq<Promotion>, input: EvalInput)
    ensures Targetable(loaded, Pruned(loaded, input)) == Targetable(loaded, input)
  {
    var pruned := Pruned(loaded, input);
    forall id | id in Targetable(loaded, input)
      ensures id in Targetable(loaded, pruned)
    {
      var p :| p in loaded && IsTargetable(p, input) && p.id == id;
      assert IsTargetable(p, pruned);
    }
    forall id | id in Targetable(loaded, pruned)
      ensures id in Targetable(loaded, input)
    {
      var p :| p in loaded && IsTargetable(p, pruned) && p.id == id;
      assert IsTargetable(p, input);
    }
  }

  /** Dropping every untargetable opt-in leaves the whole evaluation unchanged. */
  lemma {:induction false} EvaluatePruned(loaded: seq<Promotion>, input: EvalInput, excluded: set<Id>)
    ensures EvaluateFrom(loaded, Pruned(loaded, input), excluded) == EvaluateFrom(loaded, input, excluded)
    decreases |Ids(loaded) - excluded|
  {
    var candidates := Without(loaded, excluded);
    SelectPruned(candidates, loaded, input);
    TargetablePruned(loaded, input);
    var over := Overruns(candidates, input.lines, Select(candidates, input));
    if over != {} {
      OverrunsShrink(loaded, excluded, over);
      EvaluatePruned(loaded, input, excluded + over);
    }
  }

  // ----- The subtotal order discounts are ranked on -----

  /** What the lines cost after their own discounts. */
  function NetSubtotal(lines: seq<EvalLine>, results: seq<LineResult>): int {
    if lines == [] then 0
    else
      var line := lines[|lines| - 1];
      var off := match Existing(results, line.itemId) case None => 0 case Some(r) => SavedCents(line, r);
      NetSubtotal(lines[..|lines| - 1], results) + line.priceCents * line.quantity - off
  }

  /** The line's per-unit saving is counted once although the line has several units. */
  ghost predicate Undercounted(line: EvalLine, results: seq<LineResult>) {
    match Existing(results, line.itemId)
    case None => false
    case Some(r) => r.PerUnit? && line.quantity > 1 && AppliedCents(line, r) > 0
  }

  /** Order discounts are ranked on the subtotal after line discounts exactly when no per-unit discount
      sits on a line of more than one unit; otherwise on a larger amount. */
  lemma {:induction false} RankedSubtotalExactIff(lines: seq<EvalLine>, results: seq<LineResult>)
    requires forall l :: l in lines ==> 0 <= l.priceCents
    requires forall r :: r in results && r.PerUnit? ==> 1 <= r.value
    ensures NetSubtotal(lines, results) <= RankedSubtotal(lines, results)
    ensures NetSubtotal(lines, results) == RankedSubtotal(lines, results) <==>
              forall l :: l in lines ==> !Undercounted(l, results)
  {
    if lines != [] {
      var init, line := lines[..|lines| - 1], lines[|lines| - 1];
      RankedSubtotalExactIff(init, results);
      assert lines == init + [line];
      match Existing(results, line.itemId)
      case None =>
      case Some(r) =>
        if r.PerUnit? {
          var c := AppliedCents(line, r);
          assert 0 <= c by { if r.discountType == Percentage { PercentageFits(line.priceCents, ClampPercent(r.value)); } }
          assert c * line.quantity == c + c * (line.quantity - 1);
          if c > 0 && line.quantity > 1 {
            ProductMonotone(1, line.quantity - 1, c);
          }
        }
    }
  }
}
