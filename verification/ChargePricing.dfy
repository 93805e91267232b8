/** The authoritative recompute inside the charge transaction (src/sales/sales.service.ts), against the counters its capacity
claims go to (src/promotions/domain/promotion.entity.ts,
src/promotions/infrastructure/prisma-promotion-usage.repository.ts).
*/
module ChargePricing {
  import opened Common
  import opened Recompute
  import opened SaleStore
  import E = PromotionEngine
  import Laws = EngineLaws

  // ----- Every promotion a selection demands units of was loaded -----

  ghost predicate FromIds(results: seq<E.LineResult>, ids: set<Id>) {
    forall r :: r in results ==> r.promotionId in ids
  }

  lemma {:induction false} PdPassFrom(lines: seq<E.EvalLine>, candidates: seq<E.Promotion>, input: E.EvalInput)
    ensures FromIds(E.PdPass(lines, candidates, input), E.Ids(candidates))
  {
    if lines != [] {
      PdPassFrom(lines[..|lines| - 1], candidates, input);
      Laws.PdWinnerIsMostSpecificBest(lines[|lines| - 1], candidates, input);
    }
  }

  lemma UpsertFrom(results: seq<E.LineResult>, x: E.LineResult, ids: set<Id>)
    requires FromIds(results, ids) && x.promotionId in ids
    ensures FromIds(E.Upsert(results, x), ids)
  {
  }

  lemma {:induction false} BxgyPassFrom(lines: seq<E.EvalLine>, candidates: seq<E.Promotion>, input: E.EvalInput,
                                        results: seq<E.LineResult>)
    requires FromIds(results, E.Ids(candidates))
    ensures FromIds(E.BxgyPass(lines, candidates, input, results), E.Ids(candidates))
  {
    if lines != [] {
      var line, rest := lines[|lines| - 1], E.BxgyPass(lines[..|lines| - 1], candidates, input, results);
      BxgyPassFrom(lines[..|lines| - 1], candidates, input, results);
      match E.BxgyWinner(line, candidates, input)
      case None =>
      case Some(w) => UpsertFrom(rest, E.BxgyResult(line, w.promotion), E.Ids(candidates));
    }
  }

  lemma {:induction false} ApplyRewardsFrom(p: E.Promotion, rewards: seq<E.Reward>, results: seq<E.LineResult>, ids: set<Id>)
    requires E.HasRewardFields(p) && FromIds(results, ids) && p.id in ids
    ensures FromIds(E.ApplyRewards(p, rewards, results), ids)
  {
    if rewards != [] {
      var n := |rewards| - 1;
      ApplyRewardsFrom(p, rewards[..n], results, ids);
      UpsertFrom(E.ApplyRewards(p, rewards[..n], results), E.AdvancedResult(p, rewards[n]), ids);
    }
  }

  lemma {:induction false} AdvancedPassFrom(some: seq<E.Promotion>, ids: set<Id>, input: E.EvalInput, results: seq<E.LineResult>)
    requires FromIds(results, ids) && forall p :: p in some ==> p.id in ids
    ensures FromIds(E.AdvancedPass(some, input, results), ids)
  {
    if some != [] {
      var n := |some| - 1;
      AdvancedPassFrom(some[..n], ids, input, results);
      if E.AdvancedUsable(some[n], input) {
        ApplyRewardsFrom(some[n], E.AdvancedRewards(some[n], input.lines), E.AdvancedPass(some[..n], input, results), ids);
      }
    }
  }

  lemma {:induction false} OrderCandidatesFrom(candidates: seq<E.Promotion>, input: E.EvalInput, subtotal: int)
    ensures forall c :: c in E.OrderCandidates(candidates, input, subtotal) ==> c.promotion in candidates
  {
    if candidates != [] {
      OrderCandidatesFrom(candidates[..|candidates| - 1], input, subtotal);
    }
  }

  lemma SelectFrom(candidates: seq<E.Promotion>, input: E.EvalInput)
    ensures E.SelectedIds(E.Select(candidates, input)) <= E.Ids(candidates)
  {
    var pd := E.PdPass(input.lines, candidates, input);
    var bxgy := E.BxgyPass(input.lines, candidates, input, pd);
    PdPassFrom(input.lines, candidates, input);
    BxgyPassFrom(input.lines, candidates, input, pd);
    AdvancedPassFrom(candidates, E.Ids(candidates), input, bxgy);
    var subtotal := E.RankedSubtotal(input.lines, E.LinePasses(candidates, input));
    OrderCandidatesFrom(candidates, input, subtotal);
    E.BestIsCandidate(E.OrderCandidates(candidates, input, subtotal));
  }

  // ----- Pricing a charge -----

  /** The promotions the draft's lines and its order carry before the recompute. */
  function AppliedIds(sale: SaleState): set<Id> {
    (set s | s in sale.items && s.discount.promotionId.Some? :: s.discount.promotionId.value)
    + if sale.orderPromotion.Some? then {sale.orderPromotion.value.promotionId} else {}
  }

  function Claims(demands: map<Id, nat>): map<Id, Positive> {
    map id | id in demands && demands[id] > 0 :: demands[id]
  }

  /** A line out of date, a discount no line can take or a promotion the preview showed and capacity now excludes refuses
      the charge; else it costs what the preview of the recomputed draft costs. */
  function Priced(sale: SaleState, env: Environment): Option<Pricing> {
    if exists s :: s in sale.items && !PassesCharge(s, sale.listId, env) then None
    else
      match Recomputed(sale, env)
      case Err(_) => None
      case Ok(o) =>
        if AppliedIds(sale) * o.excluded != {} then None
        else Some(Pricing(PreviewTotals(o.sale).totalCents, Claims(o.demands)))
  }

  // ----- Capacity -----

  /** What is left of each loaded promotion was read from its counter; both counts are 32-bit columns. */
  ghost predicate ReadFrom(loaded: seq<E.Promotion>, counters: map<Id, Counter>) {
    forall p :: p in loaded ==>
      && p.id in counters
      && var c := counters[p.id];
         if c.max.None? then p.remainingUnits.None?
         else c.max.value <= INT_MAX && p.remainingUnits == Some(c.max.value - c.consumed)
  }

  /** An unlimited promotion whose counter cannot hold the units. */
  predicate Overflows(counters: map<Id, Counter>, claims: map<Id, Positive>) {
    exists id :: id in claims && id in counters && counters[id].max.None? && counters[id].consumed + claims[id] > INT_MAX
  }

  lemma {:induction false} RemainingRead(candidates: seq<E.Promotion>, counters: map<Id, Counter>, id: Id)
    requires ReadFrom(candidates, counters) && id in E.Ids(candidates) && id in counters
    ensures counters[id].max.Some? ==> E.Remaining(candidates, id) == Some(counters[id].max.value - counters[id].consumed)
  {
    var n := |candidates| - 1;
    assert candidates[n] in candidates;
    if candidates[n].id != id {
      assert id in E.Ids(candidates[..n]);
      RemainingRead(candidates[..n], counters, id);
    }
  }

  lemma DemandFits(sale: SaleState, env: Environment, counters: map<Id, Counter>, id: Id)
    requires ReadFrom(env.promotions, counters)
    requires id in Evaluation(sale, env).demands
    ensures id in counters
    ensures counters[id].max.Some? ==>
              && counters[id].consumed + Evaluation(sale, env).demands[id] <= counters[id].max.value
              && counters[id].max.value <= INT_MAX
  {
    var input := EngineInput(PreparedItems(sale.items, BoundList(sale, env), env.catalog), sale, env);
    var loaded := E.BotFiltered(env.promotions, env.botOnly);
    var candidates := E.Without(loaded, Evaluation(sale, env).excluded);
    Laws.EvaluateWithinCapacity(loaded, input, {});
    SelectFrom(candidates, input);
    var p :| p in candidates && p.id == id;
    assert p in env.promotions;
    RemainingRead(candidates, counters, id);
  }

  /** The claims of a recompute fit the counters it read exactly when no unlimited promotion's counter would overflow. */
  lemma OwnClaimsFitIff(sale: SaleState, env: Environment, counters: map<Id, Counter>)
    requires ReadFrom(env.promotions, counters) && Priced(sale, env).Some?
    ensures var claims := Priced(sale, env).value.claims;
            ClaimsFit(counters, claims) <==> !Overflows(counters, claims)
  {
    var claims := Priced(sale, env).value.claims;
    forall id | id in claims
      ensures id in counters
      ensures Fits(counters[id], claims[id]) || (counters[id].max.None? && counters[id].consumed + claims[id] > INT_MAX)
    {
      DemandFits(sale, env, counters, id);
    }
  }

  /** A charge priced by its own recompute costs what the preview showed, and run alone it is never refused for capacity but
      for a counter that would overflow. */
  lemma OwnPricingCharges(db: Db, r: ChargeRequest, sale: SaleState, env: Environment, today: int)
    requires ReadFrom(env.promotions, db.promotions)
    ensures var result, p := ChargeTx(db, r, Priced(sale, env), today), Priced(sale, env);
            && (result == Err(PromotionCapacityExceeded) ==> p.Some? && Overflows(db.promotions, p.value.claims))
            && (result.Ok? ==>
                  && Recomputed(sale, env).Ok?
                  && result.value.0.sales[r.saleId].totalCents == PreviewTotals(Recomputed(sale, env).value.sale).totalCents
                  && !Overflows(db.promotions, p.value.claims))
  {
    if Priced(sale, env).Some? {
      OwnClaimsFitIff(sale, env, db.promotions);
    }
  }
}
