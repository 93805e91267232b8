/** The draft pricing pipeline clear -> reprice -> evaluate -> apply -> prune:
src/sales/sales.service.ts (recomputePricingAndPromotions and its helpers) over
src/sales/domain/sale.entity.ts.
*/
module Recompute {
  import opened Common
  import opened SaleItems
  import opened PriceResolver
  import E = PromotionEngine
  import Laws = EngineLaws

  /** A draft. `listId` is the sale-level global list; `optedIn` the opted-in manual promotions. */
  datatype SaleState = SaleState(
    items: seq<ItemState>,
    customerId: Option<Id>,
    listId: Option<Id>,
    vetoed: set<Id>,
    optedIn: set<Id>,
    orderPromotion: Option<E.OrderResult>
  )

  datatype Tags = Tags(categoryId: Option<Id>, brandId: Option<Id>)

  /** Everything a recompute reads besides the draft; the clock is inside `promotions`. */
  datatype Environment = Environment(
    catalog: Catalog,
    defaultListId: Option<Id>,
    tags: map<Id, Tags>,
    promotions: seq<E.Promotion>,
    botOnly: bool,
    asUnregistered: bool
  )

  datatype Outcome = Outcome(sale: SaleState, demands: map<Id, nat>, excluded: set<Id>)

  // ----- (1) clear, (2) reprice -----

  function Cleared(s: ItemState): ItemState {
    if s.discount.promotionId.Some? then Undiscounted(s) else s
  }

  /** The sale-level list; "no list" means the default one. */
  function BoundList(sale: SaleState, env: Environment): Option<Id> {
    if sale.listId.Some? then sale.listId else env.defaultListId
  }

  /** The list a line is priced in: its own override, else the bound list. */
  function EffectiveList(s: ItemState, bound: Option<Id>): Option<Id> {
    if s.appliedPriceListId.Some? then s.appliedPriceListId else bound
  }

  function CatalogPrice(s: ItemState, bound: Option<Id>, c: Catalog): Option<nat> {
    match EffectiveList(s, bound)
    case None => None
    case Some(listId) => Resolve(c, s.productId, s.variantId, listId, s.quantity)
  }

  function RepricedLine(s: ItemState, bound: Option<Id>, c: Catalog): ItemState {
    if s.Sticky() || CatalogPrice(s, bound, c).None? then s
    else Repriced(s, CatalogPrice(s, bound, c).value, PriceList, s.appliedPriceListId).value
  }

  function PreparedItems(items: seq<ItemState>, bound: Option<Id>, c: Catalog): (r: seq<ItemState>)
    ensures |r| == |items|
    ensures forall i :: 0 <= i < |items| ==> r[i] == RepricedLine(Cleared(items[i]), bound, c)
  {
    seq(|items|, i requires 0 <= i < |items| => RepricedLine(Cleared(items[i]), bound, c))
  }

  // ----- (3) engine input -----

  function GlobalListOf(rows: seq<PriceRow>, listId: Id): Option<Id> {
    if rows == [] then None
    else if rows[0].listId == listId then Some(rows[0].globalListId)
    else GlobalListOf(rows[1..], listId)
  }

  function EngineLine(s: ItemState, bound: Option<Id>, env: Environment): E.EvalLine {
    var global :=
      if s.appliedPriceListId.Some? then GlobalListOf(env.catalog.productRows, s.appliedPriceListId.value)
      else if env.botOnly then bound
      else None;
    var tags := if s.productId in env.tags then env.tags[s.productId] else Tags(None, None);
    E.EvalLine(s.id, s.productId, s.variantId, s.quantity, s.BaseCents(), global, tags.categoryId, tags.brandId,
               s.HasManualDiscount())
  }

  function EngineInput(items: seq<ItemState>, sale: SaleState, env: Environment): E.EvalInput {
    E.EvalInput(sale.customerId, env.asUnregistered, env.botOnly,
                seq(|items|, i requires 0 <= i < |items| => EngineLine(items[i], BoundList(sale, env), env)),
                sale.vetoed, sale.optedIn)
  }

  // ----- (5) apply -----

  function ApplyTo(s: ItemState, r: E.LineResult): Result<ItemState, ItemError> {
    match r
    case PerUnit(_, promotionId, kind, value, title) => Discounted(s, kind, value, Some(title), Some(promotionId))
    case WholeLine(_, promotionId, title, lineCents, perUnitCents, _, percent, kind) =>
      Rewarded(s, lineCents, perUnitCents, percent, Some(title), promotionId, kind)
  }

  function FindItem(items: seq<ItemState>, id: Id): (r: Option<nat>)
    ensures r.Some? ==> r.value < |items| && items[r.value].id == id
    ensures r.None? ==> forall i :: 0 <= i < |items| ==> items[i].id != id
  {
    if items == [] then None
    else if items[0].id == id then Some(0)
    else
      match FindItem(items[1..], id)
      case None => None
      case Some(i) => Some(i + 1)
  }

  function ApplyOne(items: seq<ItemState>, r: E.LineResult): (o: Result<seq<ItemState>, ItemError>)
    ensures o.Ok? ==> |o.value| == |items|
  {
    match FindItem(items, r.itemId)
    case None => Ok(items)
    case Some(i) =>
      match ApplyTo(items[i], r)
      case Err(e) => Err(e)
      case Ok(t) => Ok(items[i := t])
  }

  function ApplyAll(items: seq<ItemState>, results: seq<E.LineResult>): (o: Result<seq<ItemState>, ItemError>)
    ensures o.Ok? ==> |o.value| == |items|
  {
    if results == [] then Ok(items)
    else
      match ApplyAll(items, results[..|results| - 1])
      case Err(e) => Err(e)
      case Ok(done) => ApplyOne(done, results[|results| - 1])
  }

  // ----- The pipeline -----

  function Evaluation(sale: SaleState, env: Environment): E.EvalResult {
    E.Evaluate(env.promotions, EngineInput(PreparedItems(sale.items, BoundList(sale, env), env.catalog), sale, env))
  }

  function Recomputed(sale: SaleState, env: Environment): Result<Outcome, ItemError> {
    var prepared := PreparedItems(sale.items, BoundList(sale, env), env.catalog);
    var r := Evaluation(sale, env);
    match ApplyAll(prepared, r.selection.lines)
    case Err(e) => Err(e)
    case Ok(items) =>
      Ok(Outcome(sale.(items := items, orderPromotion := r.selection.order, optedIn := sale.optedIn * r.targetable),
                 r.demands, r.excluded))
  }

  ghost predicate ValidSale(sale: SaleState) {
    && (forall s :: s in sale.items ==> s.Valid())
    && (forall i, j :: 0 <= i < j < |sale.items| ==> sale.items[i].id != sale.items[j].id)
  }

  // ----- Totals -----

  function BaseLines(items: seq<ItemState>): seq<int> {
    seq(|items|, i requires 0 <= i < |items| => items[i].BaseCents() * items[i].quantity)
  }

  function NetLines(items: seq<ItemState>): seq<int> {
    seq(|items|, i requires 0 <= i < |items| => items[i].NetCents())
  }

  datatype Totals = Totals(subtotalCents: int, discountCents: int, totalCents: int)

  function Max(a: int, b: int): int { if a < b then b else a }
  function Min(a: int, b: int): int { if a < b then a else b }

  function OrderCents(sale: SaleState): int {
    if sale.orderPromotion.Some? then sale.orderPromotion.value.amountCents else 0
  }

  function PreviewTotals(sale: SaleState): Totals {
    var subtotal := Sum(BaseLines(sale.items));
    var total := Max(0, Sum(NetLines(sale.items)) - OrderCents(sale));
    Totals(subtotal, Min(subtotal, subtotal - total), total)
  }

  // ----- How results land on lines -----

  function ResultFor(results: seq<E.LineResult>, id: Id): Option<E.LineResult> {
    E.Existing(results, id)
  }

  function AppliedItem(s: ItemState, results: seq<E.LineResult>): Result<ItemState, ItemError> {
    match ResultFor(results, s.id)
    case None => Ok(s)
    case Some(r) => ApplyTo(s, r)
  }

  lemma {:induction false} ExistingSnoc(results: seq<E.LineResult>, r: E.LineResult, id: Id)
    ensures E.Existing(results + [r], id) ==
            if E.Existing(results, id).Some? then E.Existing(results, id)
            else if r.itemId == id then Some(r) else None
  {
    if results == [] {
      assert [r][1..] == [];
    } else {
      ExistingSnoc(results[1..], r, id);
      assert (results + [r])[1..] == results[1..] + [r];
    }
  }

  /** Applying the results one by one gives each line its own result, and fails exactly when some line refuses it. */
  lemma {:induction false} ApplyAllPointwise(items: seq<ItemState>, results: seq<E.LineResult>)
    requires forall i, j :: 0 <= i < j < |items| ==> items[i].id != items[j].id
    requires Laws.DistinctResults(results)
    ensures ApplyAll(items, results).Ok? <==> forall i :: 0 <= i < |items| ==> AppliedItem(items[i], results).Ok?
    ensures ApplyAll(items, results).Ok? ==>
              forall i :: 0 <= i < |items| ==> AppliedItem(items[i], results) == Ok(ApplyAll(items, results).value[i])
  {
    if results != [] {
      var init, r := results[..|results| - 1], results[|results| - 1];
      ApplyAllPointwise(items, init);
      assert results == init + [r];
      forall s | s in items
        ensures AppliedItem(s, results) == if s.id == r.itemId then ApplyTo(s, r) else AppliedItem(s, init)
        ensures s.id == r.itemId ==> AppliedItem(s, init) == Ok(s)
      {
        ExistingSnoc(init, r, s.id);
        assert forall k :: 0 <= k < |init| ==> results[k].itemId != r.itemId;
      }
      if ApplyAll(items, init).Ok? {
        ApplyLast(items, init, r, ApplyAll(items, init).value);
      } else {
        var i :| 0 <= i < |items| && AppliedItem(items[i], init).Err?;
        assert items[i] in items;
      }
    }
  }

  lemma ApplyLast(items: seq<ItemState>, init: seq<E.LineResult>, r: E.LineResult, done: seq<ItemState>)
    requires forall i, j :: 0 <= i < j < |items| ==> items[i].id != items[j].id
    requires |done| == |items| && forall i :: 0 <= i < |items| ==> AppliedItem(items[i], init) == Ok(done[i])
    requires forall s :: s in items ==>
               && AppliedItem(s, init + [r]) == (if s.id == r.itemId then ApplyTo(s, r) else AppliedItem(s, init))
               && (s.id == r.itemId ==> AppliedItem(s, init) == Ok(s))
    ensures ApplyOne(done, r).Ok? <==> forall i :: 0 <= i < |items| ==> AppliedItem(items[i], init + [r]).Ok?
    ensures ApplyOne(done, r).Ok? ==>
              forall i :: 0 <= i < |items| ==> AppliedItem(items[i], init + [r]) == Ok(ApplyOne(done, r).value[i])
  {
    forall i | 0 <= i < |items|
      ensures done[i].id == items[i].id
    {
      assert items[i] in items;
    }
    match FindItem(done, r.itemId)
    case None =>
      forall i | 0 <= i < |items|
        ensures AppliedItem(items[i], init + [r]) == Ok(done[i])
      {
        assert items[i] in items;
      }
    case Some(k) =>
      assert items[k] in items && done[k] == items[k];
      forall i | 0 <= i < |items| && i != k
        ensures AppliedItem(items[i], init + [r]) == Ok(done[i])
      {
        assert items[i] in items;
      }
  }

  // ----- What a recompute keeps -----

  lemma PreparedLine(s: ItemState, bound: Option<Id>, c: Catalog)
    requires s.Valid()
    ensures var t := RepricedLine(Cleared(s), bound, c);
            && t.Valid() && t.discount.promotionId.None?
            && t.id == s.id && t.productId == s.productId && t.variantId == s.variantId && t.quantity == s.quantity
            && t.appliedPriceListId == s.appliedPriceListId
            && (!t.HasManualDiscount() ==> t.discount == NO_DISCOUNT)
            && (s.HasManualDiscount() ==> t == s)
            && (s.priceSource == Custom ==> t.priceSource == Custom && t.BaseCents() == s.BaseCents())
            && Cleared(t) == t && RepricedLine(t, bound, c) == t
  {
  }

  lemma {:induction false} TargetableReported(loaded: seq<E.Promotion>, input: E.EvalInput, excluded: set<Id>)
    ensures E.EvaluateFrom(loaded, input, excluded).targetable == E.Targetable(loaded, input)
    ensures E.EvaluateFrom(loaded, input, excluded).selection.order.Some? ==>
              E.EvaluateFrom(loaded, input, excluded).selection.order.value.amountCents > 0
    decreases |E.Ids(loaded) - excluded|
  {
    var candidates := E.Without(loaded, excluded);
    var s := E.Select(candidates, input);
    var subtotal := E.RankedSubtotal(input.lines, s.lines);
    OrderCandidatesPositive(candidates, input, subtotal);
    E.BestIsCandidate(E.OrderCandidates(candidates, input, subtotal));
    var over := E.Overruns(candidates, input.lines, s);
    if over != {} {
      E.OverrunsShrink(loaded, excluded, over);
      TargetableReported(loaded, input, excluded + over);
    }
  }

  lemma {:induction false} OrderCandidatesPositive(candidates: seq<E.Promotion>, input: E.EvalInput, subtotal: int)
    ensures forall c :: c in E.OrderCandidates(candidates, input, subtotal) ==> c.cents > 0
  {
    if candidates != [] {
      OrderCandidatesPositive(candidates[..|candidates| - 1], input, subtotal);
    }
  }

  /** The engine's results, each legal for the prepared line it names. */
  lemma ResultsLegal(sale: SaleState, env: Environment)
    requires ValidSale(sale)
    ensures var prepared := PreparedItems(sale.items, BoundList(sale, env), env.catalog);
            var results := Evaluation(sale, env).selection.lines;
            && Laws.DistinctResults(results)
            && (forall i, j :: 0 <= i < j < |prepared| ==> prepared[i].id != prepared[j].id)
            && forall i :: 0 <= i < |prepared| && ResultFor(results, prepared[i].id).Some? ==>
                 Laws.LegalFor(EngineLine(prepared[i], BoundList(sale, env), env),
                               ResultFor(results, prepared[i].id).value)
  {
    var bound := BoundList(sale, env);
    var prepared := PreparedItems(sale.items, bound, env.catalog);
    var input := EngineInput(prepared, sale, env);
    var results := Evaluation(sale, env).selection.lines;
    PreparedIds(sale, bound, env.catalog);
    assert Laws.DistinctLines(input.lines);
    Laws.EvaluateSound(E.BotFiltered(env.promotions, env.botOnly), input, {});
    forall i | 0 <= i < |prepared| && ResultFor(results, prepared[i].id).Some?
      ensures Laws.LegalFor(EngineLine(prepared[i], bound, env), ResultFor(results, prepared[i].id).value)
    {
      LegalAtIndex(results, input.lines, i);
    }
  }

  lemma PreparedIds(sale: SaleState, bound: Option<Id>, c: Catalog)
    requires ValidSale(sale)
    ensures var prepared := PreparedItems(sale.items, bound, c);
            forall i, j :: 0 <= i < j < |prepared| ==> prepared[i].id != prepared[j].id
  {
    forall i | 0 <= i < |sale.items|
      ensures PreparedItems(sale.items, bound, c)[i].id == sale.items[i].id
    {
      assert sale.items[i] in sale.items;
      PreparedLine(sale.items[i], bound, c);
    }
  }

  lemma LegalAtIndex(results: seq<E.LineResult>, lines: seq<E.EvalLine>, i: nat)
    requires Laws.DistinctLines(lines) && Laws.SoundResults(results, lines) && i < |lines|
    requires ResultFor(results, lines[i].itemId).Some?
    ensures Laws.LegalFor(lines[i], ResultFor(results, lines[i].itemId).value)
  {
    var r := ResultFor(results, lines[i].itemId).value;
    assert Laws.Legal(r, lines);
    var l :| l in lines && Laws.LegalFor(l, r);
    var k :| 0 <= k < |lines| && lines[k] == l;
  }

  /** A prepared line takes any legal reward, and a per-unit discount exactly when it leaves at least a cent. */
  ghost predicate Absorbs(s: ItemState, results: seq<E.LineResult>) {
    match ResultFor(results, s.id)
    case Some(PerUnit(_, _, kind, value, _)) => DiscountFits(kind, value, s.unitPriceCents)
    case _ => true
  }

  /** A prepared line and the engine line made of it. */
  ghost predicate Twin(s: ItemState, line: E.EvalLine) {
    && s.Valid() && s.discount.promotionId.None? && (!s.HasManualDiscount() ==> s.discount == NO_DISCOUNT)
    && line.itemId == s.id && line.quantity == s.quantity && line.priceCents == s.BaseCents()
    && line.manualDiscount == s.HasManualDiscount()
  }

  /** What applying a result to a prepared line leaves alone, and how far it can go. */
  ghost predicate Rewards(s: ItemState, t: ItemState) {
    && t.Valid() && Cleared(t) == s
    && t.id == s.id && t.productId == s.productId && t.variantId == s.variantId && t.quantity == s.quantity
    && t.appliedPriceListId == s.appliedPriceListId && t.priceSource == s.priceSource
    && t.BaseCents() == s.BaseCents()
    && (s.HasManualDiscount() ==> t == s)
    && t.RewardCents() <= t.unitPriceCents * t.quantity
    && t.unitPriceCents <= t.BaseCents()
  }

  lemma PerUnitLine(s: ItemState, line: E.EvalLine, r: E.LineResult)
    requires Twin(s, line) && Laws.LegalFor(line, r) && r.PerUnit?
    ensures ApplyTo(s, r).Ok? <==> DiscountFits(r.discountType, r.value, s.unitPriceCents)
    ensures ApplyTo(s, r).Ok? ==> Rewards(s, ApplyTo(s, r).value)
  {
    DiscountAcceptedIff(s, r.discountType, r.value, Some(r.title), Some(r.promotionId));
    if ApplyTo(s, r).Ok? {
      var t := ApplyTo(s, r).value;
      ProductMonotone(0, t.unitPriceCents, t.quantity);
    }
  }

  lemma WholeLineLine(s: ItemState, line: E.EvalLine, r: E.LineResult)
    requires Twin(s, line) && Laws.LegalFor(line, r) && r.WholeLine?
    ensures ApplyTo(s, r).Ok? && Rewards(s, ApplyTo(s, r).value)
  {
    assert s.discount == NO_DISCOUNT;
  }

  lemma UntouchedLine(s: ItemState)
    requires s.Valid() && s.discount.promotionId.None?
    ensures Rewards(s, s)
  {
    ProductMonotone(0, s.unitPriceCents, s.quantity);
  }

  lemma AppliedLine(s: ItemState, line: E.EvalLine, results: seq<E.LineResult>)
    requires Twin(s, line)
    requires ResultFor(results, s.id).Some? ==> Laws.LegalFor(line, ResultFor(results, s.id).value)
    ensures AppliedItem(s, results).Ok? <==> Absorbs(s, results)
    ensures AppliedItem(s, results).Ok? ==> Rewards(s, AppliedItem(s, results).value)
  {
    match ResultFor(results, s.id)
    case None => UntouchedLine(s);
    case Some(r) =>
      if r.PerUnit? {
        PerUnitLine(s, line, r);
      } else {
        WholeLineLine(s, line, r);
      }
  }

  /** Recompute succeeds exactly when no winning per-unit discount swallows its line's whole unit price:
      a fixed amount must be below the price, a percentage p must leave price * (100 - p) > 50. */
  lemma RecomputeSucceedsIff(sale: SaleState, env: Environment)
    requires ValidSale(sale)
    ensures var prepared := PreparedItems(sale.items, BoundList(sale, env), env.catalog);
            Recomputed(sale, env).Ok? <==>
            forall s :: s in prepared ==> Absorbs(s, Evaluation(sale, env).selection.lines)
  {
    var bound := BoundList(sale, env);
    var prepared := PreparedItems(sale.items, bound, env.catalog);
    var results := Evaluation(sale, env).selection.lines;
    ResultsLegal(sale, env);
    ApplyAllPointwise(prepared, results);
    forall i | 0 <= i < |prepared|
      ensures AppliedItem(prepared[i], results).Ok? <==> Absorbs(prepared[i], results)
    {
      PreparedLine(sale.items[i], bound, env.catalog);
      AppliedLine(prepared[i], EngineLine(prepared[i], bound, env), results);
    }
  }

  /** What the engine emits for a product discount leaves at least a cent of this unit price. */
  predicate LeavesACent(p: E.Promotion, priceCents: int) {
    match E.PdResult(0, p)
    case PerUnit(_, _, kind, value, _) => DiscountFits(kind, value, priceCents)
    case _ => true
  }

  /** No product discount that is eligible on a line swallows the line's unit price. */
  ghost predicate NoneSwallows(sale: SaleState, env: Environment) {
    var input := EngineInput(PreparedItems(sale.items, BoundList(sale, env), env.catalog), sale, env);
    forall l, p :: l in input.lines && !l.manualDiscount && p in env.promotions && E.PdEligible(l, p, input) ==>
                     LeavesACent(p, l.priceCents)
  }

  /** A recompute succeeds whenever every eligible product discount, winner or not, leaves its line a cent: no fixed amount
      at or above the price, no percentage p with price * (100 - p) <= 50. */
  lemma RecomputeSucceedsWhen(sale: SaleState, env: Environment)
    requires ValidSale(sale) && NoneSwallows(sale, env)
    ensures Recomputed(sale, env).Ok?
  {
    var bound := BoundList(sale, env);
    var prepared := PreparedItems(sale.items, bound, env.catalog);
    var input := EngineInput(prepared, sale, env);
    var results := Evaluation(sale, env).selection.lines;
    RecomputeSucceedsIff(sale, env);
    ResultsLegal(sale, env);
    Laws.EvaluateEarned(E.BotFiltered(env.promotions, env.botOnly), input, {});
    forall i | 0 <= i < |prepared|
      ensures Absorbs(prepared[i], results)
    {
      PreparedLine(sale.items[i], bound, env.catalog);
      EarnedAbsorbed(prepared, sale, env, i, results);
    }
  }

  lemma EarnedAbsorbed(prepared: seq<ItemState>, sale: SaleState, env: Environment, i: nat, results: seq<E.LineResult>)
    requires prepared == PreparedItems(sale.items, BoundList(sale, env), env.catalog) && i < |prepared|
    requires forall j, k :: 0 <= j < k < |prepared| ==> prepared[j].id != prepared[k].id
    requires NoneSwallows(sale, env) && prepared[i].Valid() && prepared[i].discount.promotionId.None?
    requires !prepared[i].HasManualDiscount() ==> prepared[i].discount == NO_DISCOUNT
    requires var input := EngineInput(prepared, sale, env);
             && Laws.PerUnitsEarned(results, input.lines, E.BotFiltered(env.promotions, env.botOnly), input)
             && (ResultFor(results, prepared[i].id).Some? ==> Laws.LegalFor(input.lines[i], ResultFor(results, prepared[i].id).value))
    ensures Absorbs(prepared[i], results)
  {
    var input := EngineInput(prepared, sale, env);
    match ResultFor(results, prepared[i].id)
    case Some(PerUnit(itemId, promotionId, kind, value, title)) =>
      var r := ResultFor(results, prepared[i].id).value;
      assert r in results;
      assert Laws.FromProductDiscount(r, input.lines, E.BotFiltered(env.promotions, env.botOnly), input);
      var l, p :| l in input.lines && p in E.BotFiltered(env.promotions, env.botOnly) && Laws.ProductDiscountOf(r, l, p, input);
      var k :| 0 <= k < |prepared| && input.lines[k] == l;
      assert k == i;
      assert LeavesACent(p, l.priceCents);
    case _ =>
  }

  /** What one recompute does to one line. */
  ghost predicate KeepsLine(before: ItemState, after: ItemState) {
    && after.Valid()
    && after.id == before.id && after.productId == before.productId && after.variantId == before.variantId
    && after.quantity == before.quantity && after.appliedPriceListId == before.appliedPriceListId
    && (before.HasManualDiscount() ==> after == before)
    && (before.priceSource == Custom ==> after.priceSource == Custom && after.BaseCents() == before.BaseCents())
    && after.RewardCents() <= after.unitPriceCents * after.quantity
    && after.unitPriceCents <= after.BaseCents()
  }

  /** Manual discounts and custom base prices survive, identity and quantity never change, and no reward exceeds its line. */
  lemma RecomputeKeeps(sale: SaleState, env: Environment)
    requires ValidSale(sale) && Recomputed(sale, env).Ok?
    ensures var after := Recomputed(sale, env).value.sale;
            && ValidSale(after)
            && |after.items| == |sale.items|
            && (forall i :: 0 <= i < |sale.items| ==> KeepsLine(sale.items[i], after.items[i]))
            && after.customerId == sale.customerId && after.listId == sale.listId && after.vetoed == sale.vetoed
            && after.optedIn <= sale.optedIn
            && 0 <= OrderCents(after)
  {
    var bound := BoundList(sale, env);
    var after := Recomputed(sale, env).value.sale;
    forall i | 0 <= i < |sale.items|
      ensures KeepsLine(sale.items[i], after.items[i])
    {
      RecomputedLine(sale, env, i);
    }
    assert forall s :: s in after.items ==> s.Valid();
    var prepared := PreparedItems(sale.items, bound, env.catalog);
    TargetableReported(E.BotFiltered(env.promotions, env.botOnly), EngineInput(prepared, sale, env), {});
  }

  lemma RecomputedLine(sale: SaleState, env: Environment, i: nat)
    requires ValidSale(sale) && Recomputed(sale, env).Ok? && i < |sale.items|
    ensures var after := Recomputed(sale, env).value.sale;
            var prepared := PreparedItems(sale.items, BoundList(sale, env), env.catalog);
            && |after.items| == |sale.items|
            && KeepsLine(sale.items[i], after.items[i])
            && Cleared(after.items[i]) == prepared[i]
            && RepricedLine(prepared[i], BoundList(sale, env), env.catalog) == prepared[i]
            && after.items[i].BaseCents() == prepared[i].BaseCents()
            && after.items[i].priceSource == prepared[i].priceSource
  {
    var bound := BoundList(sale, env);
    var prepared := PreparedItems(sale.items, bound, env.catalog);
    var results := Evaluation(sale, env).selection.lines;
    ResultsLegal(sale, env);
    ApplyAllPointwise(prepared, results);
    assert sale.items[i] in sale.items;
    PreparedLine(sale.items[i], bound, env.catalog);
    AppliedLine(prepared[i], EngineLine(prepared[i], bound, env), results);
  }

  // ----- The fixpoint -----

  /** Recomputing a recomputed draft, with catalog and clock fixed, changes nothing and reports the same demands. */
  lemma RecomputeIsFixpoint(sale: SaleState, env: Environment)
    requires ValidSale(sale) && Recomputed(sale, env).Ok?
    ensures var once := Recomputed(sale, env).value;
            Recomputed(once.sale, env) == Ok(once)
  {
    var once := Recomputed(sale, env).value;
    var after := once.sale;
    var bound := BoundList(sale, env);
    var prepared := PreparedItems(sale.items, bound, env.catalog);
    assert BoundList(after, env) == bound;
    var again := PreparedItems(after.items, bound, env.catalog);
    forall i | 0 <= i < |prepared|
      ensures again[i] == prepared[i]
    {
      RecomputedLine(sale, env, i);
    }
    assert again == prepared;
    var loaded := E.BotFiltered(env.promotions, env.botOnly);
    var input := EngineInput(prepared, sale, env);
    TargetableReported(loaded, input, {});
    assert EngineInput(again, after, env) == Laws.Pruned(loaded, input);
    Laws.EvaluatePruned(loaded, input, {});
    assert after.optedIn * Evaluation(sale, env).targetable == after.optedIn;
  }

  // ----- Totals -----

  /** Totals of a recomputed draft: total within [0, subtotal], discount the difference. */
  lemma TotalsConsistent(sale: SaleState, env: Environment)
    requires ValidSale(sale) && Recomputed(sale, env).Ok?
    ensures var t := PreviewTotals(Recomputed(sale, env).value.sale);
            0 <= t.totalCents <= t.subtotalCents && t.discountCents == t.subtotalCents - t.totalCents
  {
    var after := Recomputed(sale, env).value.sale;
    RecomputeKeeps(sale, env);
    forall i | 0 <= i < |after.items|
      ensures 0 <= NetLines(after.items)[i] <= BaseLines(after.items)[i]
    {
      var s := after.items[i];
      assert sale.items[i] in sale.items;
      ProductMonotone(s.unitPriceCents, s.BaseCents(), s.quantity);
    }
    SumMonotone(NetLines(after.items), BaseLines(after.items));
    SumNonNegative(NetLines(after.items));
  }

  // ----- The charge-time price check -----

  /** The base price in the default list, tiers ignored; zero when the list has no row. */
  function DefaultBasePrice(s: ItemState, env: Environment): nat {
    if env.defaultListId.None? then 0
    else
      match FindRow(Table(env.catalog, s.variantId), s.variantId.GetOr(s.productId), env.defaultListId.value)
      case None => 0
      case Some(r) => r.priceCents
  }

  function ChargeValidationPrice(s: ItemState, saleList: Option<Id>, env: Environment): Result<nat, PriceError> {
    if s.priceSource == PriceList && s.appliedPriceListId.Some? then
      ResolveListPrice(env.catalog, s.appliedPriceListId.value, s.productId, s.variantId, s.quantity)
    else if s.priceSource == PriceList && saleList.Some? then
      match Resolve(env.catalog, s.productId, s.variantId, saleList.value, s.quantity)
      case Some(cents) => Ok(cents)
      case None => Err(PriceOutOfDate)
    else Ok(DefaultBasePrice(s, env))
  }

  predicate PassesCharge(s: ItemState, saleList: Option<Id>, env: Environment) {
    s.priceSource == Custom || ChargeValidationPrice(s, saleList, env) == Ok(s.BaseCents())
  }

  /** A repriced line with its own list or a bound sale list passes the charge check exactly when the catalog prices it,
      or when nothing ever priced it and it still carries the default base price. */
  lemma RepricedLinePassesChargeIff(sale: SaleState, env: Environment, i: nat)
    requires ValidSale(sale) && ValidCatalog(env.catalog) && Recomputed(sale, env).Ok? && i < |sale.items|
    requires !sale.items[i].Sticky() && (sale.items[i].appliedPriceListId.Some? || sale.listId.Some?)
    requires sale.items[i].appliedPriceListId.Some? ==>
               forall r :: r in Table(env.catalog, sale.items[i].variantId) ==>
                             r.globalListId != sale.items[i].appliedPriceListId.value
    ensures var after := Recomputed(sale, env).value.sale;
            var priced := CatalogPrice(sale.items[i], BoundList(sale, env), env.catalog).Some?;
            && (priced ==> after.items[i].priceSource == PriceList && PassesCharge(after.items[i], after.listId, env))
            && (!priced ==>
                  (PassesCharge(after.items[i], after.listId, env) <==>
                   after.items[i].priceSource == Default && after.items[i].BaseCents() == DefaultBasePrice(after.items[i], env)))
  {
    var s, t := sale.items[i], Recomputed(sale, env).value.sale.items[i];
    RecomputedLine(sale, env, i);
    assert s in sale.items;
    if s.appliedPriceListId.Some? {
      ListPriceAgrees(env.catalog, s.appliedPriceListId.value, s.productId, s.variantId, s.quantity);
    }
  }

  /** With no list bound, repricing applies tiers but the check does not: a line passes exactly when its tier price is the base price. */
  lemma UnboundLinePassesChargeIff(sale: SaleState, env: Environment, i: nat)
    requires ValidSale(sale) && Recomputed(sale, env).Ok? && i < |sale.items|
    requires !sale.items[i].Sticky() && sale.items[i].appliedPriceListId.None? && sale.listId.None?
    requires CatalogPrice(sale.items[i], env.defaultListId, env.catalog).Some?
    ensures var after := Recomputed(sale, env).value.sale;
            PassesCharge(after.items[i], after.listId, env) <==>
            CatalogPrice(sale.items[i], env.defaultListId, env.catalog).value == DefaultBasePrice(sale.items[i], env)
  {
    RecomputedLine(sale, env, i);
  }

  // ----- Concrete failures -----

  const TIERED_CATALOG: Catalog := Catalog([PriceRow(1, 10, 20, 300, [Tier(2, 250)])], [])

  const TIERED_ENV: Environment := Environment(TIERED_CATALOG, Some(20), map[], [], false, false)

  /** Two units at 300 with a tier of 250 from two units on and no list bound: repriced at 250, refused at the charge. */
  lemma TieredLineFailsUnbound()
    ensures ValidSale(PLAIN_SALE) && Recomputed(PLAIN_SALE, TIERED_ENV).Ok?
    ensures var after := Recomputed(PLAIN_SALE, TIERED_ENV).value.sale;
            |after.items| == 1 && after.items[0].BaseCents() == 250 && !PassesCharge(after.items[0], after.listId, TIERED_ENV)
  {
    assert PLAIN_SALE.items[0] == PLAIN_LINE;
    TierPrice();
    NothingPromoted(PLAIN_SALE, TIERED_ENV);
    UnboundLinePassesChargeIff(PLAIN_SALE, TIERED_ENV, 0);
    RecomputedLine(PLAIN_SALE, TIERED_ENV, 0);
  }

  lemma TierPrice()
    ensures CatalogPrice(PLAIN_LINE, Some(20), TIERED_CATALOG) == Some(250)
    ensures DefaultBasePrice(PLAIN_LINE, TIERED_ENV) == 300
  {
    assert [Tier(2, 250)][..0] == [];
    assert BestTier([Tier(2, 250)], 2) == Some(Tier(2, 250));
    assert FindRow(TIERED_CATALOG.productRows, 1, 20) == Some(TIERED_CATALOG.productRows[0]);
  }

  /** Without promotions nothing can be refused. */
  lemma NothingPromoted(sale: SaleState, env: Environment)
    requires ValidSale(sale) && env.promotions == []
    ensures Recomputed(sale, env).Ok?
  {
    RecomputeSucceedsWhen(sale, env);
  }

  const PLAIN_LINE: ItemState := NewItem(1, 1, None, 2, 300)

  const PLAIN_SALE: SaleState := SaleState([PLAIN_LINE], None, None, {}, {}, None)

  const BIG_FIXED: E.Promotion :=
    E.Promotion(9, "500 off", E.ProductDiscount, false, false, true, E.Everyone, Some(E.Products), None, None,
                [E.Target(E.DefaultSide, E.Products, 1)], {}, Some(Amount), Some(500), None, None, None, None, None)

  const PLAIN_ENV: Environment := Environment(Catalog([], []), None, map[], [BIG_FIXED], false, false)

  const BIG_RESULT: E.LineResult := E.PerUnit(1, 9, Amount, 500, "500 off")

  lemma BigFixedWins(line: E.EvalLine, input: E.EvalInput)
    requires line == EngineLine(PLAIN_LINE, None, PLAIN_ENV) && input == EngineInput([PLAIN_LINE], PLAIN_SALE, PLAIN_ENV)
    ensures E.PdPass([line], [BIG_FIXED], input) == [BIG_RESULT]
  {
    assert [BIG_FIXED][..0] == [] && [line][..0] == [];
    assert E.PdEligible(line, BIG_FIXED, input);
    var c := E.Candidate(BIG_FIXED, 300);
    assert E.PdCandidates(line, [BIG_FIXED], input) == [c];
    assert [c][..0] == [];
    assert E.MaxOrdinal([c], line) == 2;
    assert E.Survivors([c], line, 2) == [c];
    assert E.Best([c][..0]) == None && E.Best([c]) == Some(c);
    assert E.PdWinner(line, [BIG_FIXED], input) == Some(c);
  }

  lemma BigFixedSelected(line: E.EvalLine, input: E.EvalInput)
    requires line == EngineLine(PLAIN_LINE, None, PLAIN_ENV) && input == EngineInput([PLAIN_LINE], PLAIN_SALE, PLAIN_ENV)
    ensures E.Select([BIG_FIXED], input) == E.Selection([BIG_RESULT], None)
  {
    BigFixedWins(line, input);
    assert [BIG_FIXED][..0] == [] && [line][..0] == [] && input.lines == [line];
    assert E.BxgyCandidates(line, [BIG_FIXED], input) == [];
    assert E.BxgyPass([line], [BIG_FIXED], input, [BIG_RESULT]) == [BIG_RESULT];
    assert E.AdvancedPass([BIG_FIXED], input, [BIG_RESULT]) == [BIG_RESULT];
    assert E.OrderCandidates([BIG_FIXED], input, E.RankedSubtotal([line], [BIG_RESULT])) == [];
  }

  lemma BigFixedEvaluation()
    ensures Evaluation(PLAIN_SALE, PLAIN_ENV).selection.lines == [BIG_RESULT]
  {
    var prepared := PreparedItems(PLAIN_SALE.items, None, PLAIN_ENV.catalog);
    assert prepared == [PLAIN_LINE];
    var input, line := EngineInput(prepared, PLAIN_SALE, PLAIN_ENV), EngineLine(PLAIN_LINE, None, PLAIN_ENV);
    assert input.lines == [line] && [BIG_FIXED][..0] == [];
    assert E.BotFiltered([BIG_FIXED], false) == [BIG_FIXED];
    BigFixedSelected(line, input);
    NoOverruns(line, input);
  }

  lemma NoOverruns(line: E.EvalLine, input: E.EvalInput)
    requires input.lines == [line] && E.Select([BIG_FIXED], input) == E.Selection([BIG_RESULT], None)
    ensures E.EvaluateFrom([BIG_FIXED], input, {}).selection.lines == [BIG_RESULT]
  {
    assert [BIG_FIXED][..0] == [];
    assert E.Without([BIG_FIXED], {}) == [BIG_FIXED];
    var s := E.Selection([BIG_RESULT], None);
    assert E.Remaining([BIG_FIXED], 9) == None;
    assert E.SelectedIds(s) == {9};
    assert E.Overruns([BIG_FIXED], [line], s) == {};
  }

  /** An automatic fixed discount of 500 on a line priced 300 makes the whole recompute fail. */
  lemma FixedDiscountAbovePriceFails()
    ensures Recomputed(PLAIN_SALE, PLAIN_ENV) == Err(DiscountAmountInvalid)
  {
    var prepared := PreparedItems(PLAIN_SALE.items, None, PLAIN_ENV.catalog);
    assert prepared == [PLAIN_LINE];
    BigFixedEvaluation();
    assert [BIG_RESULT][..0] == [];
    assert ApplyAll(prepared, [BIG_RESULT][..0]) == Ok(prepared);
  }
}
