/** The Sale aggregate as the object the service mutates: src/sales/domain/sale.entity.ts and the
pricing steps of src/sales/sales.service.ts, each proved against the value-level pipeline.
*/
module Sales {
  import opened Common
  import opened SaleItems
  import opened PriceResolver
  import opened Recompute
  import E = PromotionEngine

  /** Stacks onto the line of the same product and variant, else appends. */
  function AddLine(items: seq<ItemState>, line: ItemState): seq<ItemState> {
    match FindMatch(items, line.productId, line.variantId)
    case None => items + [line]
    case Some(i) => items[i := items[i].(quantity := items[i].quantity + line.quantity)]
  }

  function FindMatch(items: seq<ItemState>, productId: Id, variantId: Option<Id>): (r: Option<nat>)
    ensures r.Some? ==> r.value < |items| && items[r.value].Matches(productId, variantId)
    ensures r.None? ==> forall i :: 0 <= i < |items| ==> !items[i].Matches(productId, variantId)
  {
    if items == [] then None
    else if items[0].Matches(productId, variantId) then Some(0)
    else
      match FindMatch(items[1..], productId, variantId)
      case None => None
      case Some(i) => Some(i + 1)
  }

  /** The quote seed: the bound list's price, else the default list's. */
  function SeedPrice(s: ItemState, listId: Option<Id>, env: Environment): Option<nat> {
    var first := if listId.Some? then Resolve(env.catalog, s.productId, s.variantId, listId.value, s.quantity) else None;
    if first.Some? || env.defaultListId.None? then first
    else Resolve(env.catalog, s.productId, s.variantId, env.defaultListId.value, s.quantity)
  }

  function Seeded(items: seq<ItemState>, listId: Option<Id>, env: Environment): (r: Option<seq<ItemState>>)
    ensures r.Some? ==> |r.value| == |items|
    ensures r.Some? <==> forall s :: s in items ==> SeedPrice(s, listId, env).Some?
    ensures r.Some? ==> forall i :: 0 <= i < |items| ==>
                          r.value[i] == Repriced(items[i], SeedPrice(items[i], listId, env).value, PriceList, None).value
  {
    if forall s :: s in items ==> SeedPrice(s, listId, env).Some? then
      Some(seq(|items|, i requires 0 <= i < |items| =>
                          Repriced(items[i], SeedPrice(items[i], listId, env).value, PriceList, None).value))
    else None
  }

  class Sale {
    var items: seq<SaleItem>
    var customerId: Option<Id>
    var listId: Option<Id>
    var vetoed: set<Id>
    var optedIn: set<Id>
    var orderPromotion: Option<E.OrderResult>

    /** No line object occurs twice. */
    ghost predicate Valid()
      reads this
    {
      forall i, j :: 0 <= i < j < |items| ==> items[i] != items[j]
    }

    function Lines(): (r: seq<ItemState>)
      reads this, items
      ensures |r| == |items|
      ensures forall i :: 0 <= i < |items| ==> r[i] == items[i].State()
    {
      seq(|items|, i requires 0 <= i < |items| reads this, items => items[i].State())
    }

    function View(): SaleState
      reads this, items
    {
      SaleState(Lines(), customerId, listId, vetoed, optedIn, orderPromotion)
    }

    constructor (customerId: Option<Id>)
      ensures Valid() && items == []
      ensures View() == SaleState([], customerId, None, {}, {}, None)
    {
      items, listId, vetoed, optedIn, orderPromotion := [], None, {}, {}, None;
      this.customerId := customerId;
    }

    method AddItem(id: Id, productId: Id, variantId: Option<Id>, quantity: Positive, unitPriceCents: nat)
      requires Valid()
      modifies this, items
      ensures Valid() && fresh(set i | i in items && i !in old(items))
      ensures View() == old(View()).(items := AddLine(old(Lines()), NewItem(id, productId, variantId, quantity, unitPriceCents)))
    {
      ghost var before := Lines();
      var found := FindMatch(Lines(), productId, variantId);
      match found {
        case Some(i) =>
          items[i].ChangeQuantity(items[i].quantity + quantity);
          assert Lines() == before[i := before[i].(quantity := before[i].quantity + quantity)];
        case None =>
          var line := new SaleItem(id, productId, variantId, quantity, unitPriceCents);
          items := items + [line];
          assert Lines() == before + [NewItem(id, productId, variantId, quantity, unitPriceCents)];
      }
    }

    method SetGlobalPriceList(id: Option<Id>)
      modifies this`listId
      ensures View() == old(View()).(listId := id)
    {
      listId := id;
    }

    /** Fails, changing nothing that is kept, when some line has no catalog price. */
    method SeedPrices(env: Environment) returns (ok: bool)
      requires Valid() && ValidCatalog(env.catalog)
      modifies items
      ensures ok <==> Seeded(old(Lines()), listId, env).Some?
      ensures ok ==> Lines() == Seeded(old(Lines()), listId, env).value
    {
      ghost var before := Lines();
      for n := 0 to |items|
        invariant forall k :: 0 <= k < n ==> SeedPrice(before[k], listId, env).Some? &&
                                             items[k].State() == Repriced(before[k], SeedPrice(before[k], listId, env).value, PriceList, None).value
        invariant forall k :: n <= k < |items| ==> items[k].State() == before[k]
      {
        var price := SeedPrice(items[n].State(), listId, env);
        if price.None? {
          assert before[n] in before;
          return false;
        }
        var _ := items[n].Reprice(price.value, PriceList, None);
      }
      assert Lines() == Seeded(before, listId, env).value;
      return true;
    }

    method ClearPromotions()
      requires Valid()
      modifies items
      ensures forall k :: 0 <= k < |items| ==> items[k].State() == Cleared(old(Lines())[k])
    {
      ghost var before := Lines();
      for n := 0 to |items|
        invariant forall k :: 0 <= k < n ==> items[k].State() == Cleared(before[k])
        invariant forall k :: n <= k < |items| ==> items[k].State() == before[k]
      {
        if items[n].discount.promotionId.Some? {
          items[n].RemoveDiscount();
        }
      }
    }

    /** The price request of a non-sticky line that has a list to be priced in. */
    function PriceRequest(s: ItemState, bound: Option<Id>): Option<Request> {
      if s.Sticky() || EffectiveList(s, bound).None? then None
      else Some(Request(s.productId, s.variantId, EffectiveList(s, bound), s.quantity))
    }

    method RepriceNonStickyLines(env: Environment)
      requires Valid() && ValidCatalog(env.catalog)
      modifies items
      ensures forall k :: 0 <= k < |items| ==>
                            items[k].State() == RepricedLine(old(Lines())[k], BoundList(old(View()), env), env.catalog)
    {
      ghost var before := Lines();
      var bound := if listId.Some? then listId else env.defaultListId;
      var requests: seq<Request> := [];
      for n := 0 to |items|
        invariant forall k :: 0 <= k < n && PriceRequest(before[k], bound).Some? ==> PriceRequest(before[k], bound).value in requests
        invariant forall q :: q in requests ==> q.listId.Some?
      {
        var request := PriceRequest(items[n].State(), bound);
        if request.Some? {
          requests := requests + [request.value];
        }
      }
      var prices := BatchResolvePriceMap(env.catalog, requests);
      for n := 0 to |items|
        invariant forall k :: 0 <= k < n ==> items[k].State() == RepricedLine(before[k], bound, env.catalog)
        invariant forall k :: n <= k < |items| ==> items[k].State() == before[k]
      {
        var request := PriceRequest(items[n].State(), bound);
        if request.Some? {
          var cents := Lookup(prices, request.value);
          assert cents == CatalogPrice(before[n], bound, env.catalog);
          if cents.Some? {
            var _ := items[n].Reprice(cents.value, PriceList, items[n].appliedPriceListId);
          }
        }
      }
    }

    /** Applies one engine result to the line it names. */
    method ApplyResult(r: E.LineResult) returns (error: Option<ItemError>)
      requires Valid()
      modifies items
      ensures match ApplyOne(old(Lines()), r)
              case Ok(lines) => error.None? && Lines() == lines
              case Err(e) => error == Some(e)
    {
      ghost var before := Lines();
      var found := FindItem(Lines(), r.itemId);
      if found.None? {
        return None;
      }
      var i := found.value;
      match r {
        case PerUnit(_, promotionId, kind, value, title) =>
          error := items[i].ApplyDiscount(kind, value, Some(title), Some(promotionId));
        case WholeLine(_, promotionId, title, lineCents, perUnitCents, _, percent, kind) =>
          error := items[i].ApplyReward(lineCents, perUnitCents, percent, Some(title), promotionId, kind);
      }
      assert error.None? ==> Lines() == before[i := ApplyTo(before[i], r).value];
    }

    method ApplyResults(results: seq<E.LineResult>) returns (error: Option<ItemError>)
      requires Valid()
      modifies items
      ensures match ApplyAll(old(Lines()), results)
              case Ok(lines) => error.None? && Lines() == lines
              case Err(e) => error == Some(e)
    {
      ghost var before := Lines();
      assert results[..0] == [];
      for n := 0 to |results|
        invariant ApplyAll(before, results[..n]) == Ok(Lines())
      {
        assert results[..n + 1][..n] == results[..n];
        error := ApplyResult(results[n]);
        if error.Some? {
          ErrorPersists(before, results, n + 1);
          return;
        }
      }
      assert results[..|results|] == results;
      error := None;
    }

    /** Opt-ins whose target left the cart are pruned one by one. */
    method PruneOptIns(targetable: set<Id>)
      modifies this`optedIn
      ensures optedIn == old(optedIn) * targetable
    {
      var todo := optedIn;
      ghost var start := optedIn;
      while todo != {}
        invariant todo <= start
        invariant optedIn == todo + (start - todo) * targetable
        decreases todo
      {
        var id :| id in todo;
        if id !in targetable {
          optedIn := optedIn - {id};
        }
        todo := todo - {id};
      }
    }

    /** Clear, then reprice. */
    method PrepareLines(env: Environment)
      requires Valid() && ValidCatalog(env.catalog)
      modifies items
      ensures Lines() == PreparedItems(old(Lines()), BoundList(old(View()), env), env.catalog)
    {
      ClearPromotions();
      RepriceNonStickyLines(env);
    }

    /** Evaluate, apply, prune: the last three stages on prepared lines. */
    method ApplyEvaluation(result: E.EvalResult) returns (error: Option<ItemError>)
      requires Valid()
      modifies this`orderPromotion, this`optedIn, items
      ensures match ApplyAll(old(Lines()), result.selection.lines)
              case Err(e) => error == Some(e)
              case Ok(lines) =>
                && error.None? && Lines() == lines
                && orderPromotion == result.selection.order && optedIn == old(optedIn) * result.targetable
    {
      error := ApplyResults(result.selection.lines);
      if error.None? {
        orderPromotion := result.selection.order;
        PruneOptIns(result.targetable);
      }
    }

    /** The whole pipeline in place. On an error the caller abandons the draft, so nothing is promised about it. */
    method RecomputePricingAndPromotions(env: Environment) returns (error: Option<ItemError>, demands: map<Id, nat>, excluded: set<Id>)
      requires Valid() && ValidCatalog(env.catalog)
      modifies this`orderPromotion, this`optedIn, items
      ensures match Recomputed(old(View()), env)
              case Ok(o) => error.None? && View() == o.sale && demands == o.demands && excluded == o.excluded
              case Err(e) => error == Some(e)
    {
      ghost var start := View();
      PrepareLines(env);
      var input := EngineInput(Lines(), View(), env);
      assert input == EngineInput(Lines(), start, env);
      var result := E.Evaluate(env.promotions, input);
      assert result == Evaluation(start, env);
      error := ApplyEvaluation(result);
      demands, excluded := result.demands, result.excluded;
    }

    method Totals() returns (t: Totals)
      ensures t == PreviewTotals(View())
    {
      var base, net := 0, 0;
      for n := 0 to |items|
        invariant base == Sum(BaseLines(Lines())[..n]) && net == Sum(NetLines(Lines())[..n])
      {
        SumPrefix(BaseLines(Lines()), n);
        SumPrefix(NetLines(Lines()), n);
        base := base + items[n].State().BaseCents() * items[n].quantity;
        net := net + items[n].State().NetCents();
      }
      assert BaseLines(Lines())[..|items|] == BaseLines(Lines()) && NetLines(Lines())[..|items|] == NetLines(Lines());
      var order := if orderPromotion.Some? then orderPromotion.value.amountCents else 0;
      var total := Max(0, net - order);
      t := Recompute.Totals.Totals(base, Min(base, base - total), total);
    }
  }

  lemma {:induction false} ErrorPersists(items: seq<ItemState>, results: seq<E.LineResult>, n: nat)
    requires n <= |results| && ApplyAll(items, results[..n]).Err?
    ensures ApplyAll(items, results) == ApplyAll(items, results[..n])
    decreases |results| - n
  {
    if n == |results| {
      assert results[..n] == results;
    } else {
      assert results[..n + 1][..n] == results[..n];
      ErrorPersists(items, results, n + 1);
    }
  }
}
