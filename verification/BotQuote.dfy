/** The read-only bot quote: src/sales/sales.service.ts, previewBotPricing and buildBotPricingSale.

The cart is stacked into a sale, seeded, recomputed and projected back to the input lines.
*/
module BotQuote {
  import opened Common
  import opened SaleItems
  import opened PriceResolver
  import opened Recompute
  import opened Sales
  import LR = LargestRemainder

  /** `lineId` is the fresh id the line would get if it opens a new sale line. */
  datatype CartLine = CartLine(lineId: Id, productId: Id, variantId: Option<Id>, quantity: Positive)

  datatype QuoteLine = QuoteLine(
    productId: Id,
    variantId: Option<Id>,
    quantity: Positive,
    unitPriceCents: int,
    originalPriceCents: int,
    finalPriceCents: int,
    discountAmountCents: int,
    title: Option<string>
  )

  datatype QuoteError = CustomerNotFound | NoCatalogPrice | Refused(error: ItemError)

  // ----- Stacking -----

  function Built(cart: seq<CartLine>): seq<ItemState> {
    if cart == [] then []
    else
      var c := cart[|cart| - 1];
      AddLine(Built(cart[..|cart| - 1]), NewItem(c.lineId, c.productId, c.variantId, c.quantity, 0))
  }

  /** How many units of one product and variant the cart asks for. */
  function Wanted(cart: seq<CartLine>, productId: Id, variantId: Option<Id>): nat {
    if cart == [] then 0
    else
      var c := cart[|cart| - 1];
      Wanted(cart[..|cart| - 1], productId, variantId) +
      if c.productId == productId && c.variantId == variantId then c.quantity else 0
  }

  predicate SameKey(a: ItemState, b: ItemState) {
    a.productId == b.productId && a.variantId == b.variantId
  }

  ghost predicate FreshIds(cart: seq<CartLine>) {
    forall i, j :: 0 <= i < j < |cart| ==> cart[i].lineId != cart[j].lineId
  }

  /** The sale lines stack exactly the cart: one line per product and variant, holding all units wanted of it. */
  ghost predicate Stacks(items: seq<ItemState>, cart: seq<CartLine>) {
    && (forall i, j :: 0 <= i < j < |items| ==> items[i].id != items[j].id && !SameKey(items[i], items[j]))
    && (forall i :: 0 <= i < |items| ==> items[i].quantity == Wanted(cart, items[i].productId, items[i].variantId))
    && (forall c :: c in cart ==> FindMatch(items, c.productId, c.variantId).Some?)
  }

  ghost predicate WellFormed(items: seq<ItemState>, ids: set<Id>) {
    forall s :: s in items ==> s.Valid() && s.discount == NO_DISCOUNT && s.id in ids
  }

  function LineIds(cart: seq<CartLine>): set<Id> {
    set c | c in cart :: c.lineId
  }

  lemma {:induction false} BuiltStacks(cart: seq<CartLine>)
    requires FreshIds(cart)
    ensures Stacks(Built(cart), cart) && WellFormed(Built(cart), LineIds(cart))
  {
    if cart != [] {
      var n := |cart| - 1;
      var c, init := cart[n], cart[..n];
      BuiltStacks(init);
      assert cart == init + [c];
      AddLineStacks(Built(init), init, c);
    }
  }

  lemma AddLineStacks(items: seq<ItemState>, cart: seq<CartLine>, c: CartLine)
    requires Stacks(items, cart) && FreshIds(cart + [c]) && WellFormed(items, LineIds(cart))
    ensures var added := AddLine(items, NewItem(c.lineId, c.productId, c.variantId, c.quantity, 0));
            Stacks(added, cart + [c]) && WellFormed(added, LineIds(cart + [c]))
  {
    var line := NewItem(c.lineId, c.productId, c.variantId, c.quantity, 0);
    OpenedId(cart, c);
    AddLineWellFormed(items, LineIds(cart), line);
    var found := FindMatch(items, c.productId, c.variantId);
    AddLineUnfolds(items, line);
    if found.None? {
      AppendedStacks(items, cart, c, line, LineIds(cart));
    } else {
      StackedStacks(items, cart, c, found.value);
    }
  }

  lemma AddLineUnfolds(items: seq<ItemState>, line: ItemState)
    ensures var found := FindMatch(items, line.productId, line.variantId);
            && (found.None? ==> AddLine(items, line) == items + [line])
            && (found.Some? ==> AddLine(items, line) == Stacked(items, found.value, line.quantity))
  {
  }

  function Stacked(items: seq<ItemState>, i: nat, quantity: Positive): seq<ItemState>
    requires i < |items|
  {
    items[i := items[i].(quantity := items[i].quantity + quantity)]
  }

  lemma OpenedId(cart: seq<CartLine>, c: CartLine)
    requires FreshIds(cart + [c])
    ensures c.lineId !in LineIds(cart) && LineIds(cart + [c]) == LineIds(cart) + {c.lineId}
  {
    forall d | d in cart
      ensures d.lineId != c.lineId
    {
      var k :| 0 <= k < |cart| && cart[k] == d;
      assert (cart + [c])[k] == d && (cart + [c])[|cart|] == c;
    }
  }

  lemma AddLineWellFormed(items: seq<ItemState>, ids: set<Id>, line: ItemState)
    requires WellFormed(items, ids) && line.Valid() && line.discount == NO_DISCOUNT
    ensures WellFormed(AddLine(items, line), ids + {line.id})
  {
    if FindMatch(items, line.productId, line.variantId).Some? {
      assert items[FindMatch(items, line.productId, line.variantId).value] in items;
    }
  }

  lemma AppendedStacks(items: seq<ItemState>, cart: seq<CartLine>, c: CartLine, line: ItemState, ids: set<Id>)
    requires Stacks(items, cart) && FindMatch(items, c.productId, c.variantId).None?
    requires line == NewItem(c.lineId, c.productId, c.variantId, c.quantity, 0)
    requires WellFormed(items, ids) && c.lineId !in ids
    ensures Stacks(items + [line], cart + [c])
  {
    var added := items + [line];
    assert (cart + [c])[..|cart|] == cart;
    NothingWanted(items, cart, c.productId, c.variantId);
    forall d | d in cart + [c]
      ensures FindMatch(added, d.productId, d.variantId).Some?
    {
      var k := if d in cart then FindMatch(items, d.productId, d.variantId).value else |items|;
      assert added[k].Matches(d.productId, d.variantId);
    }
    forall i | 0 <= i < |items|
      ensures added[i].id != line.id && !SameKey(added[i], line)
    {
      assert items[i] in items;
    }
  }

  lemma StackedStacks(items: seq<ItemState>, cart: seq<CartLine>, c: CartLine, i: nat)
    requires Stacks(items, cart) && FindMatch(items, c.productId, c.variantId) == Some(i)
    ensures Stacks(Stacked(items, i, c.quantity), cart + [c])
  {
    var added := Stacked(items, i, c.quantity);
    assert (cart + [c])[..|cart|] == cart;
    forall d | d in cart + [c]
      ensures FindMatch(added, d.productId, d.variantId).Some?
    {
      var k := if d in cart then FindMatch(items, d.productId, d.variantId).value else i;
      assert added[k].Matches(d.productId, d.variantId);
    }
    forall k | 0 <= k < |added|
      ensures added[k].quantity == Wanted(cart + [c], added[k].productId, added[k].variantId)
    {
      assert k != i ==> !SameKey(items[k], items[i]);
    }
  }

  lemma {:induction false} NothingWanted(items: seq<ItemState>, cart: seq<CartLine>, productId: Id, variantId: Option<Id>)
    requires forall c :: c in cart ==> FindMatch(items, c.productId, c.variantId).Some?
    requires FindMatch(items, productId, variantId).None?
    ensures Wanted(cart, productId, variantId) == 0
  {
    if cart != [] {
      NothingWanted(items, cart[..|cart| - 1], productId, variantId);
      assert cart[|cart| - 1] in cart;
    }
  }

  // ----- The priced sale -----

  /** Only bot promotions take part; the customer counts as registered. */
  function BotEnvironment(env: Environment): Environment {
    env.(botOnly := true, asUnregistered := false)
  }

  function QuotedSale(cart: seq<CartLine>, customerId: Option<Id>, customers: map<Id, Option<Id>>, env: Environment)
    : Result<SaleState, QuoteError>
  {
    if customerId.Some? && customerId.value !in customers then Err(CustomerNotFound)
    else
      var listId := if customerId.Some? then customers[customerId.value] else None;
      match Seeded(Built(cart), listId, env)
      case None => Err(NoCatalogPrice)
      case Some(items) =>
        match Recomputed(SaleState(items, customerId, listId, {}, {}, None), BotEnvironment(env))
        case Err(e) => Err(Refused(e))
        case Ok(o) => Ok(o.sale)
  }

  /** What the projection back to cart lines relies on. */
  ghost predicate Quotable(items: seq<ItemState>, cart: seq<CartLine>) {
    && Stacks(items, cart)
    && forall s :: s in items ==>
         s.Valid() && s.RewardCents() <= s.unitPriceCents * s.quantity && s.unitPriceCents <= s.BaseCents()
  }

  predicate SameLine(a: ItemState, b: ItemState) {
    a.id == b.id && SameKey(a, b) && a.quantity == b.quantity
  }

  lemma StacksTransfers(a: seq<ItemState>, b: seq<ItemState>, cart: seq<CartLine>)
    requires Stacks(a, cart) && |a| == |b| && forall i :: 0 <= i < |a| ==> SameLine(a[i], b[i])
    ensures Stacks(b, cart)
  {
    forall c | c in cart
      ensures FindMatch(b, c.productId, c.variantId).Some?
    {
      var k := FindMatch(a, c.productId, c.variantId).value;
      assert SameLine(a[k], b[k]) && b[k].Matches(c.productId, c.variantId);
    }
    forall i, j | 0 <= i < j < |b|
      ensures b[i].id != b[j].id && !SameKey(b[i], b[j])
    {
      assert SameLine(a[i], b[i]) && SameLine(a[j], b[j]);
    }
    forall i | 0 <= i < |b|
      ensures b[i].quantity == Wanted(cart, b[i].productId, b[i].variantId)
    {
      assert SameLine(a[i], b[i]);
    }
  }

  lemma SeededSale(cart: seq<CartLine>, listId: Option<Id>, env: Environment)
    requires FreshIds(cart) && Seeded(Built(cart), listId, env).Some?
    ensures var items := Seeded(Built(cart), listId, env).value;
            Stacks(items, cart) && forall s :: s in items ==> s.Valid()
  {
    BuiltStacks(cart);
    var built := Built(cart);
    var items := Seeded(built, listId, env).value;
    forall i | 0 <= i < |items|
      ensures SameLine(built[i], items[i]) && items[i].Valid()
    {
      assert built[i] in built;
    }
    StacksTransfers(built, items, cart);
  }

  lemma QuotedSaleIsQuotable(cart: seq<CartLine>, customerId: Option<Id>, customers: map<Id, Option<Id>>, env: Environment)
    requires FreshIds(cart) && QuotedSale(cart, customerId, customers, env).Ok?
    ensures var sale := QuotedSale(cart, customerId, customers, env).value;
            Quotable(sale.items, cart) && 0 <= OrderCents(sale)
  {
    var listId := if customerId.Some? then customers[customerId.value] else None;
    SeededSale(cart, listId, env);
    var items := Seeded(Built(cart), listId, env).value;
    var draft := SaleState(items, customerId, listId, {}, {}, None);
    RecomputeKeeps(draft, BotEnvironment(env));
    var after := Recomputed(draft, BotEnvironment(env)).value.sale;
    assert forall i :: 0 <= i < |items| ==> KeepsLine(items[i], after.items[i]);
    StacksTransfers(items, after.items, cart);
  }

  // ----- Projection to cart lines -----

  /** The part of a whole-line reward that falls on the first `taken` units. */
  function RewardUpTo(s: ItemState, taken: nat): int {
    s.RewardCents() * taken / s.quantity
  }

  function PartialNet(s: ItemState, taken: nat): int {
    s.unitPriceCents * taken - RewardUpTo(s, taken)
  }

  /** The price of `n` units once `before` units of the same sale line are accounted for. */
  function LineFinal(s: ItemState, before: nat, n: nat): int {
    s.unitPriceCents * n - (RewardUpTo(s, before + n) - RewardUpTo(s, before))
  }

  function Quoted(s: ItemState, c: CartLine, before: nat): QuoteLine {
    var original := s.BaseCents() * c.quantity;
    var final := LineFinal(s, before, c.quantity);
    QuoteLine(c.productId, c.variantId, c.quantity, s.BaseCents(), original, final, original - final, s.discount.title)
  }

  /** The quote of cart line `i` before any order discount. */
  function LineQuote(items: seq<ItemState>, cart: seq<CartLine>, i: nat): QuoteLine
    requires i < |cart| && FindMatch(items, cart[i].productId, cart[i].variantId).Some?
  {
    var k := FindMatch(items, cart[i].productId, cart[i].variantId).value;
    Quoted(items[k], cart[i], Wanted(cart[..i], cart[i].productId, cart[i].variantId))
  }

  function Finals(lines: seq<QuoteLine>): (r: seq<int>)
    ensures |r| == |lines| && forall i :: 0 <= i < |lines| ==> r[i] == lines[i].finalPriceCents
  {
    seq(|lines|, i requires 0 <= i < |lines| => lines[i].finalPriceCents)
  }

  lemma RewardShareWithinLine(reward: nat, unit: nat, quantity: Positive, before: nat, n: nat)
    requires reward <= unit * quantity
    ensures 0 <= reward * (before + n) / quantity - reward * before / quantity <= unit * n
  {
    ProductMonotone(before, before + n, reward);
    DivisionMonotone(reward * before, reward * (before + n), quantity);
    ProductMonotone(reward, unit * quantity, n);
    var a := reward * before;
    assert n * (unit * quantity) == quantity * (unit * n);
    assert reward * (before + n) == a + n * reward;
    DivisionMonotone(reward * (before + n), a + quantity * (unit * n), quantity);
    DivisionBounds(a, quantity);
    var q := a / quantity;
    assert quantity * (q + unit * n) == quantity * q + quantity * (unit * n);
    DivisionUnique(a + quantity * (unit * n), quantity, q + unit * n);
  }

  lemma LineFinalWithin(s: ItemState, before: nat, n: nat)
    requires s.Valid() && s.RewardCents() <= s.unitPriceCents * s.quantity && s.unitPriceCents <= s.BaseCents()
    ensures 0 <= LineFinal(s, before, n) <= s.BaseCents() * n
  {
    RewardShareWithinLine(s.RewardCents(), s.unitPriceCents, s.quantity, before, n);
    ProductMonotone(s.unitPriceCents, s.BaseCents(), n);
  }

  lemma LineQuoteWithin(items: seq<ItemState>, cart: seq<CartLine>, i: nat)
    requires Quotable(items, cart) && i < |cart|
    ensures FindMatch(items, cart[i].productId, cart[i].variantId).Some?
    ensures 0 <= LineQuote(items, cart, i).finalPriceCents <= LineQuote(items, cart, i).originalPriceCents
  {
    assert cart[i] in cart;
    var s := items[FindMatch(items, cart[i].productId, cart[i].variantId).value];
    assert s in items;
    LineFinalWithin(s, Wanted(cart[..i], cart[i].productId, cart[i].variantId), cart[i].quantity);
  }

  lemma FinalsTelescope(s: ItemState, before: nat, n: nat)
    ensures PartialNet(s, before + n) == PartialNet(s, before) + LineFinal(s, before, n)
  {
    Distributes(s.unitPriceCents, before, n);
  }

  lemma Distributes(k: int, x: int, y: int)
    ensures k * (x + y) == k * x + k * y
  {
  }

  lemma WholeNet(s: ItemState)
    ensures PartialNet(s, s.quantity) == s.NetCents()
  {
    DivisionUnique(s.RewardCents() * s.quantity, s.quantity, s.RewardCents());
  }

  function PartialNets(items: seq<ItemState>, cart: seq<CartLine>): (r: seq<int>)
    ensures |r| == |items|
    ensures forall k :: 0 <= k < |items| ==>
                          r[k] == PartialNet(items[k], Wanted(cart, items[k].productId, items[k].variantId))
  {
    seq(|items|, k requires 0 <= k < |items| => PartialNet(items[k], Wanted(cart, items[k].productId, items[k].variantId)))
  }

  lemma PartialStep(items: seq<ItemState>, cart: seq<CartLine>, i: nat)
    requires Quotable(items, cart) && i < |cart|
    ensures FindMatch(items, cart[i].productId, cart[i].variantId).Some?
    ensures Sum(PartialNets(items, cart[..i + 1])) == Sum(PartialNets(items, cart[..i])) + LineQuote(items, cart, i).finalPriceCents
  {
    var c := cart[i];
    assert c in cart;
    var k := FindMatch(items, c.productId, c.variantId).value;
    var before := Wanted(cart[..i], c.productId, c.variantId);
    assert cart[..i + 1][..i] == cart[..i];
    var next := PartialNet(items[k], before + c.quantity);
    FinalsTelescope(items[k], before, c.quantity);
    forall j | 0 <= j < |items| && j != k
      ensures !SameKey(items[j], items[k])
    {
    }
    assert PartialNets(items, cart[..i + 1]) == PartialNets(items, cart[..i])[k := next];
    SumUpdate(PartialNets(items, cart[..i]), k, next);
  }

  lemma WholeNets(items: seq<ItemState>, cart: seq<CartLine>)
    requires Quotable(items, cart)
    ensures PartialNets(items, cart) == NetLines(items)
  {
    forall k | 0 <= k < |items|
      ensures PartialNets(items, cart)[k] == NetLines(items)[k]
    {
      WholeNet(items[k]);
    }
  }

  lemma {:induction false} NothingTaken(items: seq<ItemState>)
    ensures Sum(PartialNets(items, [])) == 0
  {
    if items != [] {
      var n := |items| - 1;
      NothingTaken(items[..n]);
      assert PartialNets(items, [])[..n] == PartialNets(items[..n], []);
      DivisionUnique(items[n].RewardCents() * 0, items[n].quantity, 0);
    }
  }

  /** The part of the reward of sale line `s` that falls on cart line `i`. */
  function RewardShare(s: ItemState, cart: seq<CartLine>, i: nat): int
    requires i < |cart|
  {
    var before := Wanted(cart[..i], s.productId, s.variantId);
    if s.Matches(cart[i].productId, cart[i].variantId)
    then RewardUpTo(s, before + cart[i].quantity) - RewardUpTo(s, before) else 0
  }

  function RewardShares(s: ItemState, cart: seq<CartLine>): seq<int> {
    seq(|cart|, i requires 0 <= i < |cart| => RewardShare(s, cart, i))
  }

  lemma {:induction false} SharesTelescope(s: ItemState, cart: seq<CartLine>)
    ensures Sum(RewardShares(s, cart)) == RewardUpTo(s, Wanted(cart, s.productId, s.variantId))
  {
    if cart == [] {
      DivisionUnique(s.RewardCents() * 0, s.quantity, 0);
    } else {
      var n := |cart| - 1;
      SharesTelescope(s, cart[..n]);
      forall i | 0 <= i < n
        ensures RewardShares(s, cart)[i] == RewardShares(s, cart[..n])[i]
      {
        assert cart[..n][..i] == cart[..i];
      }
      assert RewardShares(s, cart)[..n] == RewardShares(s, cart[..n]);
    }
  }

  /** The floors lose nothing: the shares of a whole-line reward over the cart add up to exactly that reward. */
  lemma RewardFullyAllocated(items: seq<ItemState>, cart: seq<CartLine>, k: nat)
    requires Quotable(items, cart) && k < |items|
    ensures Sum(RewardShares(items[k], cart)) == items[k].RewardCents()
  {
    var s := items[k];
    SharesTelescope(s, cart);
    DivisionUnique(s.RewardCents() * s.quantity, s.quantity, s.RewardCents());
  }

  function Taken(quantities: map<Id, nat>, id: Id): nat {
    if id in quantities then quantities[id] else 0
  }

  function MatchIn(items: seq<ItemState>, cart: seq<CartLine>, i: nat): (k: nat)
    requires Quotable(items, cart) && i < |cart|
    ensures k < |items| && items[k].Matches(cart[i].productId, cart[i].variantId)
    ensures FindMatch(items, cart[i].productId, cart[i].variantId) == Some(k)
  {
    assert cart[i] in cart;
    FindMatch(items, cart[i].productId, cart[i].variantId).value
  }

  ghost predicate QuotedAt(line: QuoteLine, items: seq<ItemState>, cart: seq<CartLine>, j: nat)
    requires Quotable(items, cart) && j < |cart|
  {
    MatchIn(items, cart, j) < |items| && line == LineQuote(items, cart, j)
  }

  ghost predicate AllQuoted(lines: seq<QuoteLine>, items: seq<ItemState>, cart: seq<CartLine>)
    requires Quotable(items, cart) && |lines| <= |cart|
  {
    forall j :: 0 <= j < |lines| ==> QuotedAt(lines[j], items, cart, j)
  }

  ghost predicate Projected(lines: seq<QuoteLine>, items: seq<ItemState>, cart: seq<CartLine>)
    requires Quotable(items, cart)
  {
    && |lines| <= |cart| && AllQuoted(lines, items, cart)
    && Sum(Finals(lines)) == Sum(PartialNets(items, cart[..|lines|]))
  }

  lemma MatchedQuote(line: QuoteLine, items: seq<ItemState>, cart: seq<CartLine>, i: nat)
    requires Quotable(items, cart) && i < |cart|
    requires var s := items[MatchIn(items, cart, i)];
             line == Quoted(s, cart[i], Wanted(cart[..i], s.productId, s.variantId))
    ensures QuotedAt(line, items, cart, i)
  {
  }

  lemma QuoteAppended(lines: seq<QuoteLine>, line: QuoteLine, items: seq<ItemState>, cart: seq<CartLine>)
    requires Quotable(items, cart) && |lines| < |cart| && AllQuoted(lines, items, cart)
    requires QuotedAt(line, items, cart, |lines|)
    ensures AllQuoted(lines + [line], items, cart)
  {
    forall j | 0 <= j < |lines| + 1
      ensures QuotedAt((lines + [line])[j], items, cart, j)
    {
      if j < |lines| {
        assert QuotedAt(lines[j], items, cart, j);
      }
    }
  }

  lemma ProjectStep(lines: seq<QuoteLine>, line: QuoteLine, items: seq<ItemState>, cart: seq<CartLine>)
    requires Quotable(items, cart) && Projected(lines, items, cart) && |lines| < |cart|
    requires QuotedAt(line, items, cart, |lines|)
    ensures Projected(lines + [line], items, cart)
  {
    QuoteAppended(lines, line, items, cart);
    PartialStep(items, cart, |lines|);
    AppendFinal(lines, line);
    assert |lines + [line]| == |lines| + 1;
  }

  /** Walks the cart, allocating each whole-line reward cumulatively over the units met so far. */
  method ProjectLines(items: seq<ItemState>, cart: seq<CartLine>) returns (lines: seq<QuoteLine>)
    requires Quotable(items, cart)
    ensures |lines| == |cart| && Projected(lines, items, cart)
    ensures Sum(Finals(lines)) == Sum(NetLines(items))
  {
    var quantities: map<Id, nat> := map[];
    lines := [];
    assert cart[..0] == [];
    NothingTaken(items);
    for i := 0 to |cart|
      invariant |lines| == i && Projected(lines, items, cart)
      invariant Tallied(quantities, items, cart[..i])
    {
      var k := MatchIn(items, cart, i);
      var before := Taken(quantities, items[k].id);
      TallyStep(quantities, items, cart, i);
      var line := ProjectLine(items[k], cart[i], before);
      MatchedQuote(line, items, cart, i);
      ProjectStep(lines, line, items, cart);
      lines := lines + [line];
      quantities := quantities[items[k].id := before + cart[i].quantity];
    }
    assert cart[..|cart|] == cart;
    WholeNets(items, cart);
  }

  lemma AppendFinal(lines: seq<QuoteLine>, line: QuoteLine)
    ensures Sum(Finals(lines + [line])) == Sum(Finals(lines)) + line.finalPriceCents
  {
    assert Finals(lines + [line]) == Finals(lines) + [line.finalPriceCents];
    SumSnoc(Finals(lines), line.finalPriceCents);
  }

  /** The map holds, per sale line, the units of it met in the cart so far. */
  ghost predicate Tallied(quantities: map<Id, nat>, items: seq<ItemState>, cart: seq<CartLine>) {
    forall k :: 0 <= k < |items| ==>
                  Taken(quantities, items[k].id) == Wanted(cart, items[k].productId, items[k].variantId)
  }

  lemma TallyStep(quantities: map<Id, nat>, items: seq<ItemState>, cart: seq<CartLine>, i: nat)
    requires Quotable(items, cart) && i < |cart| && Tallied(quantities, items, cart[..i])
    requires FindMatch(items, cart[i].productId, cart[i].variantId).Some?
    ensures var s := items[FindMatch(items, cart[i].productId, cart[i].variantId).value];
            Tallied(quantities[s.id := Taken(quantities, s.id) + cart[i].quantity], items, cart[..i + 1])
  {
    var k := FindMatch(items, cart[i].productId, cart[i].variantId).value;
    var next := quantities[items[k].id := Taken(quantities, items[k].id) + cart[i].quantity];
    assert cart[..i + 1][..i] == cart[..i];
    forall j | 0 <= j < |items|
      ensures Taken(next, items[j].id) == Wanted(cart[..i + 1], items[j].productId, items[j].variantId)
    {
      assert j != k ==> items[j].id != items[k].id && !SameKey(items[j], items[k]);
      assert Taken(quantities, items[j].id) == Wanted(cart[..i], items[j].productId, items[j].variantId);
    }
  }

  method ProjectLine(s: ItemState, c: CartLine, before: nat) returns (line: QuoteLine)
    ensures line == Quoted(s, c, before)
  {
    var unitPriceCents := s.discount.prePriceCents.GetOr(s.unitPriceCents);
    var originalPriceCents := unitPriceCents * c.quantity;
    var next := before + c.quantity;
    var reward := if s.IsReward() then s.discount.amountCents.GetOr(0) else 0;
    var rewardShare := reward * next / s.quantity - reward * before / s.quantity;
    var finalPriceCents := s.unitPriceCents * c.quantity - rewardShare;
    line := QuoteLine(c.productId, c.variantId, c.quantity, unitPriceCents, originalPriceCents, finalPriceCents,
                      originalPriceCents - finalPriceCents, s.discount.title);
  }

  // ----- The order discount -----

  function JoinedTitle(lineTitle: Option<string>, orderTitle: string): string {
    if lineTitle.Some? && lineTitle.value != "" then lineTitle.value + " + " + orderTitle else orderTitle
  }

  function Charged(line: QuoteLine, cents: int, orderTitle: string): QuoteLine {
    if cents == 0 then line
    else
      line.(finalPriceCents := line.finalPriceCents - cents, discountAmountCents := line.discountAmountCents + cents,
            title := Some(JoinedTitle(line.title, orderTitle)))
  }

  /** The quote before and after the order discount: a fair split of exactly what the order promotion takes off. */
  ghost predicate ChargedFairly(base: seq<QuoteLine>, lines: seq<QuoteLine>, split: seq<int>, discount: int, title: string)
    requires LR.Splittable(Finals(base), discount)
  {
    && LR.FairSplit(Finals(base), discount, split)
    && |lines| == |base|
    && forall i :: 0 <= i < |base| ==> lines[i] == Charged(base[i], split[i], title)
  }

  function OrderTitle(sale: SaleState): string {
    if sale.orderPromotion.Some? then sale.orderPromotion.value.title else ""
  }

  ghost predicate QuoteOf(lines: seq<QuoteLine>, base: seq<QuoteLine>, sale: SaleState) {
    var discount := Sum(Finals(base)) - PreviewTotals(sale).totalCents;
    if discount == 0 then lines == base
    else
      && sale.orderPromotion.Some? && LR.Splittable(Finals(base), discount)
      && exists split :: ChargedFairly(base, lines, split, discount, OrderTitle(sale))
  }

  /** One quoted line: what it was, what it costs now, and nothing lost between. */
  predicate ExactLine(line: QuoteLine, s: ItemState, c: CartLine) {
    && line.productId == c.productId && line.variantId == c.variantId && line.quantity == c.quantity
    && line.unitPriceCents == s.BaseCents() && line.originalPriceCents == s.BaseCents() * c.quantity
    && 0 <= line.finalPriceCents && 0 <= line.discountAmountCents
    && line.originalPriceCents == line.finalPriceCents + line.discountAmountCents
  }

  ghost predicate ExactQuote(lines: seq<QuoteLine>, sale: SaleState, cart: seq<CartLine>)
    requires Quotable(sale.items, cart)
  {
    && |lines| == |cart|
    && (forall i :: 0 <= i < |cart| ==> ExactLine(lines[i], sale.items[MatchIn(sale.items, cart, i)], cart[i]))
    && Sum(Finals(lines)) == PreviewTotals(sale).totalCents
  }

  lemma BaseLinesExact(base: seq<QuoteLine>, items: seq<ItemState>, cart: seq<CartLine>)
    requires Quotable(items, cart) && |base| == |cart| && Projected(base, items, cart)
    ensures forall i :: 0 <= i < |cart| ==> ExactLine(base[i], items[MatchIn(items, cart, i)], cart[i])
  {
    forall i | 0 <= i < |cart|
      ensures ExactLine(base[i], items[MatchIn(items, cart, i)], cart[i])
    {
      LineQuoteWithin(items, cart, i);
    }
  }

  lemma ChargedLineExact(line: QuoteLine, s: ItemState, c: CartLine, cents: int, title: string)
    requires ExactLine(line, s, c) && 0 <= cents <= line.finalPriceCents
    ensures ExactLine(Charged(line, cents, title), s, c)
  {
  }

  lemma ChargedSums(base: seq<QuoteLine>, lines: seq<QuoteLine>, split: seq<int>, discount: int, title: string)
    requires LR.Splittable(Finals(base), discount) && ChargedFairly(base, lines, split, discount, title)
    ensures Sum(Finals(lines)) == Sum(Finals(base)) - discount
    ensures forall i :: 0 <= i < |base| ==> 0 <= split[i] <= base[i].finalPriceCents
  {
    forall i | 0 <= i < |base|
      ensures 0 <= split[i] <= base[i].finalPriceCents
    {
      LR.ShareWithinLine(Finals(base), discount, split, i);
    }
    SumAddPointwise(Finals(lines), split, Finals(base));
  }

  /** Every quote the rules allow is exact: line by line, and its final prices sum to the charged total. */
  lemma QuoteIsExact(lines: seq<QuoteLine>, base: seq<QuoteLine>, sale: SaleState, cart: seq<CartLine>)
    requires Quotable(sale.items, cart) && |base| == |cart| && Projected(base, sale.items, cart)
    requires QuoteOf(lines, base, sale)
    ensures ExactQuote(lines, sale, cart)
  {
    BaseLinesExact(base, sale.items, cart);
    var discount := Sum(Finals(base)) - PreviewTotals(sale).totalCents;
    if discount != 0 {
      var split :| ChargedFairly(base, lines, split, discount, OrderTitle(sale));
      ChargedSums(base, lines, split, discount, OrderTitle(sale));
      forall i | 0 <= i < |cart|
        ensures ExactLine(lines[i], sale.items[MatchIn(sale.items, cart, i)], cart[i])
      {
        ChargedLineExact(base[i], sale.items[MatchIn(sale.items, cart, i)], cart[i], split[i], OrderTitle(sale));
      }
    }
  }

  method ChargeShares(base: seq<QuoteLine>, split: seq<int>, title: string) returns (lines: seq<QuoteLine>)
    requires |split| == |base|
    ensures |lines| == |base| && forall j :: 0 <= j < |base| ==> lines[j] == Charged(base[j], split[j], title)
  {
    lines := base;
    for i := 0 to |base|
      invariant |lines| == |base|
      invariant forall j :: 0 <= j < i ==> lines[j] == Charged(base[j], split[j], title)
      invariant forall j :: i <= j < |base| ==> lines[j] == base[j]
    {
      if split[i] != 0 {
        lines := lines[i := Charged(base[i], split[i], title)];
      }
    }
  }

  method ChargeOrderDiscount(base: seq<QuoteLine>, sale: SaleState) returns (lines: seq<QuoteLine>)
    requires forall i :: 0 <= i < |base| ==> 0 <= base[i].finalPriceCents
    requires Sum(Finals(base)) == Sum(NetLines(sale.items)) && 0 <= OrderCents(sale)
    ensures QuoteOf(lines, base, sale)
  {
    lines := base;
    SumNonNegative(Finals(base));
    if sale.orderPromotion.Some? {
      var subtotal := Sum(Finals(base));
      var discount := subtotal - PreviewTotals(sale).totalCents;
      if discount > 0 && subtotal > 0 {
        var split := LR.SplitOrderDiscount(Finals(base), discount);
        lines := ChargeShares(base, split, OrderTitle(sale));
        assert ChargedFairly(base, lines, split, discount, OrderTitle(sale));
      }
    }
  }

  // ----- The whole quote -----

  /** Stacks the cart into a sale, binds the list, seeds catalog prices and recomputes. */
  method BuildBotPricingSale(cart: seq<CartLine>, customerId: Option<Id>, listId: Option<Id>, env: Environment)
    returns (r: Result<SaleState, QuoteError>)
    requires ValidCatalog(env.catalog)
    ensures match Seeded(Built(cart), listId, env)
            case None => r == Err(NoCatalogPrice)
            case Some(items) =>
              match Recomputed(SaleState(items, customerId, listId, {}, {}, None), BotEnvironment(env))
              case Err(e) => r == Err(Refused(e))
              case Ok(o) => r == Ok(o.sale)
  {
    var sale := new Sale(customerId);
    assert cart[..0] == [];
    for i := 0 to |cart|
      invariant sale.Valid() && fresh(sale) && fresh(set x | x in sale.items)
      invariant sale.View() == SaleState(Built(cart[..i]), customerId, None, {}, {}, None)
    {
      var c := cart[i];
      sale.AddItem(c.lineId, c.productId, c.variantId, c.quantity, 0);
      assert cart[..i + 1][..i] == cart[..i];
    }
    assert cart[..|cart|] == cart;
    sale.SetGlobalPriceList(listId);
    var seeded := sale.SeedPrices(env);
    if !seeded {
      return Err(NoCatalogPrice);
    }
    var error, _, _ := sale.RecomputePricingAndPromotions(BotEnvironment(env));
    r := if error.Some? then Err(Refused(error.value)) else Ok(sale.View());
  }

  /** The quote is exact for every cart, or fails for a stated reason: unknown customer, no price, or a refused discount. */
  method PreviewBotPricing(cart: seq<CartLine>, customerId: Option<Id>, customers: map<Id, Option<Id>>, env: Environment)
    returns (r: Result<seq<QuoteLine>, QuoteError>)
    requires FreshIds(cart) && ValidCatalog(env.catalog)
    ensures match QuotedSale(cart, customerId, customers, env)
            case Err(e) => r == Err(e)
            case Ok(sale) =>
              && r.Ok? && Quotable(sale.items, cart)
              && ExactQuote(r.value, sale, cart)
              && exists base :: |base| == |cart| && Projected(base, sale.items, cart) && QuoteOf(r.value, base, sale)
  {
    if customerId.Some? && customerId.value !in customers {
      return Err(CustomerNotFound);
    }
    var listId := if customerId.Some? then customers[customerId.value] else None;
    var built := BuildBotPricingSale(cart, customerId, listId, env);
    assert built == QuotedSale(cart, customerId, customers, env);
    if built.Err? {
      return Err(built.error);
    }
    var sale := built.value;
    QuotedSaleIsQuotable(cart, customerId, customers, env);
    var base := ProjectLines(sale.items, cart);
    BaseLinesExact(base, sale.items, cart);
    var lines := ChargeOrderDiscount(base, sale);
    QuoteIsExact(lines, base, sale, cart);
    r := Ok(lines);
  }
}
