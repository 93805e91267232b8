/** One line of a sale: src/sales/domain/sale-item.entity.ts.

`ItemState` is the value of a line and carries the specification; the class `SaleItem`
is the entity whose fields the source updates in place, each method proved against it.
*/
module SaleItems {
  import opened Common

  datatype PriceSource = Default | PriceList | Custom
  datatype DiscountType = Amount | Percentage
  datatype RewardKind = BuyXGetY | Advanced

  datatype ItemError = InvalidReprice | DiscountAmountInvalid | DiscountPercentInvalid | RewardInvalid

  /** The columns a discount writes and `clearDiscountFields` resets. */
  datatype Discount = Discount(
    discountType: Option<DiscountType>,
    value: Option<int>,
    amountCents: Option<int>,
    prePriceCents: Option<int>,
    title: Option<string>,
    promotionId: Option<Id>,
    rewardPercent: Option<int>,
    rewardKind: Option<RewardKind>
  )

  const NO_DISCOUNT: Discount := Discount(None, None, None, None, None, None, None, None)

  datatype ItemState = ItemState(
    id: Id,
    productId: Id,
    variantId: Option<Id>,
    quantity: Positive,
    unitPriceCents: int,
    priceSource: PriceSource,
    appliedPriceListId: Option<Id>,
    discount: Discount
  )
  {
    /** The price before any per-line discount. */
    function BaseCents(): int {
      discount.prePriceCents.GetOr(unitPriceCents)
    }

    predicate HasManualDiscount() {
      discount.discountType.Some? && discount.promotionId.None?
    }

    /** Lines whose price a recompute never touches. */
    predicate Sticky() {
      priceSource == Custom || HasManualDiscount()
    }

    predicate IsReward() {
      && discount.promotionId.Some?
      && discount.amountCents.Some? && discount.amountCents.value > 0
      && discount.prePriceCents.Some? && unitPriceCents == discount.prePriceCents.value
    }

    function RewardCents(): int {
      if IsReward() then discount.amountCents.value else 0
    }

    /** What the customer pays for the line before any order discount. */
    function NetCents(): int {
      unitPriceCents * quantity - RewardCents()
    }

    predicate Matches(product: Id, variant: Option<Id>) {
      productId == product && variantId == variant
    }

    /** Holds of every line the entity's methods can produce. */
    predicate Valid() {
      && 0 <= unitPriceCents
      && (discount.discountType.None? ==> discount == NO_DISCOUNT)
      && (discount.discountType.Some? ==> discount.prePriceCents.Some? && unitPriceCents <= discount.prePriceCents.value)
    }
  }

  function NewItem(id: Id, product: Id, variant: Option<Id>, quantity: Positive, unitPriceCents: nat): ItemState {
    ItemState(id, product, variant, quantity, unitPriceCents, Default, None, NO_DISCOUNT)
  }

  function Undiscounted(s: ItemState): ItemState {
    s.(unitPriceCents := s.BaseCents(), discount := NO_DISCOUNT)
  }

  /** The catalog's price; a custom price never comes this way. */
  function Repriced(s: ItemState, priceCents: int, source: PriceSource, listId: Option<Id>): Result<ItemState, ItemError> {
    if source == Custom || priceCents < 0 then Err(InvalidReprice)
    else Ok(s.(unitPriceCents := priceCents, priceSource := source, appliedPriceListId := listId))
  }

  function DiscountCents(kind: DiscountType, value: int, baseline: int): Result<int, ItemError> {
    match kind
    case Amount => if value < 1 then Err(DiscountAmountInvalid) else Ok(value)
    case Percentage =>
      if value < 1 || value > 99 then Err(DiscountPercentInvalid) else Ok(RoundDiv(baseline * value, 100))
  }

  /** A discount taken off each unit; the unit price must stay at least one cent. */
  function Discounted(s: ItemState, kind: DiscountType, value: int, title: Option<string>,
                         promotion: Option<Id>): Result<ItemState, ItemError>
  {
    var baseline := s.BaseCents();
    match DiscountCents(kind, value, baseline)
    case Err(e) => Err(e)
    case Ok(cents) =>
      if baseline - cents < 1 then Err(DiscountAmountInvalid)
      else
        Ok(s.(unitPriceCents := baseline - cents,
              discount := s.discount.(discountType := Some(kind), value := Some(value),
                                      amountCents := Some(cents), prePriceCents := Some(baseline),
                                      title := title, promotionId := promotion)))
  }

  /** A whole-line reward; the unit price stays full and the snapshot equals it. */
  function Rewarded(s: ItemState, lineCents: int, perUnitCents: int, percent: int, title: Option<string>,
                       promotion: Id, kind: RewardKind): Result<ItemState, ItemError>
  {
    if lineCents <= 0 || lineCents > s.unitPriceCents * s.quantity then Err(RewardInvalid)
    else
      Ok(s.(discount := Discount(Some(Amount), Some(perUnitCents), Some(lineCents), Some(s.unitPriceCents),
                                 title, Some(promotion), Some(percent), Some(kind))))
  }

  /** When a per-unit discount of a well-formed line is accepted. */
  predicate DiscountFits(kind: DiscountType, value: int, baseline: int) {
    match kind
    case Amount => 1 <= value < baseline
    case Percentage => 1 <= value <= 99 && baseline * (100 - value) > 50
  }

  /** The whole unit price may never be discounted away: exactly when the entity accepts a discount. */
  lemma DiscountAcceptedIff(s: ItemState, kind: DiscountType, value: int, title: Option<string>, promotion: Option<Id>)
    requires s.Valid()
    ensures Discounted(s, kind, value, title, promotion).Ok? <==> DiscountFits(kind, value, s.BaseCents())
    ensures Discounted(s, kind, value, title, promotion).Ok? ==>
              var t := Discounted(s, kind, value, title, promotion).value;
              t.Valid() && 1 <= t.unitPriceCents <= s.BaseCents() && t.BaseCents() == s.BaseCents() && !t.IsReward()
  {
    var b := s.BaseCents();
    if kind == Percentage && 1 <= value <= 99 {
      PercentageFits(b, value);
    }
  }

  lemma PercentageFits(b: int, p: int)
    requires 1 <= p <= 99 && 0 <= b
    ensures 0 <= RoundDiv(b * p, 100)
    ensures b - RoundDiv(b * p, 100) >= 1 <==> b * (100 - p) > 50
  {
    var r := RoundDiv(b * p, 100);
    assert 2 * (b * p) - 100 < 200 * r <= 2 * (b * p) + 100;
    assert 0 <= b * p;
    assert b * (100 - p) == 100 * b - b * p;
  }

  /** A mutator does what its specification says: the new state on success, the error and no change otherwise. */
  predicate Settles(spec: Result<ItemState, ItemError>, before: ItemState, after: ItemState, error: Option<ItemError>) {
    match spec
    case Ok(t) => error.None? && after == t
    case Err(e) => error == Some(e) && after == before
  }

  /** The entity. Every mutator is a method proved against the function of the same meaning above. */
  class SaleItem {
    const id: Id
    const productId: Id
    const variantId: Option<Id>
    var quantity: Positive
    var unitPriceCents: int
    var priceSource: PriceSource
    var appliedPriceListId: Option<Id>
    var discount: Discount

    function State(): ItemState
      reads this
    {
      ItemState(id, productId, variantId, quantity, unitPriceCents, priceSource, appliedPriceListId, discount)
    }

    constructor (id: Id, productId: Id, variantId: Option<Id>, quantity: Positive, unitPriceCents: nat)
      ensures State() == NewItem(id, productId, variantId, quantity, unitPriceCents)
    {
      this.id, this.productId, this.variantId := id, productId, variantId;
      this.quantity, this.unitPriceCents := quantity, unitPriceCents;
      priceSource, appliedPriceListId, discount := Default, None, NO_DISCOUNT;
    }

    method ChangeQuantity(newQuantity: Positive)
      modifies this
      ensures State() == old(State()).(quantity := newQuantity)
    {
      quantity := newQuantity;
    }

    method Reprice(priceCents: int, source: PriceSource, listId: Option<Id>) returns (r: Option<ItemError>)
      modifies this
      ensures Settles(Repriced(old(State()), priceCents, source, listId), old(State()), State(), r)
    {
      if source == Custom {
        return Some(InvalidReprice);
      }
      if priceCents < 0 {
        return Some(InvalidReprice);
      }
      unitPriceCents := priceCents;
      priceSource := source;
      appliedPriceListId := listId;
      return None;
    }

    method RemoveDiscount()
      modifies this
      ensures State() == Undiscounted(old(State()))
    {
      if discount.prePriceCents.Some? {
        unitPriceCents := discount.prePriceCents.value;
      }
      discount := NO_DISCOUNT;
    }

    method ApplyDiscount(kind: DiscountType, value: int, title: Option<string>, promotion: Option<Id>)
      returns (r: Option<ItemError>)
      modifies this
      ensures Settles(Discounted(old(State()), kind, value, title, promotion), old(State()), State(), r)
    {
      var baseline := discount.prePriceCents.GetOr(unitPriceCents);
      var cents;
      match kind {
        case Amount =>
          if value < 1 {
            return Some(DiscountAmountInvalid);
          }
          cents := value;
        case Percentage =>
          if value < 1 || value > 99 {
            return Some(DiscountPercentInvalid);
          }
          cents := RoundDiv(baseline * value, 100);
      }
      if baseline - cents < 1 {
        return Some(DiscountAmountInvalid);
      }
      discount := discount.(prePriceCents := Some(baseline), discountType := Some(kind), value := Some(value),
                            amountCents := Some(cents), title := title, promotionId := promotion);
      unitPriceCents := baseline - cents;
      return None;
    }

    method ApplyReward(lineCents: int, perUnitCents: int, percent: int, title: Option<string>, promotion: Id,
                       kind: RewardKind)
      returns (r: Option<ItemError>)
      modifies this
      ensures Settles(Rewarded(old(State()), lineCents, perUnitCents, percent, title, promotion, kind), old(State()), State(), r)
    {
      if lineCents <= 0 || lineCents > unitPriceCents * quantity {
        return Some(RewardInvalid);
      }
      discount := Discount(Some(Amount), Some(perUnitCents), Some(lineCents), Some(unitPriceCents), title,
                           Some(promotion), Some(percent), Some(kind));
      return None;
    }
  }
}
