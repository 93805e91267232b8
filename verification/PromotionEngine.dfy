/** The POS promotion engine: src/promotions/application/pos-evaluate-promotions.use-case.ts.

One evaluation picks a PRODUCT_DISCOUNT winner per line, lets a BUY_X_GET_Y or ADVANCED
reward replace it when the line saves more, picks one ORDER_DISCOUNT, and repeats without
any promotion whose demand exceeds its remaining capacity. The clock is folded into
`Promotion.activeNow`.
*/
module PromotionEngine {
  import opened Common
  import opened SaleItems

  datatype PromotionType = ProductDiscount | OrderDiscount | BuyXGetYDiscount | AdvancedDiscount
  datatype TargetType = Products | Variants | Categories | Brands
  datatype Side = DefaultSide | BuySide | GetSide
  datatype Target = Target(side: Side, targetType: TargetType, targetId: Id)
  datatype Scope = Everyone | RegisteredOnly | Specific(customers: set<Id>)
  datatype Tier = VariantTier | ProductTier | CategoryTier | BrandTier

  type Percent = p: int | 0 <= p <= 100

  datatype Promotion = Promotion(
    id: Id,
    title: string,
    kind: PromotionType,
    manual: bool,
    botEligible: bool,
    activeNow: bool,
    scope: Scope,
    appliesTo: Option<TargetType>,
    buyTargetType: Option<TargetType>,
    getTargetType: Option<TargetType>,
    targets: seq<Target>,
    priceLists: set<Id>,
    discountType: Option<DiscountType>,
    discountValue: Option<int>,
    minPurchaseCents: Option<int>,
    buyQuantity: Option<Positive>,
    getQuantity: Option<Positive>,
    getPercent: Option<Percent>,
    remainingUnits: Option<int>
  )

  datatype EvalLine = EvalLine(
    itemId: Id,
    productId: Id,
    variantId: Option<Id>,
    quantity: Positive,
    priceCents: int,
    globalListId: Option<Id>,
    categoryId: Option<Id>,
    brandId: Option<Id>,
    manualDiscount: bool
  )

  datatype EvalInput = EvalInput(
    customerId: Option<Id>,
    asUnregistered: bool,
    botOnly: bool,
    lines: seq<EvalLine>,
    vetoed: set<Id>,
    optedIn: set<Id>
  )

  datatype LineResult =
    | PerUnit(itemId: Id, promotionId: Id, discountType: DiscountType, value: int, title: string)
    | WholeLine(itemId: Id, promotionId: Id, title: string, lineCents: int, perUnitCents: int, units: nat,
                percent: int, kind: RewardKind)

  datatype OrderResult = OrderResult(promotionId: Id, discountType: DiscountType, value: int, title: string,
                                     amountCents: int)

  datatype Selection = Selection(lines: seq<LineResult>, order: Option<OrderResult>)

  datatype EvalResult = EvalResult(selection: Selection, targetable: set<Id>, demands: map<Id, nat>,
                                   excluded: set<Id>)

  // ----- Gates -----

  predicate Supported(p: Promotion) {
    match p.kind
    case OrderDiscount => true
    case AdvancedDiscount => p.buyTargetType.Some? && p.getTargetType.Some?
    case _ => p.appliesTo.Some?
  }

  predicate PassesGates(p: Promotion, input: EvalInput) {
    && Supported(p)
    && p.activeNow
    && match p.scope
       case Everyone => true
       case RegisteredOnly => input.customerId.Some? && !input.asUnregistered
       case Specific(customers) => input.customerId.Some? && input.customerId.value in customers
  }

  /** Manual promotions need an opt-in; a veto always wins. */
  predicate Usable(p: Promotion, input: EvalInput) {
    && (p.manual ==> p.id in input.optedIn)
    && p.id !in input.vetoed
    && PassesGates(p, input)
  }

  predicate Targets(targets: seq<Target>, side: Side, kind: TargetType, id: Option<Id>) {
    id.Some? && Target(side, kind, id.value) in targets
  }

  function MatchTier(targets: seq<Target>, line: EvalLine, side: Side): Option<Tier> {
    if Targets(targets, side, Variants, line.variantId) then Some(VariantTier)
    else if Targets(targets, side, Products, Some(line.productId)) then Some(ProductTier)
    else if Targets(targets, side, Categories, line.categoryId) then Some(CategoryTier)
    else if Targets(targets, side, Brands, line.brandId) then Some(BrandTier)
    else None
  }

  predicate MatchesPriceList(p: Promotion, line: EvalLine) {
    p.priceLists == {} || (line.globalListId.Some? && line.globalListId.value in p.priceLists)
  }

  // ----- Best wins -----

  datatype Candidate = Candidate(promotion: Promotion, cents: int)

  /** Largest saving; ties go to the lowest promotion id. */
  function Best(candidates: seq<Candidate>): Option<Candidate> {
    if candidates == [] then None
    else
      var best := Best(candidates[..|candidates| - 1]);
      var c := candidates[|candidates| - 1];
      if || best.None?
         || c.cents > best.value.cents
         || (c.cents == best.value.cents && c.promotion.id < best.value.promotion.id)
      then Some(c) else best
  }

  lemma {:induction false} BestIsCandidate(candidates: seq<Candidate>)
    ensures Best(candidates).Some? <==> candidates != []
    ensures Best(candidates).Some? ==>
              && Best(candidates).value in candidates
              && forall c :: c in candidates ==> c.cents <= Best(candidates).value.cents
  {
    if candidates != [] {
      BestIsCandidate(candidates[..|candidates| - 1]);
    }
  }

  // ----- PRODUCT_DISCOUNT -----

  function ClampPercent(p: int): (r: int)
    ensures 1 <= r <= 99
  {
    if p < 1 then 1 else if p > 99 then 99 else p
  }

  function LineDiscountCents(p: Promotion, baseline: int): int {
    if p.discountType.None? || p.discountValue.None? || baseline <= 0 then 0
    else
      match p.discountType.value
      case Percentage => RoundDiv(baseline * ClampPercent(p.discountValue.value), 100)
      case Amount =>
        if p.discountValue.value <= 0 then 0
        else if p.discountValue.value <= baseline then p.discountValue.value else baseline
  }

  predicate PdEligible(line: EvalLine, p: Promotion, input: EvalInput) {
    && Usable(p, input)
    && p.kind == ProductDiscount
    && MatchTier(p.targets, line, DefaultSide).Some?
    && MatchesPriceList(p, line)
    && LineDiscountCents(p, line.priceCents) > 0
  }

  function PdCandidates(line: EvalLine, candidates: seq<Promotion>, input: EvalInput): seq<Candidate> {
    if candidates == [] then []
    else
      var rest := PdCandidates(line, candidates[..|candidates| - 1], input);
      var p := candidates[|candidates| - 1];
      if PdEligible(line, p, input) then rest + [Candidate(p, LineDiscountCents(p, line.priceCents))] else rest
  }

  function TierOrdinal(t: Option<Tier>): nat {
    match t
    case Some(VariantTier) => 3
    case Some(ProductTier) => 2
    case Some(_) => 1
    case None => 0
  }

  function CandidateOrdinal(c: Candidate, line: EvalLine): nat {
    TierOrdinal(MatchTier(c.promotion.targets, line, DefaultSide))
  }

  function MaxOrdinal(cs: seq<Candidate>, line: EvalLine): nat {
    if cs == [] then 0
    else
      var rest := MaxOrdinal(cs[..|cs| - 1], line);
      var o := CandidateOrdinal(cs[|cs| - 1], line);
      if o > rest then o else rest
  }

  function Survivors(cs: seq<Candidate>, line: EvalLine, ordinal: nat): seq<Candidate> {
    if cs == [] then []
    else
      var rest := Survivors(cs[..|cs| - 1], line, ordinal);
      var c := cs[|cs| - 1];
      if CandidateOrdinal(c, line) == ordinal then rest + [c] else rest
  }

  function PdWinner(line: EvalLine, candidates: seq<Promotion>, input: EvalInput): Option<Candidate> {
    if line.manualDiscount then None
    else
      var eligible := PdCandidates(line, candidates, input);
      Best(Survivors(eligible, line, MaxOrdinal(eligible, line)))
  }

  /** The emitted value of a fixed discount is not capped at the line's price. */
  function PdResult(itemId: Id, p: Promotion): LineResult {
    if p.discountType == Some(Percentage) then
      PerUnit(itemId, p.id, Percentage, ClampPercent(p.discountValue.GetOr(1)), p.title)
    else
      PerUnit(itemId, p.id, Amount, p.discountValue.GetOr(0), p.title)
  }

  function PdPass(lines: seq<EvalLine>, candidates: seq<Promotion>, input: EvalInput): seq<LineResult> {
    if lines == [] then []
    else
      var rest := PdPass(lines[..|lines| - 1], candidates, input);
      var line := lines[|lines| - 1];
      match PdWinner(line, candidates, input)
      case None => rest
      case Some(w) => rest + [PdResult(line.itemId, w.promotion)]
  }

  // ----- Results of one line -----

  function IndexOf(results: seq<LineResult>, itemId: Id): (r: Option<nat>)
    ensures r.Some? ==> r.value < |results| && results[r.value].itemId == itemId
    ensures r.None? ==> forall i :: 0 <= i < |results| ==> results[i].itemId != itemId
  {
    if results == [] then None
    else if results[0].itemId == itemId then Some(0)
    else
      match IndexOf(results[1..], itemId)
      case None => None
      case Some(i) => Some(i + 1)
  }

  function Existing(results: seq<LineResult>, itemId: Id): Option<LineResult> {
    match IndexOf(results, itemId)
    case None => None
    case Some(i) => Some(results[i])
  }

  function Upsert(results: seq<LineResult>, r: LineResult): seq<LineResult> {
    match IndexOf(results, r.itemId)
    case None => results + [r]
    case Some(i) => results[i := r]
  }

  /** Per unit for a per-unit result, the whole line for a reward. */
  function AppliedCents(line: EvalLine, r: LineResult): int {
    match r
    case WholeLine(_, _, _, lineCents, _, _, _, _) => lineCents
    case PerUnit(_, _, Percentage, value, _) => RoundDiv(line.priceCents * ClampPercent(value), 100)
    case PerUnit(_, _, Amount, value, _) => if value <= line.priceCents then value else line.priceCents
  }

  function SavedCents(line: EvalLine, r: LineResult): int {
    if r.WholeLine? then r.lineCents else AppliedCents(line, r) * line.quantity
  }

  /** A challenger beats what the line already has on total saving, then on the lower id. */
  predicate Beats(line: EvalLine, cents: int, promotionId: Id, existing: Option<LineResult>) {
    var saved := if existing.None? then 0 else SavedCents(line, existing.value);
    cents > saved || (cents == saved && (existing.None? || promotionId < existing.value.promotionId))
  }

  // ----- BUY_X_GET_Y -----

  function PerUnitReward(priceCents: int, percent: Percent): int {
    RoundDiv(priceCents * percent, 100)
  }

  predicate HasRewardFields(p: Promotion) {
    p.buyQuantity.Some? && p.getQuantity.Some? && p.getPercent.Some?
  }

  function BxgyUnits(line: EvalLine, p: Promotion): nat
    requires HasRewardFields(p)
  {
    line.quantity / (p.buyQuantity.value + p.getQuantity.value) * p.getQuantity.value
  }

  function BxgyCents(line: EvalLine, p: Promotion): int
    requires HasRewardFields(p)
  {
    BxgyUnits(line, p) * PerUnitReward(line.priceCents, p.getPercent.value)
  }

  predicate BxgyEligible(line: EvalLine, p: Promotion, input: EvalInput) {
    && p.kind == BuyXGetYDiscount
    && Usable(p, input)
    && MatchTier(p.targets, line, DefaultSide).Some?
    && MatchesPriceList(p, line)
    && HasRewardFields(p)
    && line.quantity >= p.buyQuantity.value
    && BxgyCents(line, p) > 0
  }

  function BxgyCandidates(line: EvalLine, candidates: seq<Promotion>, input: EvalInput): (r: seq<Candidate>)
    ensures forall c :: c in r ==> BxgyEligible(line, c.promotion, input) && c.cents == BxgyCents(line, c.promotion)
    ensures forall c :: c in r ==> c.promotion in candidates
  {
    if candidates == [] then []
    else
      var rest := BxgyCandidates(line, candidates[..|candidates| - 1], input);
      var p := candidates[|candidates| - 1];
      if BxgyEligible(line, p, input) then rest + [Candidate(p, BxgyCents(line, p))] else rest
  }

  function BxgyWinner(line: EvalLine, candidates: seq<Promotion>, input: EvalInput): (r: Option<Candidate>)
    ensures r.Some? ==> BxgyEligible(line, r.value.promotion, input) && r.value.cents == BxgyCents(line, r.value.promotion)
    ensures r.Some? ==> r.value.promotion in candidates && !line.manualDiscount
  {
    if line.manualDiscount then None
    else
      BestIsCandidate(BxgyCandidates(line, candidates, input));
      Best(BxgyCandidates(line, candidates, input))
  }

  function BxgyResult(line: EvalLine, p: Promotion): LineResult
    requires HasRewardFields(p)
  {
    WholeLine(line.itemId, p.id, p.title, BxgyCents(line, p), PerUnitReward(line.priceCents, p.getPercent.value),
              BxgyUnits(line, p), p.getPercent.value, BuyXGetY)
  }

  function BxgyPass(lines: seq<EvalLine>, candidates: seq<Promotion>, input: EvalInput,
                    results: seq<LineResult>): seq<LineResult>
  {
    if lines == [] then results
    else
      var rest := BxgyPass(lines[..|lines| - 1], candidates, input, results);
      var line := lines[|lines| - 1];
      match BxgyWinner(line, candidates, input)
      case None => rest
      case Some(w) =>
        if Beats(line, w.cents, w.promotion.id, Existing(rest, line.itemId))
        then Upsert(rest, BxgyResult(line, w.promotion)) else rest
  }

  // ----- ADVANCED -----

  datatype Reward = Reward(line: EvalLine, units: nat, perUnitCents: int)
  {
    function Cents(): int { units * perUnitCents }
  }

  predicate OnSide(p: Promotion, line: EvalLine, side: Side) {
    !line.manualDiscount && MatchesPriceList(p, line) && MatchTier(p.targets, line, side).Some?
  }

  function BuyUnits(p: Promotion, lines: seq<EvalLine>): nat {
    if lines == [] then 0
    else
      var line := lines[|lines| - 1];
      BuyUnits(p, lines[..|lines| - 1]) + if OnSide(p, line, BuySide) then line.quantity else 0
  }

  /** A line that paid for the reward never receives it. */
  function GetLines(p: Promotion, lines: seq<EvalLine>, all: seq<EvalLine>): (r: seq<EvalLine>)
    ensures forall l :: l in r ==> l in lines && !l.manualDiscount
  {
    if lines == [] then []
    else
      var rest := GetLines(p, lines[..|lines| - 1], all);
      var line := lines[|lines| - 1];
      var paid := exists b :: b in all && OnSide(p, b, BuySide) && b.itemId == line.itemId;
      if OnSide(p, line, GetSide) && !paid then rest + [line] else rest
  }

  function InsertById(line: EvalLine, sorted: seq<EvalLine>): (r: seq<EvalLine>)
    ensures forall l :: l in r <==> l == line || l in sorted
  {
    if sorted == [] then [line]
    else if line.itemId <= sorted[0].itemId then [line] + sorted
    else [sorted[0]] + InsertById(line, sorted[1..])
  }

  function SortById(lines: seq<EvalLine>): (r: seq<EvalLine>)
    ensures forall l :: l in r <==> l in lines
  {
    if lines == [] then [] else InsertById(lines[0], SortById(lines[1..]))
  }

  function Allocate(lines: seq<EvalLine>, pool: int, percent: Percent): (r: seq<Reward>)
    ensures forall w :: w in r ==> w.line in lines && 0 < w.units <= w.line.quantity
    ensures forall w :: w in r ==> w.perUnitCents == PerUnitReward(w.line.priceCents, percent)
  {
    if lines == [] || pool <= 0 then []
    else
      var take := if lines[0].quantity < pool then lines[0].quantity else pool;
      [Reward(lines[0], take, PerUnitReward(lines[0].priceCents, percent))] + Allocate(lines[1..], pool - take, percent)
  }

  function AdvancedResult(p: Promotion, w: Reward): LineResult
    requires HasRewardFields(p)
  {
    WholeLine(w.line.itemId, p.id, p.title, w.Cents(), w.perUnitCents, w.units, p.getPercent.value, Advanced)
  }

  function ApplyRewards(p: Promotion, rewards: seq<Reward>, results: seq<LineResult>): seq<LineResult>
    requires HasRewardFields(p)
  {
    if rewards == [] then results
    else
      var rest := ApplyRewards(p, rewards[..|rewards| - 1], results);
      var w := rewards[|rewards| - 1];
      if w.Cents() > 0 && Beats(w.line, w.Cents(), p.id, Existing(rest, w.line.itemId))
      then Upsert(rest, AdvancedResult(p, w)) else rest
  }

  predicate AdvancedUsable(p: Promotion, input: EvalInput) {
    p.kind == AdvancedDiscount && !p.manual && Usable(p, input) && HasRewardFields(p)
  }

  function AdvancedRewards(p: Promotion, lines: seq<EvalLine>): (r: seq<Reward>)
    requires HasRewardFields(p)
    ensures forall w :: w in r ==> w.line in lines && !w.line.manualDiscount && 0 < w.units <= w.line.quantity
    ensures forall w :: w in r ==> w.perUnitCents == PerUnitReward(w.line.priceCents, p.getPercent.value)
  {
    var groups := BuyUnits(p, lines) / p.buyQuantity.value;
    Allocate(SortById(GetLines(p, lines, lines)), groups * p.getQuantity.value, p.getPercent.value)
  }

  function AdvancedPass(candidates: seq<Promotion>, input: EvalInput, results: seq<LineResult>): seq<LineResult> {
    if candidates == [] then results
    else
      var rest := AdvancedPass(candidates[..|candidates| - 1], input, results);
      var p := candidates[|candidates| - 1];
      if AdvancedUsable(p, input) then ApplyRewards(p, AdvancedRewards(p, input.lines), rest) else rest
  }

  // ----- ORDER_DISCOUNT -----

  function GrossCents(lines: seq<EvalLine>): int {
    if lines == [] then 0
    else GrossCents(lines[..|lines| - 1]) + lines[|lines| - 1].priceCents * lines[|lines| - 1].quantity
  }

  /** What the engine takes off each line before ranking order discounts: per unit, not per line, for per-unit results. */
  function RankedSubtotal(lines: seq<EvalLine>, results: seq<LineResult>): int {
    if lines == [] then 0
    else
      var line := lines[|lines| - 1];
      var off := match Existing(results, line.itemId) case None => 0 case Some(r) => AppliedCents(line, r);
      RankedSubtotal(lines[..|lines| - 1], results) + line.priceCents * line.quantity - off
  }

  function OrderDiscountCents(p: Promotion, subtotal: int): int {
    if p.discountType.None? || p.discountValue.None? then 0
    else
      match p.discountType.value
      case Percentage => RoundDiv(subtotal * ClampPercent(p.discountValue.value), 100)
      case Amount =>
        if p.discountValue.value <= 0 then 0
        else if p.discountValue.value <= subtotal then p.discountValue.value else subtotal
  }

  predicate OrderEligible(p: Promotion, input: EvalInput, subtotal: int) {
    && p.kind == OrderDiscount
    && Usable(p, input)
    && (forall l :: l in input.lines ==> MatchesPriceList(p, l))
    && (p.minPurchaseCents.Some? ==> GrossCents(input.lines) >= p.minPurchaseCents.value)
    && subtotal > 0
    && OrderDiscountCents(p, subtotal) > 0
  }

  function OrderCandidates(candidates: seq<Promotion>, input: EvalInput, subtotal: int): seq<Candidate> {
    if candidates == [] then []
    else
      var rest := OrderCandidates(candidates[..|candidates| - 1], input, subtotal);
      var p := candidates[|candidates| - 1];
      if OrderEligible(p, input, subtotal) then rest + [Candidate(p, OrderDiscountCents(p, subtotal))] else rest
  }

  function OrderPass(candidates: seq<Promotion>, input: EvalInput, results: seq<LineResult>): Option<OrderResult> {
    match Best(OrderCandidates(candidates, input, RankedSubtotal(input.lines, results)))
    case None => None
    case Some(w) =>
      var p := w.promotion;
      if p.discountType == Some(Percentage)
      then Some(OrderResult(p.id, Percentage, ClampPercent(p.discountValue.GetOr(1)), p.title, w.cents))
      else Some(OrderResult(p.id, Amount, p.discountValue.GetOr(0), p.title, w.cents))
  }

  function LinePasses(candidates: seq<Promotion>, input: EvalInput): seq<LineResult> {
    AdvancedPass(candidates, input, BxgyPass(input.lines, candidates, input, PdPass(input.lines, candidates, input)))
  }

  function Select(candidates: seq<Promotion>, input: EvalInput): Selection {
    var results := LinePasses(candidates, input);
    Selection(results, OrderPass(candidates, input, results))
  }

  // ----- Capacity -----

  function LineQuantity(lines: seq<EvalLine>, itemId: Id): nat {
    if lines == [] then 0
    else if lines[0].itemId == itemId then lines[0].quantity
    else LineQuantity(lines[1..], itemId)
  }

  function TotalQuantity(lines: seq<EvalLine>): nat {
    if lines == [] then 0 else lines[0].quantity + TotalQuantity(lines[1..])
  }

  function LineDemand(id: Id, lines: seq<EvalLine>, results: seq<LineResult>): nat {
    if results == [] then 0
    else
      var r := results[|results| - 1];
      LineDemand(id, lines, results[..|results| - 1]) +
      if r.promotionId != id then 0 else if r.WholeLine? then r.units else LineQuantity(lines, r.itemId)
  }

  /** Benefited units a selection would take from one promotion. */
  function Demand(id: Id, lines: seq<EvalLine>, s: Selection): nat {
    LineDemand(id, lines, s.lines) +
    if s.order.Some? && s.order.value.promotionId == id then TotalQuantity(lines) else 0
  }

  function SelectedIds(s: Selection): set<Id> {
    (set r | r in s.lines :: r.promotionId) + if s.order.Some? then {s.order.value.promotionId} else {}
  }

  function Demands(lines: seq<EvalLine>, s: Selection): map<Id, nat> {
    map id | id in SelectedIds(s) && Demand(id, lines, s) > 0 :: Demand(id, lines, s)
  }

  function Remaining(candidates: seq<Promotion>, id: Id): (r: Option<int>)
    ensures r.Some? ==> exists p :: p in candidates && p.id == id
  {
    if candidates == [] then None
    else if candidates[|candidates| - 1].id == id then candidates[|candidates| - 1].remainingUnits
    else Remaining(candidates[..|candidates| - 1], id)
  }

  function Overruns(candidates: seq<Promotion>, lines: seq<EvalLine>, s: Selection): set<Id> {
    set id | id in Demands(lines, s) && Remaining(candidates, id).Some? &&
             Demands(lines, s)[id] > Remaining(candidates, id).value
  }

  function Ids(candidates: seq<Promotion>): set<Id> {
    set p | p in candidates :: p.id
  }

  function Without(candidates: seq<Promotion>, excluded: set<Id>): (r: seq<Promotion>)
    ensures forall p :: p in r <==> p in candidates && p.id !in excluded
  {
    if candidates == [] then []
    else
      var rest := Without(candidates[..|candidates| - 1], excluded);
      var p := candidates[|candidates| - 1];
      if p.id in excluded then rest else rest + [p]
  }

  function BotFiltered(candidates: seq<Promotion>, botOnly: bool): (r: seq<Promotion>)
    ensures forall p :: p in r ==> p in candidates
  {
    if candidates == [] then []
    else
      var rest := BotFiltered(candidates[..|candidates| - 1], botOnly);
      var p := candidates[|candidates| - 1];
      if botOnly && !p.botEligible then rest else rest + [p]
  }

  /** Opt-ins whose target is still in the cart; every other opt-in is pruned by the caller. */
  function Targetable(loaded: seq<Promotion>, input: EvalInput): set<Id> {
    set p | p in loaded && IsTargetable(p, input) :: p.id
  }

  predicate IsTargetable(p: Promotion, input: EvalInput) {
    && p.manual
    && p.id in input.optedIn
    && p.id !in input.vetoed
    && Supported(p)
    && (|| p.kind == OrderDiscount
        || ((p.kind == ProductDiscount || p.kind == BuyXGetYDiscount) &&
            exists l :: l in input.lines && MatchTier(p.targets, l, DefaultSide).Some?))
  }

  /** Re-selects without overrun promotions until none is left over capacity. */
  function EvaluateFrom(loaded: seq<Promotion>, input: EvalInput, excluded: set<Id>): EvalResult
    decreases |Ids(loaded) - excluded|
  {
    var candidates := Without(loaded, excluded);
    var s := Select(candidates, input);
    var over := Overruns(candidates, input.lines, s);
    if over == {} then
      EvalResult(s, Targetable(loaded, input), Demands(input.lines, s), excluded)
    else
      OverrunsShrink(loaded, excluded, over);
      EvaluateFrom(loaded, input, excluded + over)
  }

  lemma OverrunsShrink(loaded: seq<Promotion>, excluded: set<Id>, over: set<Id>)
    requires over != {}
    requires forall id :: id in over ==> exists p :: p in Without(loaded, excluded) && p.id == id
    ensures |Ids(loaded) - (excluded + over)| < |Ids(loaded) - excluded|
  {
    var before, after := Ids(loaded) - excluded, Ids(loaded) - (excluded + over);
    assert after <= before;
    var id :| id in over;
    assert id in before && id !in after;
    ProperSubsetSmaller(after, before);
  }

  lemma ProperSubsetSmaller(a: set<Id>, b: set<Id>)
    requires a < b
    ensures |a| < |b|
  {
    var x :| x in b && x !in a;
    assert a <= b - {x};
    SubsetSize(a, b - {x});
  }

  lemma {:induction false} SubsetSize(a: set<Id>, b: set<Id>)
    requires a <= b
    ensures |a| <= |b|
  {
    if a != {} {
      var x :| x in a;
      SubsetSize(a - {x}, b - {x});
    }
  }

  function Evaluate(promotions: seq<Promotion>, input: EvalInput): EvalResult {
    EvaluateFrom(BotFiltered(promotions, input.botOnly), input, {})
  }
}
