/** Row and table locks held to the end of a transaction: src/products/products.service.ts,
src/price-lists/price-lists.service.ts, src/sales/sales.service.ts, src/sales/infrastructure/prisma-sale.repository.ts,
the stock journal's lock order (src/inventory/infrastructure/stock-journal.writer.ts) and the guarded counter updates of
src/promotions/infrastructure/prisma-promotion-usage.repository.ts.

An inserted row takes a key share on every row it references, so a transaction may share a row long before it locks it.
*/
module Locks {
  import opened Common

  /** PostgreSQL's row lock modes; a table locked SHARE or SHARE ROW EXCLUSIVE is `Share` or `Update` here. */
  datatype Mode = KeyShare | Share | NoKeyUpdate | Update

  datatype Resource =
    | LifecycleGate
    | TenantRow
    | SlotRow(id: Id)
    | SessionRow(id: Id)
    | RefundRow(id: Id)
    | SaleRow(id: Id)
    | CustomerRow(id: Id)
    | QuoteRow(id: Id)
    | ProductRow(id: Id)
    | LotRow(id: Id)
    | VariantRow(id: Id)
    | PromotionRow(id: Id)
    | FolioRow

  datatype Lock = Lock(resource: Resource, mode: Mode)

  /** A key share stands in the way of an update that could change the key, and of nothing weaker. */
  predicate Clash(a: Mode, b: Mode) {
    match a
    case KeyShare => b == Update
    case Share => b == NoKeyUpdate || b == Update
    case NoKeyUpdate => b != KeyShare
    case Update => true
  }

  predicate Conflict(a: Lock, b: Lock) {
    a.resource == b.resource && Clash(a.mode, b.mode)
  }

  lemma ConflictSymmetric(a: Lock, b: Lock)
    ensures Conflict(a, b) <==> Conflict(b, a)
  {
  }

  // ----- The lock manager -----

  /** A transaction: the locks it takes in order, how many it holds, and whether it has committed. */
  datatype Txn = Txn(program: seq<Lock>, held: nat, committed: bool)

  predicate Waiting(t: Txn) {
    !t.committed && t.held < |t.program|
  }

  /** Some lock among the first `held` of `program` conflicts with `l`. */
  predicate Meets(program: seq<Lock>, held: nat, l: Lock) {
    exists u :: 0 <= u < held && u < |program| && Conflict(program[u], l)
  }

  predicate Blocks(t: Txn, l: Lock) {
    !t.committed && Meets(t.program, t.held, l)
  }

  predicate Grantable(ts: seq<Txn>, i: nat)
    requires i < |ts| && Waiting(ts[i])
  {
    forall j :: 0 <= j < |ts| && j != i ==> !Blocks(ts[j], ts[i].program[ts[i].held])
  }

  /** A transaction takes its next lock when nobody else holds a conflicting one, or commits and releases all of them. */
  predicate CanStep(ts: seq<Txn>, i: nat)
    requires i < |ts|
  {
    !ts[i].committed && (Waiting(ts[i]) ==> Grantable(ts, i))
  }

  function Step(ts: seq<Txn>, i: nat): seq<Txn>
    requires i < |ts| && CanStep(ts, i)
  {
    if Waiting(ts[i]) then ts[i := ts[i].(held := ts[i].held + 1)] else ts[i := ts[i].(committed := true)]
  }

  /** `last` is reached from `ts` by letting the named transactions step, in that order. */
  ghost predicate Follows(ts: seq<Txn>, schedule: seq<nat>, last: seq<Txn>)
    decreases |schedule|
  {
    if schedule == [] then last == ts
    else schedule[0] < |ts| && CanStep(ts, schedule[0]) && Follows(Step(ts, schedule[0]), schedule[1..], last)
  }

  predicate AllCommitted(ts: seq<Txn>) {
    forall i :: 0 <= i < |ts| ==> ts[i].committed
  }

  predicate NoneCanStep(ts: seq<Txn>) {
    forall i :: 0 <= i < |ts| ==> !CanStep(ts, i)
  }

  ghost predicate Stuck(ts: seq<Txn>) {
    !AllCommitted(ts) && NoneCanStep(ts)
  }

  function Started(programs: seq<seq<Lock>>): (ts: seq<Txn>)
    ensures |ts| == |programs| && forall i :: 0 <= i < |ts| ==> ts[i] == Txn(programs[i], 0, false)
  {
    seq(|programs|, i requires 0 <= i < |programs| => Txn(programs[i], 0, false))
  }

  ghost predicate CanGetStuck(programs: seq<seq<Lock>>) {
    exists schedule, last :: Follows(Started(programs), schedule, last) && Stuck(last)
  }

  // ----- Progress -----

  /** Steps left until everybody has committed. */
  function Remaining(t: Txn): nat {
    if t.committed then 0 else 1 + if t.held < |t.program| then |t.program| - t.held else 0
  }

  function Work(ts: seq<Txn>): (r: seq<int>)
    ensures |r| == |ts| && forall i :: 0 <= i < |r| ==> r[i] == Remaining(ts[i])
  {
    seq(|ts|, i requires 0 <= i < |ts| => Remaining(ts[i]))
  }

  /** Every step is one step closer to the end, for any transactions whatever. */
  lemma StepDecreases(ts: seq<Txn>, i: nat)
    requires i < |ts| && CanStep(ts, i)
    ensures Sum(Work(Step(ts, i))) == Sum(Work(ts)) - 1 && 0 <= Sum(Work(Step(ts, i)))
  {
    var after := Step(ts, i);
    assert Work(after) == Work(ts)[i := Remaining(after[i])];
    SumUpdate(Work(ts), i, Remaining(after[i]));
    SumNonNegative(Work(after));
  }

  /** Any schedule is as long as the work it does; none can be longer than the work there is. */
  lemma {:induction false} ScheduleIsWork(ts: seq<Txn>, schedule: seq<nat>, last: seq<Txn>)
    requires Follows(ts, schedule, last)
    ensures |schedule| == Sum(Work(ts)) - Sum(Work(last)) && 0 <= Sum(Work(last))
    decreases |schedule|
  {
    if schedule == [] {
      SumNonNegative(Work(ts));
    } else {
      StepDecreases(ts, schedule[0]);
      ScheduleIsWork(Step(ts, schedule[0]), schedule[1..], last);
    }
  }

  /** A schedule that cannot go on and is not stuck has committed everybody, in exactly the work there was. */
  lemma FinishedIsWork(ts: seq<Txn>, schedule: seq<nat>, last: seq<Txn>)
    requires Follows(ts, schedule, last) && AllCommitted(last)
    ensures |schedule| == Sum(Work(ts))
  {
    ScheduleIsWork(ts, schedule, last);
    SumZero(Work(last));
  }

  // ----- The operations -----

  /** The order in which a bot sale's lines are inserted is the order of the cart. */
  datatype Line = Line(product: Id, variant: Option<Id>)

  /** A request bound to a cash session inserts its slot inside the transaction. */
  datatype Binding = Binding(key: Id, session: Id)

  /** `products` are those the stock journal locks, in id order, with all their `lots` and `variants`; `promotions` those a
      charge or confirmation claims and a cancellation gives back. A new price list refers to all products and variants in
      whatever order they are read. */
  datatype Operation =
    | UpdateProduct(product: Id)
    | WriteVariant(product: Id, lots: seq<Id>, variants: seq<Id>)
    | WriteLot(product: Id, lots: seq<Id>, variants: seq<Id>)
    | CreatePriceList(products: seq<Id>, variants: seq<Id>)
    | RemovePriceList
    | TakeSlot(key: Id, sale: Id)
    | SettleRefund(bound: Option<Binding>, refund: Id, sale: Id)
    | Collect(bound: Option<Binding>, sale: Id)
    | Charge(bound: Option<Binding>, sale: Id, promotions: seq<Id>, products: seq<Id>, lots: seq<Id>, variants: seq<Id>)
    | ConfirmBot(customer: Id, quote: Option<Id>, cart: seq<Line>, promotions: seq<Id>, products: seq<Id>, lots: seq<Id>,
                 variants: seq<Id>)
    | Cancel(sale: Id, promotions: seq<Id>, products: seq<Id>, lots: seq<Id>, variants: seq<Id>)

  function LockAll(ids: seq<Id>, resource: Id -> Resource, mode: Mode): (r: seq<Lock>)
    ensures |r| == |ids| && forall i :: 0 <= i < |r| ==> r[i] == Lock(resource(ids[i]), mode)
  {
    seq(|ids|, i requires 0 <= i < |ids| => Lock(resource(ids[i]), mode))
  }

  function Products(ids: seq<Id>, mode: Mode): (r: seq<Lock>)
    ensures |r| == |ids| && forall i :: 0 <= i < |r| ==> r[i] == Lock(ProductRow(ids[i]), mode)
  {
    LockAll(ids, (id: Id) => ProductRow(id), mode)
  }

  function Lots(ids: seq<Id>): (r: seq<Lock>)
    ensures |r| == |ids| && forall i :: 0 <= i < |r| ==> r[i] == Lock(LotRow(ids[i]), Update)
  {
    LockAll(ids, (id: Id) => LotRow(id), Update)
  }

  function Variants(ids: seq<Id>, mode: Mode): (r: seq<Lock>)
    ensures |r| == |ids| && forall i :: 0 <= i < |r| ==> r[i] == Lock(VariantRow(ids[i]), mode)
  {
    LockAll(ids, (id: Id) => VariantRow(id), mode)
  }

  /** The stock journal: products, then their lots, then their variants, each in id order. */
  function Journal(products: seq<Id>, lots: seq<Id>, variants: seq<Id>): seq<Lock> {
    Products(products, Update) + Lots(lots) + Variants(variants, Update)
  }

  /** A counter update does not touch the key. */
  function Counters(promotions: seq<Id>): (r: seq<Lock>)
    ensures |r| == |promotions| && forall i :: 0 <= i < |r| ==> r[i] == Lock(PromotionRow(promotions[i]), NoKeyUpdate)
  {
    LockAll(promotions, (id: Id) => PromotionRow(id), NoKeyUpdate)
  }

  function LineRefs(line: Line): seq<Lock> {
    [Lock(ProductRow(line.product), KeyShare)]
    + if line.variant.Some? then [Lock(VariantRow(line.variant.value), KeyShare)] else []
  }

  /** The key shares of inserted sale lines. */
  function Refs(cart: seq<Line>): seq<Lock> {
    if cart == [] then [] else Refs(cart[..|cart| - 1]) + LineRefs(cart[|cart| - 1])
  }

  /** The slot's row names the sale, so inserting it shares the sale before the session and the sale are locked. */
  function Binds(bound: Option<Binding>, sale: Option<Id>): seq<Lock> {
    if bound.None? then []
    else
      [Lock(SlotRow(bound.value.key), Update)]
      + (if sale.Some? then [Lock(SaleRow(sale.value), KeyShare)] else [])
      + [Lock(SessionRow(bound.value.session), Update)]
  }

  function SaleFront(bound: Option<Binding>, sale: Id): seq<Lock> {
    Binds(bound, Some(sale)) + [Lock(SaleRow(sale), Update)]
  }

  /** A bot sale locks its customer and its quote when it has a quote, and else shares the customer its row names. */
  function BotFront(customer: Id, quote: Option<Id>): seq<Lock> {
    if quote.Some? then [Lock(CustomerRow(customer), Update), Lock(QuoteRow(quote.value), Update)]
    else [Lock(CustomerRow(customer), KeyShare)]
  }

  /** What a charge or a confirmation locks last: counters, stock rows, then the folio counter. */
  function Selling(promotions: seq<Id>, products: seq<Id>, lots: seq<Id>, variants: seq<Id>): seq<Lock> {
    Counters(promotions) + (Journal(products, lots, variants) + [Lock(FolioRow, NoKeyUpdate)])
  }

  /** The row locks of each operation, counter updates and references included, in the order it takes them. References to
      rows nobody here locks for update (tenant, user, address, price list, promotion) are left out. */
  function Program(o: Operation): seq<Lock> {
    match o
    case UpdateProduct(p) => [Lock(LifecycleGate, Share), Lock(TenantRow, Share), Lock(ProductRow(p), Update)]
    case WriteVariant(p, lots, variants) => [Lock(LifecycleGate, Share)] + Journal([p], lots, variants)
    case WriteLot(p, lots, variants) => Journal([p], lots, variants)
    case CreatePriceList(products, variants) =>
      [Lock(LifecycleGate, Update)] + (Products(products, KeyShare) + Variants(variants, KeyShare))
    case RemovePriceList => [Lock(LifecycleGate, Update)]
    case TakeSlot(key, sale) => [Lock(SlotRow(key), Update), Lock(SaleRow(sale), KeyShare)]
    case SettleRefund(bound, refund, sale) =>
      Binds(bound, None) + [Lock(RefundRow(refund), Update), Lock(SaleRow(sale), KeyShare)]
    case Collect(bound, sale) => SaleFront(bound, sale)
    case Charge(bound, sale, promotions, products, lots, variants) =>
      SaleFront(bound, sale) + Selling(promotions, products, lots, variants)
    case ConfirmBot(customer, quote, cart, promotions, products, lots, variants) =>
      (BotFront(customer, quote) + Refs(cart)) + Selling(promotions, products, lots, variants)
    case Cancel(sale, promotions, products, lots, variants) =>
      [Lock(SaleRow(sale), Update)] + (Journal(products, lots, variants) + Counters(promotions))
  }

  function Programs(ops: seq<Operation>): (r: seq<seq<Lock>>)
    ensures |r| == |ops| && forall i :: 0 <= i < |r| ==> r[i] == Program(ops[i])
  {
    seq(|ops|, i requires 0 <= i < |ops| => Program(ops[i]))
  }

  predicate Ascending(ids: seq<Id>) {
    forall i, j :: 0 <= i < j < |ids| ==> ids[i] < ids[j]
  }

  predicate SortedIds(o: Operation) {
    match o
    case WriteVariant(_, lots, variants) => Ascending(lots) && Ascending(variants)
    case WriteLot(_, lots, variants) => Ascending(lots) && Ascending(variants)
    case Charge(_, _, promotions, products, lots, variants) =>
      Ascending(promotions) && Ascending(products) && Ascending(lots) && Ascending(variants)
    case ConfirmBot(_, _, _, promotions, products, lots, variants) =>
      Ascending(promotions) && Ascending(products) && Ascending(lots) && Ascending(variants)
    case Cancel(_, promotions, products, lots, variants) =>
      Ascending(promotions) && Ascending(products) && Ascending(lots) && Ascending(variants)
    case _ => true
  }
}
