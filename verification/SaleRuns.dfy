/** The sale protocol over whole runs: idempotency slots, transactions and the clients that drive them,
src/sales/sales.service.ts and src/sales/infrastructure/prisma-sale.repository.ts.

Any number of clients take steps in any order. A request without a cash session takes two steps, an autocommitted
slot acquire and a transaction, and may die in between; a session-bound request is one transaction that holds both.
*/
module SaleRuns {
  import opened Common
  import opened StockJournal
  import opened SaleStock
  import opened SaleStore
  import opened SaleInvariants
  import opened SaleLedger
  import M = Settlement

  datatype Work =
    | DoCharge(charge: ChargeRequest)
    | DoPayment(payment: PaymentRequest)
    | DoCancel(saleId: nat)
    | DoSettle(settle: SettleRequest, credit: bool)

  /** `hash` is the opaque digest of the whole request. */
  datatype Request = Request(work: Work, key: nat, hash: nat)

  function KeyOf(r: Request): Key {
    match r.work
    case DoCharge(_) => ChargeKey(r.key)
    case DoPayment(_) => PaymentKey(r.key)
    case DoCancel(saleId) => CancelKey(saleId)
    case DoSettle(s, _) => SettleKey(s.refundId, r.key)
  }

  function SessionOf(w: Work): Option<Id> {
    match w
    case DoCharge(c) => c.session
    case DoPayment(p) => p.session
    case DoCancel(_) => None
    case DoSettle(s, _) => s.session
  }

  /** Shapes the request validation lets through. */
  predicate WellFormed(w: Work) {
    match w
    case DoCharge(c) => EntriesOk(c.entries)
    case DoPayment(p) => CollectionOk(p)
    case DoCancel(_) => true
    case DoSettle(_, _) => true
  }

  /** Rejected before the acquire: a reviewer with a session, a credit settlement with a session. */
  function Rejected(w: Work): Option<Error> {
    if w.DoPayment? && w.payment.session.Some? && w.payment.reviewer then Some(SessionReviewerNotAllowed)
    else if w.DoSettle? && w.settle.session.Some? && w.credit then Some(SessionCreditNotAllowed)
    else None
  }

  function RunTx(db: Db, w: Work, pricing: Option<Pricing>, today: int): Result<(Db, Payload), Error> {
    match w
    case DoCharge(c) => ChargeTx(db, c, pricing, today)
    case DoPayment(p) => PaymentTx(db, p)
    case DoCancel(saleId) => CancelTx(db, saleId)
    case DoSettle(s, _) => SettleTx(db, s)
  }

  predicate HoldsSlot(db: Db, key: Key, token: Id) {
    key in db.slots && db.slots[key].token == token && db.slots[key].payload.None?
  }

  /** The transaction body followed by the success stamp; only a settlement insists that its token still holds the slot. */
  function Complete(db: Db, r: Request, token: Id, pricing: Option<Pricing>, today: int): Result<(Db, Payload), Error> {
    match RunTx(db, r.work, pricing, today)
    case Err(e) => Err(e)
    case Ok((after, payload)) =>
      if r.work.DoSettle? && !HoldsSlot(after, KeyOf(r), token) then Err(KeyInFlight)
      else Ok((after.(slots := Succeed(after.slots, KeyOf(r), token, payload)), payload))
  }

  function WithSlot(db: Db, r: Request, token: Id): Db {
    db.(slots := db.slots[KeyOf(r) := Slot(token, r.hash, None)])
  }

  // ----- Steps -----

  /** `lockedAt` remembers when each quote-backed sale held its quote's lock. */
  datatype World = World(db: Db, pending: map<Id, Request>, nextToken: Id, now: int, lockedAt: map<nat, int>)

  datatype Step =
    | SaveDraft(owner: Id, hasCustomer: bool, hasAddress: bool, items: seq<Item>)
    | EditDraft(saleId: nat, hasCustomer: bool, hasAddress: bool, items: seq<Item>)
    | Ship(saleId: nat)
    | Deliver(saleId: nat)
    | Begin(request: Request)
    | Finish(token: Id, pricing: Option<Pricing>, today: int)
    | Abandon(token: Id)
    | Bound(request: Request, pricing: Option<Pricing>, today: int)
    | ConfirmBot(bot: BotRequest, pricing: Option<Pricing>, today: int)
    | Reclaim(refundId: nat, key: nat)
    | AddQuote(quote: Id, expiresAt: int)
    | OpenSession(session: Id, owner: Id)
    | FreezeSession(session: Id)
    | Adjust(changes: seq<Change>)
    | Tick(elapsed: nat)

  /** Every draft is created as delivered over the counter; an address needs a customer. */
  function DraftRow(owner: Id, hasCustomer: bool, hasAddress: bool, items: seq<Item>): SaleRow {
    SaleRow(owner, hasCustomer, hasCustomer && hasAddress, false, items, Draft, Delivered, 0, 0, 0, 0, [], [], map[], None)
  }

  /** A paid online sale that has not arrived gets its carrier. */
  predicate Shippable(sale: SaleRow) {
    && sale.status == Confirmed && sale.online && sale.delivery != Delivered
    && sale.payments != [] && sale.paidCents == sale.totalCents
  }

  function WithSale(w: World, i: nat, row: SaleRow): World
    requires i < |w.db.sales|
  {
    w.(db := w.db.(sales := w.db.sales[i := row]))
  }

  function BeginWork(w: World, r: Request): World {
    if !WellFormed(r.work) || SessionOf(r.work).Some? || AcquireOutcome(w.db, KeyOf(r), r.hash) != Acquired then w
    else w.(db := WithSlot(w.db, r, w.nextToken), pending := w.pending[w.nextToken := r], nextToken := w.nextToken + 1)
  }

  function ReleasedSlots(db: Db, r: Request, token: Id): map<Key, Slot> {
    if r.work.DoSettle? && HoldsSlot(db, KeyOf(r), token) then db.slots - {KeyOf(r)} else db.slots
  }

  /** The second step of an unbound request: a failure commits nothing, and only a settlement gives its slot back. */
  function FinishWork(w: World, token: Id, pricing: Option<Pricing>, today: int): World {
    if token !in w.pending then w
    else
      var r := w.pending[token];
      match Complete(w.db, r, token, pricing, today)
      case Ok((after, _)) => w.(db := after, pending := w.pending - {token})
      case Err(_) => w.(db := w.db.(slots := ReleasedSlots(w.db, r, token)), pending := w.pending - {token})
  }

  datatype Reply = Done(payload: Payload) | Failed(error: Error)

  /** A session-bound request: one ambient transaction around acquire and work. */
  function BoundTx(w: World, r: Request, pricing: Option<Pricing>, today: int): (World, Reply) {
    if Rejected(r.work).Some? then (w, Failed(Rejected(r.work).value))
    else
      match AcquireOutcome(w.db, KeyOf(r), r.hash)
      case Replay(payload) => (w, Done(payload))
      case Conflict => (w, Failed(KeyConflict))
      case InFlight => (w, Failed(KeyInFlight))
      case Acquired =>
        match Complete(WithSlot(w.db, r, w.nextToken), r, w.nextToken, pricing, today)
        case Ok((after, payload)) => (w.(db := after, nextToken := w.nextToken + 1), Done(payload))
        case Err(e) => (w, Failed(e))
  }

  function Do(w: World, s: Step): World {
    match s
    case SaveDraft(owner, hasCustomer, hasAddress, items) =>
      w.(db := w.db.(sales := w.db.sales + [DraftRow(owner, hasCustomer, hasAddress, items)]))
    case EditDraft(i, hasCustomer, hasAddress, items) =>
      if i < |w.db.sales| && w.db.sales[i].status == Draft
      then WithSale(w, i, w.db.sales[i].(hasCustomer := hasCustomer, hasAddress := hasCustomer && hasAddress, items := items)) else w
    case Ship(i) =>
      if i < |w.db.sales| && Shippable(w.db.sales[i]) then WithSale(w, i, w.db.sales[i].(delivery := Shipped)) else w
    case Deliver(i) =>
      if i < |w.db.sales| && w.db.sales[i].status == Confirmed
      then WithSale(w, i, w.db.sales[i].(delivery := Delivered)) else w
    case Begin(r) => BeginWork(w, r)
    case Finish(token, pricing, today) => FinishWork(w, token, pricing, today)
    case Abandon(token) => w.(pending := w.pending - {token})
    case Bound(r, pricing, today) =>
      if WellFormed(r.work) && SessionOf(r.work).Some? then BoundTx(w, r, pricing, today).0 else w
    case ConfirmBot(r, pricing, today) =>
      (match ConfirmBotTx(w.db, r, pricing, w.now, today)
       case Err(_) => w
       case Ok(after) => w.(db := after, lockedAt := w.lockedAt[|w.db.sales| := w.now]))
    case Reclaim(refundId, key) =>
      var k := SettleKey(refundId, key);
      if k in w.db.slots && w.db.slots[k].payload.None? then w.(db := w.db.(slots := w.db.slots - {k})) else w
    case AddQuote(quote, expiresAt) =>
      if quote in w.db.quotes then w else w.(db := w.db.(quotes := w.db.quotes[quote := expiresAt]))
    case OpenSession(session, owner) =>
      if session in w.db.sessions then w else w.(db := w.db.(sessions := w.db.sessions[session := Session(owner, true)]))
    case FreezeSession(session) =>
      if session !in w.db.sessions then w
      else w.(db := w.db.(sessions := w.db.sessions[session := w.db.sessions[session].(open := false)]))
    case Adjust(changes) =>
      (match ApplyChanges(w.db.stock, changes)
       case Err(_) => w
       case Ok(a) => w.(db := w.db.(stock := a.stock, adjusted := w.db.adjusted + a.movements)))
    case Tick(elapsed) => w.(now := w.now + elapsed)
  }

  function Run(w: World, steps: seq<Step>): World {
    if steps == [] then w else Do(Run(w, steps[..|steps| - 1]), steps[|steps| - 1])
  }

  // ----- The invariant of the rows -----

  ghost predicate RowsInv(db: Db, stock: Stock, counters: map<Id, nat>) {
    && MoneyInv(db.sales) && StockInv(db, stock) && PromotionInv(db, counters)
    && RefundInv(db) && QuoteInv(db.sales) && OutboxInv(db) && LedgerInv(db)
  }

  lemma PaymentKeepsRows(db: Db, stock: Stock, counters: map<Id, nat>, r: PaymentRequest)
    requires RowsInv(db, stock, counters) && CollectionOk(r) && PaymentTx(db, r).Ok?
    ensures RowsInv(PaymentTx(db, r).value.0, stock, counters)
  {
    var after := PaymentTx(db, r).value.0;
    PaymentKeepsMoney(db, r);
    PaymentKeepsLedger(db, r);
    SameHoldings(db, after, stock, counters);
  }

  /** A change of rows that touches neither statuses, holdings, claims nor quotes. */
  ghost predicate SameStanding(a: SaleRow, b: SaleRow) {
    && a.status == b.status && a.consumed == b.consumed && a.claims == b.claims && a.quote == b.quote
    && (a.status == Canceled ==> a.paidCents == b.paidCents)
  }

  lemma SameHoldings(db: Db, after: Db, stock: Stock, counters: map<Id, nat>)
    requires StockInv(db, stock) && PromotionInv(db, counters) && RefundInv(db) && QuoteInv(db.sales) && OutboxInv(db)
    requires |after.sales| == |db.sales| && forall i :: 0 <= i < |db.sales| ==> SameStanding(db.sales[i], after.sales[i])
    requires after.stock == db.stock && after.adjusted == db.adjusted && after.promotions == db.promotions
    requires after.refunds == db.refunds && after.outbox == db.outbox
    ensures StockInv(after, stock) && PromotionInv(after, counters) && RefundInv(after) && QuoteInv(after.sales) && OutboxInv(after)
  {
    SameStock(db, after, stock);
    forall p | p in after.promotions
      ensures Counted(after, counters, p)
    {
      assert Counted(db, counters, p);
      assert LiveUnits(after.sales, p) == LiveUnits(db.sales, p);
    }
    forall i | 0 <= i < |after.sales|
      ensures Owed(after, i)
    {
      assert Owed(db, i) && SameStanding(db.sales[i], after.sales[i]);
    }
    forall i: nat
      ensures Announced(after, i)
    {
      assert Announced(db, i);
    }
    forall i, j | 0 <= i < j < |after.sales| && after.sales[i].quote.Some?
      ensures after.sales[i].quote != after.sales[j].quote
    {
      assert SameStanding(db.sales[i], after.sales[i]) && SameStanding(db.sales[j], after.sales[j]);
    }
  }

  lemma SameStock(db: Db, after: Db, stock: Stock)
    requires StockInv(db, stock)
    requires |after.sales| == |db.sales| && forall i :: 0 <= i < |db.sales| ==> SameStanding(db.sales[i], after.sales[i])
    requires after.stock == db.stock && after.adjusted == db.adjusted
    ensures StockInv(after, stock)
  {
    forall b
      ensures Conserved(after, stock, b)
    {
      assert Conserved(db, stock, b);
      assert Held(after.sales, b) == Held(db.sales, b);
    }
    forall i | 0 <= i < |after.sales|
      ensures Outgoing(after.stock, after.sales[i].consumed)
    {
      assert SameStanding(db.sales[i], after.sales[i]);
    }
  }

  lemma ChargeKeepsRows(db: Db, stock: Stock, counters: map<Id, nat>, r: ChargeRequest, pricing: Option<Pricing>, today: int)
    requires RowsInv(db, stock, counters) && EntriesOk(r.entries) && ChargeTx(db, r, pricing, today).Ok?
    ensures RowsInv(ChargeTx(db, r, pricing, today).value.0, stock, counters)
  {
    var after := ChargeTx(db, r, pricing, today).value.0;
    ChargeKeepsMoney(db, r, pricing, today);
    ChargeKeepsStock(db, stock, r, pricing, today);
    ChargeKeepsPromotions(db, counters, r, pricing, today);
    ChargeKeepsLedger(db, r, pricing, today);
    ChargeKeepsRest(db, r, pricing, today);
  }

  lemma ChargeKeepsRest(db: Db, r: ChargeRequest, pricing: Option<Pricing>, today: int)
    requires RefundInv(db) && QuoteInv(db.sales) && OutboxInv(db) && ChargeTx(db, r, pricing, today).Ok?
    ensures var after := ChargeTx(db, r, pricing, today).value.0;
            RefundInv(after) && QuoteInv(after.sales) && OutboxInv(after)
  {
    var after := ChargeTx(db, r, pricing, today).value.0;
    forall i | 0 <= i < |after.sales|
      ensures Owed(after, i) && after.sales[i].quote == db.sales[i].quote
    {
      assert Owed(db, i);
    }
    AnnouncedNext(db, after, SaleConfirmed(r.saleId), r.saleId);
  }

  lemma CancelKeepsRows(db: Db, stock: Stock, counters: map<Id, nat>, saleId: nat)
    requires RowsInv(db, stock, counters) && CancelTx(db, saleId).Ok?
    ensures RowsInv(CancelTx(db, saleId).value.0, stock, counters)
  {
    var after := CancelTx(db, saleId).value.0;
    CancelKeepsMoney(db, saleId);
    CancelKeepsStock(db, stock, saleId);
    CancelKeepsPromotions(db, counters, saleId);
    CancelKeepsLedger(db, saleId);
    CancelKeepsRefunds(db, saleId);
    CancelKeepsRest(db, saleId);
  }

  lemma CancelKeepsRest(db: Db, saleId: nat)
    requires QuoteInv(db.sales) && OutboxInv(db) && CancelTx(db, saleId).Ok?
    ensures QuoteInv(CancelTx(db, saleId).value.0.sales) && OutboxInv(CancelTx(db, saleId).value.0)
  {
    var after := CancelTx(db, saleId).value.0;
    if db.sales[saleId].status == Confirmed {
      forall i | 0 <= i < |after.sales|
        ensures after.sales[i].quote == db.sales[i].quote
      {
      }
      AnnouncedNext(db, after, SaleCanceled(saleId), saleId);
    }
  }

  lemma SettleKeepsRows(db: Db, stock: Stock, counters: map<Id, nat>, r: SettleRequest)
    requires RowsInv(db, stock, counters) && SettleTx(db, r).Ok?
    ensures RowsInv(SettleTx(db, r).value.0, stock, counters)
  {
    var after := SettleTx(db, r).value.0;
    SettleKeepsRefunds(db, r);
    SettleKeepsLedger(db, r);
    assert after.sales == db.sales;
    SameSales(db, after, stock, counters);
  }

  lemma SameSales(db: Db, after: Db, stock: Stock, counters: map<Id, nat>)
    requires StockInv(db, stock) && PromotionInv(db, counters) && OutboxInv(db)
    requires after.sales == db.sales && after.stock == db.stock && after.adjusted == db.adjusted
    requires after.promotions == db.promotions && after.outbox == db.outbox
    ensures StockInv(after, stock) && PromotionInv(after, counters) && OutboxInv(after)
  {
    forall b
      ensures Conserved(after, stock, b)
    {
      assert Conserved(db, stock, b);
    }
    forall p | p in after.promotions
      ensures Counted(after, counters, p)
    {
      assert Counted(db, counters, p);
    }
    forall i: nat
      ensures Announced(after, i)
    {
      assert Announced(db, i);
    }
  }

  /** Slots, quotes and sessions that keep their owners are no part of what the rows owe each other. */
  lemma SlotsAside(db: Db, after: Db, stock: Stock, counters: map<Id, nat>)
    requires RowsInv(db, stock, counters)
    requires after == db.(slots := after.slots, sessions := after.sessions, quotes := after.quotes)
    requires forall x :: x in db.sessions ==> x in after.sessions && after.sessions[x].owner == db.sessions[x].owner
    ensures RowsInv(after, stock, counters)
  {
    SameSales(db, after, stock, counters);
    SameRefunds(db, after);
    forall k | 0 <= k < |after.ledger|
      ensures OwnedRow(after, after.ledger[k]) && Issued(after, after.ledger[k].source)
    {
      assert OwnedRow(db, db.ledger[k]) && Issued(db, db.ledger[k].source);
    }
  }

  lemma SameRefunds(db: Db, after: Db)
    requires RefundInv(db) && after.sales == db.sales && after.refunds == db.refunds
    ensures RefundInv(after)
  {
    forall i | 0 <= i < |after.sales|
      ensures Owed(after, i)
    {
      assert Owed(db, i);
    }
  }

  lemma NewSaleKeepsRest(db: Db, after: Db, row: SaleRow)
    requires RefundInv(db) && QuoteInv(db.sales) && OutboxInv(db)
    requires after.sales == db.sales + [row] && after.refunds == db.refunds && row.status != Canceled
    requires row.quote.Some? ==> forall i :: 0 <= i < |db.sales| ==> db.sales[i].quote != row.quote
    requires after.outbox == if row.status == Confirmed then db.outbox + [SaleConfirmed(|db.sales|)] else db.outbox
    ensures RefundInv(after) && QuoteInv(after.sales) && OutboxInv(after)
  {
    forall i | 0 <= i < |after.sales|
      ensures Owed(after, i)
    {
      if i < |db.sales| {
        assert Owed(db, i);
      } else {
        SumZero(OwedFor(db.refunds, i));
      }
    }
    if row.status == Confirmed {
      AnnouncedNext(db, after, SaleConfirmed(|db.sales|), |db.sales|);
    } else {
      forall i: nat
        ensures Announced(after, i)
      {
        assert Announced(db, i);
      }
    }
  }

  lemma ConfirmBotKeepsRows(db: Db, stock: Stock, counters: map<Id, nat>, r: BotRequest, pricing: Option<Pricing>, now: int, today: int)
    requires RowsInv(db, stock, counters) && ConfirmBotTx(db, r, pricing, now, today).Ok?
    ensures RowsInv(ConfirmBotTx(db, r, pricing, now, today).value, stock, counters)
  {
    var after := ConfirmBotTx(db, r, pricing, now, today).value;
    ConfirmBotKeepsStock(db, stock, r, pricing, now, today);
    ConfirmBotKeepsPromotions(db, counters, r, pricing, now, today);
    ConfirmBotKeepsLedger(db, r, pricing, now, today);
    NewSaleKeepsRest(db, after, after.sales[|db.sales|]);
    assert M.Values([]) == [];
  }

  lemma DraftKeepsRows(db: Db, stock: Stock, counters: map<Id, nat>, row: SaleRow)
    requires RowsInv(db, stock, counters)
    requires row == DraftRow(row.owner, row.hasCustomer, row.hasAddress, row.items)
    ensures RowsInv(db.(sales := db.sales + [row]), stock, counters)
  {
    var after := db.(sales := db.sales + [row]);
    NewSaleKeepsRest(db, after, row);
    UnbookedKeepsLedger(db, after);
    forall b
      ensures Conserved(after, stock, b)
    {
      assert Conserved(db, stock, b);
      HeldAppended(db.sales, row, b);
    }
    forall p | p in after.promotions
      ensures Counted(after, counters, p)
    {
      assert Counted(db, counters, p);
      UnitsAppended(db.sales, row, p);
    }
  }

  lemma EditKeepsRows(db: Db, stock: Stock, counters: map<Id, nat>, i: nat, row: SaleRow)
    requires RowsInv(db, stock, counters) && i < |db.sales|
    requires row == db.sales[i].(hasCustomer := row.hasCustomer, hasAddress := row.hasAddress, items := row.items, delivery := row.delivery)
    ensures RowsInv(db.(sales := db.sales[i := row]), stock, counters)
  {
    var after := db.(sales := db.sales[i := row]);
    SameHoldings(db, after, stock, counters);
    UnbookedKeepsLedger(db, after);
  }

  lemma AdjustKeepsRows(db: Db, stock: Stock, counters: map<Id, nat>, changes: seq<Change>)
    requires RowsInv(db, stock, counters) && ApplyChanges(db.stock, changes).Ok?
    ensures var a := ApplyChanges(db.stock, changes).value;
            RowsInv(db.(stock := a.stock, adjusted := db.adjusted + a.movements), stock, counters)
  {
    var a := ApplyChanges(db.stock, changes).value;
    var after := db.(stock := a.stock, adjusted := db.adjusted + a.movements);
    ApplyChangesPosted(db.stock, changes);
    OutgoingKept(db, a.stock);
    SameShapesTrans(stock, db.stock, a.stock);
    forall b
      ensures Conserved(after, stock, b)
    {
      assert Conserved(db, stock, b) && MovesAt(db.stock, a.stock, a.movements, b);
      SumOnAppend(db.adjusted, a.movements, b);
    }
    AdjustKeepsRest(db, after, counters);
  }

  lemma AdjustKeepsRest(db: Db, after: Db, counters: map<Id, nat>)
    requires PromotionInv(db, counters) && RefundInv(db) && OutboxInv(db) && LedgerInv(db)
    requires after == db.(stock := after.stock, adjusted := after.adjusted)
    ensures PromotionInv(after, counters) && RefundInv(after) && OutboxInv(after) && LedgerInv(after)
  {
    UnbookedKeepsLedger(db, after);
    SameRefunds(db, after);
    forall p | p in after.promotions
      ensures Counted(after, counters, p)
    {
      assert Counted(db, counters, p);
    }
    forall i: nat
      ensures Announced(after, i)
    {
      assert Announced(db, i);
    }
  }

  lemma TxKeepsRows(db: Db, stock: Stock, counters: map<Id, nat>, w: Work, pricing: Option<Pricing>, today: int)
    requires RowsInv(db, stock, counters) && WellFormed(w) && RunTx(db, w, pricing, today).Ok?
    ensures RowsInv(RunTx(db, w, pricing, today).value.0, stock, counters)
  {
    match w
    case DoCharge(c) => ChargeKeepsRows(db, stock, counters, c, pricing, today);
    case DoPayment(p) => PaymentKeepsRows(db, stock, counters, p);
    case DoCancel(saleId) => CancelKeepsRows(db, stock, counters, saleId);
    case DoSettle(s, _) => SettleKeepsRows(db, stock, counters, s);
  }

  lemma CompleteKeepsRows(db: Db, stock: Stock, counters: map<Id, nat>, r: Request, token: Id, pricing: Option<Pricing>, today: int)
    requires RowsInv(db, stock, counters) && WellFormed(r.work) && Complete(db, r, token, pricing, today).Ok?
    ensures RowsInv(Complete(db, r, token, pricing, today).value.0, stock, counters)
  {
    TxKeepsRows(db, stock, counters, r.work, pricing, today);
    SlotsAside(RunTx(db, r.work, pricing, today).value.0, Complete(db, r, token, pricing, today).value.0, stock, counters);
  }

  // ----- Safety over whole runs -----

  ghost predicate PendingInv(w: World) {
    forall t :: t in w.pending ==> WellFormed(w.pending[t].work)
  }

  /** Each quote-backed sale held its quote's lock before the quote expired. */
  ghost predicate LocksInv(w: World) {
    forall i :: 0 <= i < |w.db.sales| && w.db.sales[i].quote.Some? ==>
                  && i in w.lockedAt && w.db.sales[i].quote.value in w.db.quotes
                  && w.lockedAt[i] < w.db.quotes[w.db.sales[i].quote.value]
  }

  ghost predicate Inv(w: World, stock: Stock, counters: map<Id, nat>) {
    RowsInv(w.db, stock, counters) && PendingInv(w) && LocksInv(w)
  }

  lemma TxKeepsQuotes(db: Db, w: Work, pricing: Option<Pricing>, today: int)
    requires RunTx(db, w, pricing, today).Ok?
    ensures var after := RunTx(db, w, pricing, today).value.0;
            && after.quotes == db.quotes && after.slots == db.slots && after.sessions == db.sessions
            && |after.sales| == |db.sales| && forall i :: 0 <= i < |db.sales| ==> after.sales[i].quote == db.sales[i].quote
  {
  }

  lemma FinishKeepsInv(w: World, stock: Stock, counters: map<Id, nat>, token: Id, pricing: Option<Pricing>, today: int)
    requires Inv(w, stock, counters)
    ensures Inv(FinishWork(w, token, pricing, today), stock, counters)
  {
    if token in w.pending {
      var r := w.pending[token];
      if Complete(w.db, r, token, pricing, today).Ok? {
        CompleteKeepsRows(w.db, stock, counters, r, token, pricing, today);
        TxKeepsQuotes(w.db, r.work, pricing, today);
      } else {
        SlotsAside(w.db, FinishWork(w, token, pricing, today).db, stock, counters);
      }
    }
  }

  lemma BoundKeepsInv(w: World, stock: Stock, counters: map<Id, nat>, r: Request, pricing: Option<Pricing>, today: int)
    requires Inv(w, stock, counters) && WellFormed(r.work)
    ensures Inv(BoundTx(w, r, pricing, today).0, stock, counters)
  {
    var held := WithSlot(w.db, r, w.nextToken);
    SlotsAside(w.db, held, stock, counters);
    if Complete(held, r, w.nextToken, pricing, today).Ok? {
      CompleteKeepsRows(held, stock, counters, r, w.nextToken, pricing, today);
      TxKeepsQuotes(held, r.work, pricing, today);
    }
  }

  /** The quote a bot sale is confirmed on existed, was unexpired when its lock was held and backed no sale before. */
  lemma ConfirmedQuote(db: Db, r: BotRequest, pricing: Option<Pricing>, now: int, today: int)
    requires ConfirmBotTx(db, r, pricing, now, today).Ok?
    ensures var after := ConfirmBotTx(db, r, pricing, now, today).value;
            && |after.sales| == |db.sales| + 1 && after.sales[..|db.sales|] == db.sales
            && after.sales[|db.sales|].quote == r.quote && after.quotes == db.quotes
            && (r.quote.Some? ==>
                  && r.quote.value in db.quotes && now < db.quotes[r.quote.value]
                  && forall i :: 0 <= i < |db.sales| ==> db.sales[i].quote != r.quote)
  {
  }

  lemma LockedAfter(w: World, after: Db, quote: Option<Id>)
    requires LocksInv(w) && |after.sales| == |w.db.sales| + 1 && after.sales[..|w.db.sales|] == w.db.sales
    requires after.quotes == w.db.quotes && after.sales[|w.db.sales|].quote == quote
    requires quote.Some? ==> quote.value in w.db.quotes && w.now < w.db.quotes[quote.value]
    ensures LocksInv(w.(db := after, lockedAt := w.lockedAt[|w.db.sales| := w.now]))
  {
    assert forall i :: 0 <= i < |w.db.sales| ==> after.sales[i] == after.sales[..|w.db.sales|][i];
  }

  lemma ConfirmBotKeepsInv(w: World, stock: Stock, counters: map<Id, nat>, r: BotRequest, pricing: Option<Pricing>, today: int)
    requires Inv(w, stock, counters)
    ensures Inv(Do(w, ConfirmBot(r, pricing, today)), stock, counters)
  {
    if ConfirmBotTx(w.db, r, pricing, w.now, today).Ok? {
      ConfirmBotKeepsRows(w.db, stock, counters, r, pricing, w.now, today);
      ConfirmedQuote(w.db, r, pricing, w.now, today);
      LockedAfter(w, ConfirmBotTx(w.db, r, pricing, w.now, today).value, r.quote);
    }
  }

  lemma AdjustKeepsInv(w: World, stock: Stock, counters: map<Id, nat>, s: Step)
    requires Inv(w, stock, counters) && s.Adjust?
    ensures Inv(Do(w, s), stock, counters)
  {
    if ApplyChanges(w.db.stock, s.changes).Ok? {
      AdjustKeepsRows(w.db, stock, counters, s.changes);
    }
  }

  lemma EditKeepsInv(w: World, stock: Stock, counters: map<Id, nat>, i: nat, row: SaleRow)
    requires Inv(w, stock, counters) && i < |w.db.sales|
    requires row == w.db.sales[i].(hasCustomer := row.hasCustomer, hasAddress := row.hasAddress, items := row.items, delivery := row.delivery)
    ensures Inv(WithSale(w, i, row), stock, counters)
  {
    EditKeepsRows(w.db, stock, counters, i, row);
  }

  lemma DraftStepKeepsInv(w: World, stock: Stock, counters: map<Id, nat>, s: Step)
    requires Inv(w, stock, counters) && (s.SaveDraft? || s.EditDraft? || s.Ship? || s.Deliver?)
    ensures Inv(Do(w, s), stock, counters)
  {
    var after := Do(w, s);
    if s.SaveDraft? {
      DraftKeepsRows(w.db, stock, counters, DraftRow(s.owner, s.hasCustomer, s.hasAddress, s.items));
    } else if after != w {
      EditKeepsInv(w, stock, counters, s.saleId, after.db.sales[s.saleId]);
    }
  }

  /** Steps that leave every row of money and stock alone. */
  ghost predicate Aside(w: World, after: World) {
    && PendingInv(after) && after.lockedAt == w.lockedAt
    && after.db == w.db.(slots := after.db.slots, sessions := after.db.sessions, quotes := after.db.quotes)
    && (forall q :: q in w.db.quotes ==> q in after.db.quotes && after.db.quotes[q] == w.db.quotes[q])
    && forall x :: x in w.db.sessions ==> x in after.db.sessions && after.db.sessions[x].owner == w.db.sessions[x].owner
  }

  predicate IsAside(s: Step) {
    s.Begin? || s.Abandon? || s.Reclaim? || s.AddQuote? || s.OpenSession? || s.FreezeSession? || s.Tick?
  }

  lemma StepsAside(w: World, s: Step)
    requires PendingInv(w) && IsAside(s)
    ensures Aside(w, Do(w, s))
  {
  }

  lemma AsideKeepsInv(w: World, stock: Stock, counters: map<Id, nat>, after: World)
    requires Inv(w, stock, counters) && Aside(w, after)
    ensures Inv(after, stock, counters)
  {
    SlotsAside(w.db, after.db, stock, counters);
  }

  lemma StepKeepsInv(w: World, stock: Stock, counters: map<Id, nat>, s: Step)
    requires Inv(w, stock, counters)
    ensures Inv(Do(w, s), stock, counters)
  {
    if s.SaveDraft? || s.EditDraft? || s.Ship? || s.Deliver? {
      DraftStepKeepsInv(w, stock, counters, s);
    } else if s.ConfirmBot? {
      ConfirmBotKeepsInv(w, stock, counters, s.bot, s.pricing, s.today);
    } else if s.Adjust? {
      AdjustKeepsInv(w, stock, counters, s);
    } else if s.Finish? {
      FinishKeepsInv(w, stock, counters, s.token, s.pricing, s.today);
    } else if s.Bound? {
      if WellFormed(s.request.work) {
        BoundKeepsInv(w, stock, counters, s.request, s.pricing, s.today);
      }
    } else {
      StepsAside(w, s);
      AsideKeepsInv(w, stock, counters, Do(w, s));
    }
  }

  /** In every run: stock on hand plus what live confirmed sales hold is constant up to journaled adjustments,
      promotion counters equal the live claims, no sale is confirmed or canceled twice, every sale's money adds up,
      refunds owe exactly what was paid, no quote backs two sales, and every cash record has its owner and its money. */
  lemma {:induction false} RunKeepsInv(w: World, stock: Stock, counters: map<Id, nat>, steps: seq<Step>)
    requires Inv(w, stock, counters)
    ensures Inv(Run(w, steps), stock, counters)
  {
    if steps != [] {
      RunKeepsInv(w, stock, counters, steps[..|steps| - 1]);
      StepKeepsInv(Run(w, steps[..|steps| - 1]), stock, counters, steps[|steps| - 1]);
    }
  }

  /** A tenant that has sold nothing yet. */
  function Fresh(stock: Stock, promotions: map<Id, Counter>): World {
    World(Db([], [], map[], stock, [], promotions, map[], [], map[], []), map[], 0, 0, map[])
  }

  lemma FreshInv(stock: Stock, promotions: map<Id, Counter>)
    requires ValidStock(stock) && forall p :: p in promotions ==> Fits(promotions[p], 0)
    ensures Inv(Fresh(stock, promotions), stock, map p | p in promotions :: promotions[p].consumed)
  {
    var db := Fresh(stock, promotions).db;
    var counters := map p | p in promotions :: promotions[p].consumed;
    forall b
      ensures Conserved(db, stock, b)
    {
    }
    forall p | p in promotions
      ensures Counted(db, counters, p)
    {
    }
    forall i: nat
      ensures Announced(db, i)
    {
    }
  }
}
