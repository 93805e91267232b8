/** The stored rows a sale touches, and the transactions over them: src/sales/sales.service.ts with
src/sales/infrastructure/prisma-sale.repository.ts, src/promotions/infrastructure/prisma-promotion-usage.repository.ts
and src/cash-register/infrastructure/cash-adapter-ledger.ts.

A database transaction is one function from rows to rows: it commits its result or, on an error, nothing.
Sales and refunds are identified by their position in their tables.
*/
module SaleStore {
  import opened Common
  import opened StockJournal
  import opened SaleStock
  import M = Settlement

  datatype Status = Draft | Confirmed | Canceled
  /** The schema's NOT_APPLICABLE is written by nothing. */
  datatype Delivery = Pending | Shipped | Delivered

  datatype SaleRow = SaleRow(
    owner: Id,
    hasCustomer: bool,
    hasAddress: bool,
    online: bool,
    items: seq<Item>,
    status: Status,
    delivery: Delivery,
    totalCents: int,
    paidCents: int,
    debtCents: int,
    changeCents: int,
    payments: seq<M.Payment>,
    consumed: seq<Movement>,
    claims: map<Id, Positive>,
    quote: Option<Id>
  )

  /** `payload` is absent while the request that acquired the slot is in flight. */
  datatype Slot = Slot(token: Id, hash: nat, payload: Option<Payload>)

  datatype Key =
    | ChargeKey(key: nat)
    | PaymentKey(key: nat)
    | CancelKey(saleId: nat)
    | SettleKey(refundId: nat, key: nat)

  datatype Payload =
    | Charged(saleId: nat, charge: M.Charge)
    | Collected(saleId: nat, paidCents: int, debtCents: int)
    | CanceledSale(saleId: nat, refundedCents: int)
    | Settled(refundId: nat, settledCents: int, outstandingCents: int)

  datatype Counter = Counter(consumed: nat, max: Option<nat>)

  datatype Session = Session(owner: Id, open: bool)

  datatype Source = PaymentOf(saleId: nat, index: nat) | ChangeOf(saleId: nat) | SettlementOf(refundId: nat, index: nat)

  datatype LedgerRow = LedgerRow(session: Id, actor: Id, source: Source, deltaCents: int)

  datatype RefundRow = RefundRow(saleId: nat, amountCents: int, settlements: seq<int>)

  datatype Event = SaleConfirmed(saleId: nat) | SaleCanceled(saleId: nat)

  datatype Db = Db(
    sales: seq<SaleRow>,
    refunds: seq<RefundRow>,
    slots: map<Key, Slot>,
    stock: Stock,
    adjusted: seq<Movement>,
    promotions: map<Id, Counter>,
    sessions: map<Id, Session>,
    ledger: seq<LedgerRow>,
    quotes: map<Id, int>,
    outbox: seq<Event>
  )

  datatype Error =
    | SessionNotWritable
    | SessionReviewerNotAllowed
    | SessionCreditNotAllowed
    | SaleNotFound
    | SaleAlreadyConfirmed
    | SaleNotConfirmed
    | SaleNotCancellable
    | SaleDeliveredCannotCancel
    | ShippingAddressRequired
    | RepricingRefused
    | ChargeRefused(charge: M.ChargeError)
    | PromotionCapacityExceeded
    | PromotionCounterMismatch
    | StockRefused(stock: StockError)
    | NoOutstandingDebt
    | PaymentExceedsDebt
    | RefundAuditMismatch
    | InvalidSettlementAmount
    | RefundNotFound
    | RefundAlreadySettled
    | SettlementExceedsRefund
    | QuoteNotFound
    | QuoteExpired
    | QuoteAlreadyUsed
    | KeyConflict
    | KeyInFlight

  // ----- Promotion capacity -----

  const INT_MAX := 2_147_483_647

  predicate Fits(c: Counter, units: nat) {
    c.consumed + units <= INT_MAX && (c.max.Some? ==> c.consumed + units <= c.max.value)
  }

  predicate ClaimsFit(promotions: map<Id, Counter>, claims: map<Id, Positive>) {
    forall p :: p in claims ==> p in promotions && Fits(promotions[p], claims[p])
  }

  function Units(claims: map<Id, Positive>, p: Id): nat {
    if p in claims then claims[p] else 0
  }

  function Claimed(promotions: map<Id, Counter>, claims: map<Id, Positive>): map<Id, Counter> {
    map p | p in promotions :: promotions[p].(consumed := promotions[p].consumed + Units(claims, p))
  }

  predicate Restorable(promotions: map<Id, Counter>, claims: map<Id, Positive>) {
    forall p :: p in claims ==> p in promotions && claims[p] <= promotions[p].consumed
  }

  function Restored(promotions: map<Id, Counter>, claims: map<Id, Positive>): map<Id, Counter>
    requires Restorable(promotions, claims)
  {
    map p | p in promotions :: promotions[p].(consumed := promotions[p].consumed - Units(claims, p))
  }

  // ----- Cash ledger -----

  /** The session fence: the actor owns the session and it still takes writes. */
  predicate Writable(db: Db, session: Id, actor: Id) {
    session in db.sessions && db.sessions[session].owner == actor && db.sessions[session].open
  }

  predicate Fenced(db: Db, session: Option<Id>, actor: Id) {
    session.None? || Writable(db, session.value, actor)
  }

  /** One row per non-zero tender. */
  function TenderRows(session: Id, actor: Id, saleId: nat, payments: seq<M.Payment>): seq<LedgerRow> {
    if payments == [] then []
    else
      var p := payments[|payments| - 1];
      var rest := TenderRows(session, actor, saleId, payments[..|payments| - 1]);
      if p.amountCents == 0 then rest
      else rest + [LedgerRow(session, actor, PaymentOf(saleId, p.paymentId), p.amountCents)]
  }

  function ChangeRows(session: Id, actor: Id, saleId: nat, changeCents: int): seq<LedgerRow> {
    if changeCents == 0 then [] else [LedgerRow(session, actor, ChangeOf(saleId), -changeCents)]
  }

  function PaymentRows(session: Option<Id>, actor: Id, saleId: nat, payments: seq<M.Payment>, changeCents: int): seq<LedgerRow> {
    if session.None? then []
    else TenderRows(session.value, actor, saleId, payments) + ChangeRows(session.value, actor, saleId, changeCents)
  }

  // ----- Slots -----

  datatype Outcome = Acquired | Replay(payload: Payload) | Conflict | InFlight

  function AcquireOutcome(db: Db, key: Key, hash: nat): Outcome {
    if key !in db.slots then Acquired
    else if db.slots[key].hash != hash then Conflict
    else if db.slots[key].payload.Some? then Replay(db.slots[key].payload.value)
    else InFlight
  }

  function Succeed(slots: map<Key, Slot>, key: Key, token: Id, payload: Payload): map<Key, Slot> {
    if key in slots && slots[key].token == token then slots[key := slots[key].(payload := Some(payload))] else slots
  }

  // ----- Charging a draft -----

  /** What the authoritative recompute inside the transaction yields; absent when it refuses the charge. */
  datatype Pricing = Pricing(totalCents: nat, claims: map<Id, Positive>)

  /** `delivery` is the cashier's flag: the goods are not handed over with the charge. */
  datatype ChargeRequest = ChargeRequest(saleId: nat, actor: Id, session: Option<Id>, entries: seq<M.Entry>, delivery: bool)

  /** The sale row once confirmed; it waits for delivery when the cashier said so and else keeps the draft's mark. */
  function ConfirmedRow(sale: SaleRow, delivery: bool, totalCents: int, charge: M.Charge, payments: seq<M.Payment>,
                        consumed: seq<Movement>, claims: map<Id, Positive>): SaleRow
  {
    sale.(status := Confirmed, delivery := if delivery then Pending else sale.delivery, totalCents := totalCents,
          paidCents := charge.paidCents, debtCents := charge.debtCents, changeCents := charge.changeCents,
          payments := payments, consumed := consumed, claims := claims)
  }

  /** The writes of an accepted charge. */
  function ChargedDb(db: Db, r: ChargeRequest, p: Pricing, charge: M.Charge, a: Applied): Db
    requires r.saleId < |db.sales|
  {
    var payments := M.StoredPayments(r.entries, 0);
    db.(sales := db.sales[r.saleId := ConfirmedRow(db.sales[r.saleId], r.delivery, p.totalCents, charge, payments, a.movements,
                                                   p.claims)],
        promotions := Claimed(db.promotions, p.claims),
        stock := a.stock,
        ledger := db.ledger + PaymentRows(r.session, r.actor, r.saleId, payments, charge.changeCents),
        outbox := db.outbox + [SaleConfirmed(r.saleId)])
  }

  /** Session fence, sale lock, status, delivery mark, recompute, settlement, claims, stock, then all the writes. */
  function ChargeTx(db: Db, r: ChargeRequest, pricing: Option<Pricing>, today: int): Result<(Db, Payload), Error> {
    if !Fenced(db, r.session, r.actor) then Err(SessionNotWritable)
    else if r.saleId >= |db.sales| || db.sales[r.saleId].owner != r.actor then Err(SaleNotFound)
    else if db.sales[r.saleId].status != Draft then Err(SaleAlreadyConfirmed)
    else if r.delivery && !db.sales[r.saleId].hasAddress then Err(ShippingAddressRequired)
    else if pricing.None? then Err(RepricingRefused)
    else
      var sale, p := db.sales[r.saleId], pricing.value;
      match M.Settle(p.totalCents, sale.hasCustomer, r.entries)
      case Err(e) => Err(ChargeRefused(e))
      case Ok(charge) =>
        if !ClaimsFit(db.promotions, p.claims) then Err(PromotionCapacityExceeded)
        else
          match ChargeItems(db.stock, sale.items, today)
          case Err(e) => Err(StockRefused(e))
          case Ok(a) =>
            Ok((ChargedDb(db, r, p, charge, a), Charged(r.saleId, charge)))
  }

  // ----- Collecting a debt -----

  datatype PaymentRequest = PaymentRequest(saleId: nat, actor: Id, reviewer: bool, session: Option<Id>, entries: seq<M.Entry>)

  function WithPayments(sale: SaleRow, payments: seq<M.Payment>): SaleRow {
    var paid := Sum(M.Values(sale.payments + payments));
    sale.(payments := sale.payments + payments, paidCents := paid, debtCents := sale.totalCents - paid)
  }

  /** The reviewer identity always collects by transfer. */
  function Tenders(r: PaymentRequest): (t: seq<M.Entry>)
    ensures |t| == |r.entries|
  {
    if r.reviewer then seq(|r.entries|, i requires 0 <= i < |r.entries| => M.Entry(M.Transfer, r.entries[i].amountCents))
    else r.entries
  }

  function PaymentTx(db: Db, r: PaymentRequest): Result<(Db, Payload), Error> {
    if !Fenced(db, r.session, r.actor) then Err(SessionNotWritable)
    else if r.saleId >= |db.sales| || (!r.reviewer && db.sales[r.saleId].owner != r.actor) then Err(SaleNotFound)
    else if db.sales[r.saleId].status != Confirmed then Err(SaleNotConfirmed)
    else
      var sale := db.sales[r.saleId];
      var paid := Sum(M.Values(sale.payments));
      if paid >= sale.totalCents then Err(NoOutstandingDebt)
      else if paid + M.Tendered(r.entries) > sale.totalCents then Err(PaymentExceedsDebt)
      else
        var payments := M.StoredPayments(Tenders(r), |sale.payments|);
        var row := WithPayments(sale, payments);
        Ok((db.(sales := db.sales[r.saleId := row],
                ledger := db.ledger + PaymentRows(r.session, r.actor, r.saleId, payments, 0)),
            Collected(r.saleId, row.paidCents, row.debtCents)))
  }

  // ----- Canceling -----

  function RefundedCents(sale: SaleRow): int {
    sale.paidCents
  }

  function RefundRows(saleId: nat, refunds: seq<M.Refund>): (r: seq<RefundRow>)
    ensures |r| == |refunds|
    ensures forall i :: 0 <= i < |r| ==> r[i] == RefundRow(saleId, refunds[i].amountCents, [])
  {
    seq(|refunds|, i requires 0 <= i < |refunds| => RefundRow(saleId, refunds[i].amountCents, []))
  }

  predicate RefundsFail(sale: SaleRow) {
    RefundedCents(sale) < 0 || RefundedCents(sale) > M.PositiveSum(sale.payments) || M.TouchesUnknown(sale.payments, RefundedCents(sale))
  }

  /** The writes of an accepted cancellation. */
  function CanceledDb(db: Db, saleId: nat, stock: Stock): Db
    requires saleId < |db.sales| && Restorable(db.promotions, db.sales[saleId].claims)
  {
    var sale := db.sales[saleId];
    var refunds := M.Spread(M.Positives(sale.payments), RefundedCents(sale));
    var debt := if sale.paidCents == 0 then 0 else sale.debtCents;
    db.(sales := db.sales[saleId := sale.(status := Canceled, debtCents := debt)],
        refunds := db.refunds + RefundRows(saleId, refunds),
        promotions := Restored(db.promotions, sale.claims),
        stock := stock,
        outbox := db.outbox + [SaleCanceled(saleId)])
  }

  /** A canceled sale is answered again; otherwise stock, refunds and promotion units all go back together. */
  function CancelTx(db: Db, saleId: nat): Result<(Db, Payload), Error> {
    if saleId >= |db.sales| then Err(SaleNotFound)
    else
      var sale := db.sales[saleId];
      var answer := CanceledSale(saleId, RefundedCents(sale));
      if sale.status == Canceled then Ok((db, answer))
      else if sale.status != Confirmed then Err(SaleNotCancellable)
      else if sale.delivery == Shipped || sale.delivery == Delivered then Err(SaleDeliveredCannotCancel)
      else
        match ReverseSale(db.stock, sale.consumed)
        case Err(e) => Err(StockRefused(e))
        case Ok(a) =>
          if RefundsFail(sale) then Err(RefundAuditMismatch)
          else if !Restorable(db.promotions, sale.claims) then Err(PromotionCounterMismatch)
          else Ok((CanceledDb(db, saleId, a.stock), answer))
  }

  // ----- Settling a refund -----

  datatype SettleRequest = SettleRequest(refundId: nat, actor: Id, session: Option<Id>, amountCents: int)

  function SettleTx(db: Db, r: SettleRequest): Result<(Db, Payload), Error> {
    if !Fenced(db, r.session, r.actor) then Err(SessionNotWritable)
    else if r.amountCents <= 0 then Err(InvalidSettlementAmount)
    else if r.refundId >= |db.refunds| then Err(RefundNotFound)
    else
      var refund := db.refunds[r.refundId];
      var settled := Sum(refund.settlements);
      if refund.amountCents - settled <= 0 then Err(RefundAlreadySettled)
      else if r.amountCents > refund.amountCents - settled then Err(SettlementExceedsRefund)
      else
        var row := refund.(settlements := refund.settlements + [r.amountCents]);
        var records :=
          if r.session.None? then []
          else [LedgerRow(r.session.value, r.actor, SettlementOf(r.refundId, |refund.settlements|), -r.amountCents)];
        Ok((db.(refunds := db.refunds[r.refundId := row], ledger := db.ledger + records),
            Settled(r.refundId, settled + r.amountCents, refund.amountCents - settled - r.amountCents)))
  }

  // ----- Confirming a bot sale -----

  datatype BotRequest = BotRequest(owner: Id, hasAddress: bool, items: seq<Item>, quote: Option<Id>, chargeCents: nat)

  /** One transaction creates and confirms the sale, all of it on credit; `now` is read under the quote lock. */
  function ConfirmBotTx(db: Db, r: BotRequest, pricing: Option<Pricing>, now: int, today: int): Result<Db, Error> {
    if r.quote.Some? && !r.hasAddress then Err(ShippingAddressRequired)
    else if r.quote.Some? && r.quote.value !in db.quotes then Err(QuoteNotFound)
    else if r.quote.Some? && now >= db.quotes[r.quote.value] then Err(QuoteExpired)
    else if r.quote.Some? && exists i :: 0 <= i < |db.sales| && db.sales[i].quote == r.quote then Err(QuoteAlreadyUsed)
    else if pricing.None? then Err(RepricingRefused)
    else
      var p := pricing.value;
      var totalCents := p.totalCents + r.chargeCents;
      if totalCents > INT_MAX then Err(RepricingRefused)
      else if !ClaimsFit(db.promotions, p.claims) then Err(PromotionCapacityExceeded)
      else
        match ChargeItems(db.stock, r.items, today)
        case Err(e) => Err(StockRefused(e))
        case Ok(a) =>
          var row := SaleRow(r.owner, true, r.hasAddress, true, r.items, Confirmed, Pending, totalCents, 0, totalCents, 0, [],
                             a.movements, p.claims, r.quote);
          Ok(db.(sales := db.sales + [row],
                 promotions := Claimed(db.promotions, p.claims),
                 stock := a.stock,
                 outbox := db.outbox + [SaleConfirmed(|db.sales|)]))
  }
}
