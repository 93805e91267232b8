/** A cancellation that comes too early: src/sales/sales.service.ts (cancelSale) over
src/sales/infrastructure/prisma-sale.repository.ts (acquireCancellationIdempotency).

The key of a sale's cancellation is made of the sale alone. A cancellation of a draft is refused and keeps the key, so the
sale can still be charged but never canceled again. That strands the sale exactly when it is charged for delivery: a sale
handed over the counter is refused by the delivery rule anyway.
*/
module PrematureCancel {
  import opened Common
  import opened StockJournal
  import opened SaleStock
  import opened SaleStore
  import opened SaleInvariants
  import opened SaleRuns
  import opened SaleHistory
  import M = Settlement

  function CancelRequest(i: nat, hash: nat): Request {
    Request(DoCancel(i), 0, hash)
  }

  // ----- Drafts are marked as delivered -----

  ghost predicate DraftsDelivered(w: World) {
    forall i :: 0 <= i < |w.db.sales| && w.db.sales[i].status == Draft ==> w.db.sales[i].delivery == Delivered
  }

  lemma TxKeepsDrafts(db: Db, w: Work, pricing: Option<Pricing>, today: int)
    requires RunTx(db, w, pricing, today).Ok?
    ensures var after := RunTx(db, w, pricing, today).value.0;
            && |after.sales| == |db.sales|
            && forall i :: 0 <= i < |db.sales| && after.sales[i].status == Draft ==> after.sales[i] == db.sales[i]
  {
  }

  lemma StepKeepsDrafts(w: World, s: Step)
    requires DraftsDelivered(w)
    ensures DraftsDelivered(Do(w, s))
  {
    if s.Finish? && s.token in w.pending {
      var r := w.pending[s.token];
      if RunTx(w.db, r.work, s.pricing, s.today).Ok? {
        TxKeepsDrafts(w.db, r.work, s.pricing, s.today);
      }
    } else if s.Bound? {
      var held := WithSlot(w.db, s.request, w.nextToken);
      if RunTx(held, s.request.work, s.pricing, s.today).Ok? {
        TxKeepsDrafts(held, s.request.work, s.pricing, s.today);
      }
    }
  }

  /** In every reachable state every draft still carries the mark it was created with. */
  lemma {:induction false} DraftsStayDelivered(stock: Stock, promotions: map<Id, Counter>, steps: seq<Step>)
    ensures DraftsDelivered(Run(Fresh(stock, promotions), steps))
  {
    if steps != [] {
      var init := steps[..|steps| - 1];
      DraftsStayDelivered(stock, promotions, init);
      StepKeepsDrafts(Run(Fresh(stock, promotions), init), steps[|steps| - 1]);
    }
  }

  // ----- Canceled too early -----

  /** Somebody tries to cancel the draft; then the draft is charged. */
  function CanceledThenCharged(w: World, i: nat, hash: nat, r: Request, pricing: Option<Pricing>, today: int): World {
    var burned := Do(Do(w, Begin(CancelRequest(i, hash))), Finish(w.nextToken, None, today));
    Do(Do(burned, Begin(r)), Finish(burned.nextToken, pricing, today))
  }

  /** The charge of the draft is acceptable: a new key, a well-formed unbound request, and a transaction that goes through. */
  ghost predicate Chargeable(w: World, i: nat, r: Request, pricing: Option<Pricing>, today: int) {
    && r.work.DoCharge? && r.work.charge.saleId == i && WellFormed(r.work) && SessionOf(r.work).None?
    && KeyOf(r) !in w.db.slots && ChargeTx(w.db, r.work.charge, pricing, today).Ok?
  }

  lemma CancelRefused(w: World, i: nat, hash: nat, today: int)
    requires i < |w.db.sales| && w.db.sales[i].status == Draft && CancelKey(i) !in w.db.slots
    ensures var burned := Do(Do(w, Begin(CancelRequest(i, hash))), Finish(w.nextToken, None, today));
            && burned.db == WithSlot(w.db, CancelRequest(i, hash), w.nextToken)
            && burned.nextToken == w.nextToken + 1 && StillBurned(burned, i)
  {
    CancelBegins(w, i, hash);
    var begun := BeginWork(w, CancelRequest(i, hash));
    CancelFinishes(begun, w.nextToken, i, hash, None, today);
  }

  lemma SameRowsSameCharge(db: Db, other: Db, c: ChargeRequest, pricing: Option<Pricing>, today: int)
    requires other == db.(slots := other.slots)
    ensures ChargeTx(other, c, pricing, today).Ok? == ChargeTx(db, c, pricing, today).Ok?
    ensures ChargeTx(db, c, pricing, today).Ok? ==>
              && c.saleId < |db.sales| && |ChargeTx(other, c, pricing, today).value.0.sales| == |db.sales|
              && ChargeTx(other, c, pricing, today).value.0.sales[c.saleId].status == Confirmed
              && ChargeTx(other, c, pricing, today).value.0.sales[c.saleId].delivery ==
                 if c.delivery then Pending else db.sales[c.saleId].delivery
  {
  }

  lemma ChargeGoesThrough(w: World, i: nat, r: Request, pricing: Option<Pricing>, today: int)
    requires Chargeable(w, i, r, pricing, today)
    ensures var sold := Do(Do(w, Begin(r)), Finish(w.nextToken, pricing, today));
            && i < |sold.db.sales| == |w.db.sales| && sold.db.sales[i].status == Confirmed
            && sold.db.sales[i].delivery == if r.work.charge.delivery then Pending else w.db.sales[i].delivery
  {
    var begun := BeginWork(w, r);
    assert begun.db == WithSlot(w.db, r, w.nextToken) && begun.pending[w.nextToken] == r;
    SameRowsSameCharge(w.db, begun.db, r.work.charge, pricing, today);
  }

  lemma FourSteps(w: World, stock: Stock, counters: map<Id, nat>, a: Step, b: Step, c: Step, d: Step)
    requires SlotInv(w) && Inv(w, stock, counters)
    ensures SlotInv(Do(Do(w, a), b)) && Inv(Do(Do(w, a), b), stock, counters)
    ensures var x := Do(Do(Do(Do(w, a), b), c), d); SlotInv(x) && Inv(x, stock, counters)
  {
    var x := Do(w, a);
    StepKeepsSlots(w, a);
    StepKeepsInv(w, stock, counters, a);
    var y := Do(x, b);
    StepKeepsSlots(x, b);
    StepKeepsInv(x, stock, counters, b);
    var z := Do(y, c);
    StepKeepsSlots(y, c);
    StepKeepsInv(y, stock, counters, c);
    StepKeepsSlots(z, d);
    StepKeepsInv(z, stock, counters, d);
  }

  /** After a premature cancellation the draft can be charged, and no run cancels it. Without the burned key its
  cancellation would be accepted exactly when the charge was for delivery. */
  lemma PrematureCancelStrands(w: World, stock: Stock, counters: map<Id, nat>, i: nat, hash: nat, r: Request,
                               pricing: Option<Pricing>, today: int, steps: seq<Step>)
    requires SlotInv(w) && Inv(w, stock, counters) && DraftsDelivered(w)
    requires i < |w.db.sales| && w.db.sales[i].status == Draft
    requires CancelKey(i) !in w.db.slots && Chargeable(w, i, r, pricing, today)
    ensures var sold := CanceledThenCharged(w, i, hash, r, pricing, today);
            && i < |sold.db.sales| && sold.db.sales[i].status == Confirmed
            && (CancelTx(sold.db, i).Ok? <==> r.work.charge.delivery)
            && i < |Run(sold, steps).db.sales| && Run(sold, steps).db.sales[i].status != Canceled
  {
    var burned := Do(Do(w, Begin(CancelRequest(i, hash))), Finish(w.nextToken, None, today));
    CancelRefused(w, i, hash, today);
    SameRowsSameCharge(w.db, burned.db, r.work.charge, pricing, today);
    assert Chargeable(burned, i, r, pricing, today);
    ChargeGoesThrough(burned, i, r, pricing, today);
    var begun := Do(burned, Begin(r));
    var sold := Do(begun, Finish(burned.nextToken, pricing, today));
    FourSteps(w, stock, counters, Begin(CancelRequest(i, hash)), Finish(w.nextToken, None, today), Begin(r),
              Finish(burned.nextToken, pricing, today));
    CancelSucceedsIff(sold.db, stock, counters, i);
    StepKeepsBurned(burned, i, Begin(r));
    StepKeepsSlots(burned, Begin(r));
    StepKeepsBurned(begun, i, Finish(burned.nextToken, pricing, today));
    BurnedForever(sold, i, steps);
  }

  // ----- A sale nobody can cancel -----

  const SHELF: Stock := map[1 := Product(0, false, false, [], [])]

  const SAVED: Step := SaveDraft(5, true, true, [Item(1, None, 1)])

  const CASH_CHARGE: Request := Request(DoCharge(ChargeRequest(0, 5, None, [M.Entry(M.Cash, 100)], true)), 1, 1)

  const PRICED: Option<Pricing> := Some(Pricing(100, map[]))

  lemma CashChargeable(promotions: map<Id, Counter>, w: World)
    requires w == Do(Fresh(SHELF, promotions), SAVED)
    ensures Chargeable(w, 0, CASH_CHARGE, PRICED, 0)
  {
    var entries := [M.Entry(M.Cash, 100)];
    assert w.db.sales == [DraftRow(5, true, true, [Item(1, None, 1)])];
    assert M.Amounts(entries) == [100];
    SumOne(100);
    M.SettlementBalances(100, true, entries);
    assert entries[0] in entries && M.HasMethod(entries, M.Cash);
    assert [Item(1, None, 1)][..0] == [];
    assert ChargeItems(SHELF, [Item(1, None, 1)][..0], 0) == Ok(Applied(SHELF, []));
  }

  lemma SavedInv(promotions: map<Id, Counter>, counters: map<Id, nat>, w: World)
    requires (forall p :: p in promotions ==> Fits(promotions[p], 0)) && w == Do(Fresh(SHELF, promotions), SAVED)
    requires counters == map p | p in promotions :: promotions[p].consumed
    ensures SlotInv(w) && Inv(w, SHELF, counters)
  {
    FreshSlots(SHELF, promotions);
    FreshInv(SHELF, promotions);
    StepKeepsSlots(Fresh(SHELF, promotions), SAVED);
    StepKeepsInv(Fresh(SHELF, promotions), SHELF, counters, SAVED);
  }

  lemma SavedDraft(promotions: map<Id, Counter>, w: World)
    requires w == Do(Fresh(SHELF, promotions), SAVED)
    ensures |w.db.sales| == 1 && w.db.sales[0].status == Draft && w.db.slots == map[] && DraftsDelivered(w)
  {
  }

  /** One draft of one untracked product with a customer and an address: canceled too early, then paid 100 in cash for
  delivery, then never canceled whatever happens, although it has not been delivered. */
  lemma StrandedSale(promotions: map<Id, Counter>, steps: seq<Step>)
    requires forall p :: p in promotions ==> Fits(promotions[p], 0)
    ensures var sold := CanceledThenCharged(Do(Fresh(SHELF, promotions), SAVED), 0, 7, CASH_CHARGE, PRICED, 0);
            && |sold.db.sales| > 0 && sold.db.sales[0].status == Confirmed && sold.db.sales[0].delivery == Pending
            && CancelTx(sold.db, 0).Ok?
            && |Run(sold, steps).db.sales| > 0 && Run(sold, steps).db.sales[0].status != Canceled
  {
    var w := Do(Fresh(SHELF, promotions), SAVED);
    var counters := map p | p in promotions :: promotions[p].consumed;
    SavedInv(promotions, counters, w);
    SavedDraft(promotions, w);
    CashChargeable(promotions, w);
    PrematureCancelStrands(w, SHELF, counters, 0, 7, CASH_CHARGE, PRICED, 0, steps);
  }
}
