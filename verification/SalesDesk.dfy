/** The sale transactions as the service runs them, statement by statement over mutable rows, with rollback:
src/sales/sales.service.ts (executeChargeDraft, cancelSale) and
src/promotions/infrastructure/prisma-promotion-usage.repository.ts.
*/
module SalesDesk {
  import opened Common
  import opened StockJournal
  import opened SaleStock
  import opened SaleStore
  import opened SaleRuns
  import M = Settlement

  function Only(claims: map<Id, Positive>, done: set<Id>): map<Id, Positive> {
    map p | p in claims && p in done :: claims[p]
  }

  lemma SmallestExists(s: set<Id>)
    requires s != {}
    ensures exists p :: p in s && forall q :: q in s ==> p <= q
  {
    var x :| x in s;
    SmallestBelow(s, x);
  }

  lemma {:induction false} SmallestBelow(s: set<Id>, x: Id)
    requires x in s
    ensures exists p :: p in s && forall q :: q in s ==> p <= q
    decreases x
  {
    if y :| y in s && y < x {
      SmallestBelow(s, y);
    }
  }

  method Smallest(s: set<Id>) returns (p: Id)
    requires s != {}
    ensures p in s && forall q :: q in s ==> p <= q
  {
    SmallestExists(s);
    p :| p in s && forall q :: q in s ==> p <= q;
  }

  /** `done` and `todo` split the claimed promotions. */
  ghost predicate Split(claims: map<Id, Positive>, done: set<Id>, todo: set<Id>) {
    done + todo == claims.Keys && done !! todo
  }

  lemma SplitNext(claims: map<Id, Positive>, done: set<Id>, todo: set<Id>, p: Id)
    requires Split(claims, done, todo) && p in todo
    ensures p in claims && p !in done && Split(claims, done + {p}, todo - {p}) && todo - {p} < todo
  {
  }

  function Decremented(promotions: map<Id, Counter>, p: Id, units: Positive): map<Id, Counter>
    requires p in promotions && units <= promotions[p].consumed
  {
    promotions[p := promotions[p].(consumed := promotions[p].consumed - units)]
  }

  ghost predicate RestoredSo(start: map<Id, Counter>, claims: map<Id, Positive>, done: set<Id>, promotions: map<Id, Counter>) {
    Restorable(start, Only(claims, done)) && promotions == Restored(start, Only(claims, done))
  }

  lemma RestoreStep(start: map<Id, Counter>, claims: map<Id, Positive>, done: set<Id>, p: Id, promotions: map<Id, Counter>)
    requires RestoredSo(start, claims, done, promotions)
    requires p in claims && p !in done && p in promotions && claims[p] <= promotions[p].consumed
    ensures RestoredSo(start, claims, done + {p}, Decremented(promotions, p, claims[p]))
  {
  }

  lemma RestoreRefused(start: map<Id, Counter>, claims: map<Id, Positive>, done: set<Id>, p: Id, promotions: map<Id, Counter>)
    requires RestoredSo(start, claims, done, promotions) && p in claims && p !in done
    requires p !in promotions || claims[p] > promotions[p].consumed
    ensures !Restorable(start, claims)
  {
    if p in start {
      assert p !in Only(claims, done);
      assert promotions[p].consumed == start[p].consumed;
    }
  }

  lemma RestoreStarts(start: map<Id, Counter>, claims: map<Id, Positive>)
    ensures RestoredSo(start, claims, {}, start)
  {
    assert Only(claims, {}) == map[];
  }

  lemma RestoreEnds(start: map<Id, Counter>, claims: map<Id, Positive>, promotions: map<Id, Counter>)
    requires RestoredSo(start, claims, claims.Keys, promotions)
    ensures Restorable(start, claims) && promotions == Restored(start, claims)
  {
    assert Only(claims, claims.Keys) == claims;
  }

  method Decrement(start: map<Id, Counter>, claims: map<Id, Positive>) returns (ok: bool, promotions: map<Id, Counter>)
    ensures ok <==> Restorable(start, claims)
    ensures ok ==> promotions == Restored(start, claims)
  {
    promotions := start;
    ghost var done: set<Id> := {};
    var todo := claims.Keys;
    RestoreStarts(start, claims);
    while todo != {}
      invariant Split(claims, done, todo)
      invariant RestoredSo(start, claims, done, promotions)
      decreases todo
    {
      var p := Smallest(todo);
      SplitNext(claims, done, todo, p);
      if p !in promotions || claims[p] > promotions[p].consumed {
        RestoreRefused(start, claims, done, p, promotions);
        return false, start;
      }
      RestoreStep(start, claims, done, p, promotions);
      promotions := Decremented(promotions, p, claims[p]);
      todo, done := todo - {p}, done + {p};
    }
    assert done == claims.Keys && todo == {};
    RestoreEnds(start, claims, promotions);
    return true, promotions;
  }

  class Desk {
    var sales: seq<SaleRow>
    var refunds: seq<RefundRow>
    var slots: map<Key, Slot>
    var stock: Stock
    var adjusted: seq<Movement>
    var promotions: map<Id, Counter>
    var sessions: map<Id, Session>
    var ledger: seq<LedgerRow>
    var quotes: map<Id, int>
    var outbox: seq<Event>
    var nextToken: Id

    function View(): Db
      reads this
    {
      Db(sales, refunds, slots, stock, adjusted, promotions, sessions, ledger, quotes, outbox)
    }

    constructor (db: Db, token: Id)
      ensures View() == db && nextToken == token
    {
      nextToken := token;
      sales, refunds, slots, stock, adjusted := db.sales, db.refunds, db.slots, db.stock, db.adjusted;
      promotions, sessions, ledger, quotes, outbox := db.promotions, db.sessions, db.ledger, db.quotes, db.outbox;
    }

    /** Guarded increments in id order; the first one that does not fit fails the transaction. */
    method ClaimForSale(claims: map<Id, Positive>) returns (ok: bool)
      modifies this`promotions
      ensures ok <==> ClaimsFit(old(promotions), claims)
      ensures ok ==> promotions == Claimed(old(promotions), claims)
    {
      ghost var start := promotions;
      var todo := claims.Keys;
      while todo != {}
        invariant todo <= claims.Keys
        invariant ClaimsFit(start, Only(claims, claims.Keys - todo))
        invariant promotions == Claimed(start, Only(claims, claims.Keys - todo))
        decreases todo
      {
        var p := Smallest(todo);
        if p !in promotions || !Fits(promotions[p], claims[p]) {
          return false;
        }
        promotions := promotions[p := promotions[p].(consumed := promotions[p].consumed + claims[p])];
        todo := todo - {p};
      }
      assert Only(claims, claims.Keys) == claims;
      return true;
    }

    /** Guarded decrements; a counter below its claim fails the transaction. */
    method RestoreForSale(claims: map<Id, Positive>) returns (ok: bool)
      modifies this`promotions
      ensures ok <==> Restorable(old(promotions), claims)
      ensures ok ==> promotions == Restored(old(promotions), claims)
    {
      var counters := promotions;
      ok, counters := Decrement(counters, claims);
      if ok {
        promotions := counters;
      }
    }

    /** Charges the lines one by one through a plan of the locked rows and persists the plan. */
    method ChargeStock(items: seq<Item>, today: int) returns (r: Result<seq<Movement>, StockError>)
      modifies this`stock
      ensures match ChargeItems(old(stock), items, today)
              case Ok(a) => r == Ok(a.movements) && stock == a.stock
              case Err(e) => r == Err(e) && stock == old(stock)
    {
      var plan := new StockPlan(stock, today);
      assert items[..0] == [];
      for n := 0 to |items|
        invariant fresh(plan) && stock == old(stock) && plan.today == today
        invariant ChargeItems(stock, items[..n], today) == Ok(Applied(plan.products, plan.movements))
      {
        assert items[..n + 1][..n] == items[..n];
        var error := plan.Charge(items[n]);
        if error.Some? {
          RefusedLine(stock, items, today, n + 1);
          return Err(error.value);
        }
      }
      assert items[..|items|] == items;
      stock := plan.products;
      return Ok(plan.movements);
    }

    /** The row, its ledger records and its event. */
    method PersistConfirmation(r: ChargeRequest, p: Pricing, charge: M.Charge, consumed: seq<Movement>)
      requires r.saleId < |sales|
      modifies this`sales, this`ledger, this`outbox
      ensures sales == old(sales)[r.saleId := ConfirmedRow(old(sales)[r.saleId], r.delivery, p.totalCents, charge,
                                                           M.StoredPayments(r.entries, 0), consumed, p.claims)]
      ensures ledger == old(ledger) + PaymentRows(r.session, r.actor, r.saleId, M.StoredPayments(r.entries, 0), charge.changeCents)
      ensures outbox == old(outbox) + [SaleConfirmed(r.saleId)]
    {
      var payments := M.StoredPayments(r.entries, 0);
      sales := sales[r.saleId := ConfirmedRow(sales[r.saleId], r.delivery, p.totalCents, charge, payments, consumed, p.claims)];
      ledger := ledger + PaymentRows(r.session, r.actor, r.saleId, payments, charge.changeCents);
      outbox := outbox + [SaleConfirmed(r.saleId)];
    }

    method ChargeDraft(r: ChargeRequest, pricing: Option<Pricing>, today: int) returns (result: Result<Payload, Error>)
      modifies this`sales, this`promotions, this`stock, this`ledger, this`outbox
      ensures match ChargeTx(old(View()), r, pricing, today)
              case Ok((after, payload)) => result == Ok(payload) && View() == after
              case Err(e) => result == Err(e) && View() == old(View())
    {
      if r.session.Some? && !Writable(View(), r.session.value, r.actor) {
        return Err(SessionNotWritable);
      }
      if r.saleId >= |sales| || sales[r.saleId].owner != r.actor {
        return Err(SaleNotFound);
      }
      var sale := sales[r.saleId];
      if sale.status != Draft {
        return Err(SaleAlreadyConfirmed);
      }
      if r.delivery && !sale.hasAddress {
        return Err(ShippingAddressRequired);
      }
      if pricing.None? {
        return Err(RepricingRefused);
      }
      var settled := M.Settle(pricing.value.totalCents, sale.hasCustomer, r.entries);
      if settled.Err? {
        return Err(ChargeRefused(settled.error));
      }
      var counters := promotions;
      var claimed := ClaimForSale(pricing.value.claims);
      if !claimed {
        promotions := counters;
        return Err(PromotionCapacityExceeded);
      }
      var consumed := ChargeStock(sale.items, today);
      if consumed.Err? {
        promotions := counters;
        return Err(StockRefused(consumed.error));
      }
      PersistConfirmation(r, pricing.value, settled.value, consumed.value);
      return Ok(Charged(r.saleId, settled.value));
    }

    /** Promotion units, stock, refunds and the row go back together; a counter below its claim undoes all of it. */
    method PersistCancellation(saleId: nat, restocked: Stock, owed: seq<M.Refund>) returns (ok: bool)
      requires saleId < |sales| && owed == M.Spread(M.Positives(sales[saleId].payments), sales[saleId].paidCents)
      modifies this`sales, this`refunds, this`promotions, this`stock, this`outbox
      ensures ok <==> Restorable(old(promotions), old(sales)[saleId].claims)
      ensures ok ==> View() == CanceledDb(old(View()), saleId, restocked)
      ensures !ok ==> View() == old(View())
    {
      var sale := sales[saleId];
      var counters := promotions;
      ok := RestoreForSale(sale.claims);
      if !ok {
        promotions := counters;
        return;
      }
      stock := restocked;
      refunds := refunds + RefundRows(saleId, owed);
      sales := sales[saleId := sale.(status := Canceled, debtCents := if sale.paidCents == 0 then 0 else sale.debtCents)];
      outbox := outbox + [SaleCanceled(saleId)];
    }

    method CancelSale(saleId: nat) returns (result: Result<Payload, Error>)
      modifies this`sales, this`refunds, this`promotions, this`stock, this`outbox
      ensures match CancelTx(old(View()), saleId)
              case Ok((after, payload)) => result == Ok(payload) && View() == after
              case Err(e) => result == Err(e) && View() == old(View())
    {
      if saleId >= |sales| {
        return Err(SaleNotFound);
      }
      var sale := sales[saleId];
      var answer := CanceledSale(saleId, sale.paidCents);
      if sale.status == Canceled {
        return Ok(answer);
      }
      if sale.status != Confirmed {
        return Err(SaleNotCancellable);
      }
      if sale.delivery == Shipped || sale.delivery == Delivered {
        return Err(SaleDeliveredCannotCancel);
      }
      var reversed := ReverseSale(stock, sale.consumed);
      if reversed.Err? {
        return Err(StockRefused(reversed.error));
      }
      var built := M.BuildCancellationRefunds(sale.payments, sale.paidCents);
      if built.Err? {
        return Err(RefundAuditMismatch);
      }
      var persisted := PersistCancellation(saleId, reversed.value.stock, built.value);
      if !persisted {
        return Err(PromotionCounterMismatch);
      }
      return Ok(answer);
    }

    // ----- Idempotency slots -----

    /** Inserts the slot unless the key is taken; what a taken key means is read off the slot that has it. */
    method Acquire(key: Key, hash: nat) returns (outcome: Outcome)
      modifies this`slots, this`nextToken
      ensures outcome == AcquireOutcome(old(View()), key, hash)
      ensures outcome == Acquired ==>
                slots == old(slots)[key := Slot(old(nextToken), hash, None)] && nextToken == old(nextToken) + 1
      ensures outcome != Acquired ==> slots == old(slots) && nextToken == old(nextToken)
    {
      if key !in slots {
        slots := slots[key := Slot(nextToken, hash, None)];
        nextToken := nextToken + 1;
        return Acquired;
      }
      if slots[key].hash != hash {
        return Conflict;
      }
      if slots[key].payload.Some? {
        return Replay(slots[key].payload.value);
      }
      return InFlight;
    }

    /** Stamps the slot that still carries the token. */
    method Stamp(key: Key, token: Id, payload: Payload)
      modifies this`slots
      ensures slots == Succeed(old(slots), key, token, payload)
    {
      if key in slots && slots[key].token == token {
        slots := slots[key := slots[key].(payload := Some(payload))];
      }
    }

    /** The transaction of a charge: its work, then the stamp on its slot. */
    method ChargeAndStamp(r: ChargeRequest, key: nat, ghost hash: nat, token: Id, pricing: Option<Pricing>, today: int)
      returns (result: Result<Payload, Error>)
      modifies this`sales, this`promotions, this`stock, this`ledger, this`outbox, this`slots
      ensures match Complete(old(View()), Request(DoCharge(r), key, hash), token, pricing, today)
              case Ok((after, payload)) => result == Ok(payload) && View() == after
              case Err(e) => result == Err(e) && View() == old(View())
    {
      result := ChargeDraft(r, pricing, today);
      if result.Ok? {
        Stamp(ChargeKey(key), token, result.value);
      }
    }

    /** The transaction of a bound charge once its slot is in: on an error the slot and its token go with the rest. */
    method ChargeOrRollBack(r: ChargeRequest, key: nat, ghost hash: nat, pricing: Option<Pricing>, today: int,
                            slotsBefore: map<Key, Slot>, token: Id, ghost before: Db)
      returns (result: Result<Payload, Error>)
      requires View() == WithSlot(before, Request(DoCharge(r), key, hash), token) && slotsBefore == before.slots
      modifies this
      ensures match Complete(old(View()), Request(DoCharge(r), key, hash), token, pricing, today)
              case Ok((after, payload)) => result == Ok(payload) && View() == after && nextToken == old(nextToken)
              case Err(e) => result == Err(e) && View() == before && nextToken == token
    {
      result := ChargeAndStamp(r, key, hash, token, pricing, today);
      if result.Err? {
        slots, nextToken := slotsBefore, token;
      }
    }

    /** A session-bound charge: one transaction holds the slot, the session fence, the charge and the stamp; whatever fails,
        the slot goes with the rest. */
    method ChargeBound(r: ChargeRequest, key: nat, hash: nat, pricing: Option<Pricing>, today: int, ghost w: World)
      returns (reply: Reply)
      requires w.db == View() && w.nextToken == nextToken
      modifies this
      ensures var (x, answer) := BoundTx(w, Request(DoCharge(r), key, hash), pricing, today);
              reply == answer && View() == x.db && nextToken == x.nextToken
    {
      var slotsBefore, token := slots, nextToken;
      var outcome := Acquire(ChargeKey(key), hash);
      BoundOutcome(w, Request(DoCharge(r), key, hash), pricing, today);
      match outcome {
        case Replay(payload) => return Done(payload);
        case Conflict => return Failed(KeyConflict);
        case InFlight => return Failed(KeyInFlight);
        case Acquired =>
          var result := ChargeOrRollBack(r, key, hash, pricing, today, slotsBefore, token, w.db);
          return if result.Ok? then Done(result.value) else Failed(result.error);
      }
    }

    /** An unbound charge: the slot is committed first and stays taken when the transaction fails. */
    method ChargeUnbound(r: ChargeRequest, key: nat, hash: nat, pricing: Option<Pricing>, today: int, ghost w: World)
      returns (reply: Reply)
      requires w.db == View() && w.nextToken == nextToken && r.session.None? && WellFormed(DoCharge(r))
      modifies this
      ensures var begun := BeginWork(w, Request(DoCharge(r), key, hash));
              match AcquireOutcome(w.db, ChargeKey(key), hash)
              case Acquired =>
                && View() == FinishWork(begun, w.nextToken, pricing, today).db
                && (reply.Done? <==> Complete(begun.db, Request(DoCharge(r), key, hash), w.nextToken, pricing, today).Ok?)
              case Replay(payload) => reply == Done(payload) && View() == w.db
              case _ => reply.Failed? && View() == w.db
    {
      var token := nextToken;
      ghost var request := Request(DoCharge(r), key, hash);
      var outcome := Acquire(ChargeKey(key), hash);
      match outcome {
        case Replay(payload) => return Done(payload);
        case Conflict => return Failed(KeyConflict);
        case InFlight => return Failed(KeyInFlight);
        case Acquired =>
      }
      assert View() == WithSlot(w.db, request, w.nextToken);
      UnboundOutcome(w, request, pricing, today);
      var result := ChargeAndStamp(r, key, hash, token, pricing, today);
      if result.Err? {
        return Failed(result.error);
      }
      return Done(result.value);
    }

    method CancelAndStamp(saleId: nat, ghost hash: nat, token: Id) returns (result: Result<Payload, Error>)
      modifies this`sales, this`refunds, this`promotions, this`stock, this`outbox, this`slots
      ensures match Complete(old(View()), Request(DoCancel(saleId), 0, hash), token, None, 0)
              case Ok((after, payload)) => result == Ok(payload) && View() == after
              case Err(e) => result == Err(e) && View() == old(View())
    {
      result := CancelSale(saleId);
      if result.Ok? {
        Stamp(CancelKey(saleId), token, result.value);
      }
    }

    /** A cancellation with its key, which is never given back. */
    method CancelWithKey(saleId: nat, hash: nat, ghost w: World) returns (reply: Reply)
      requires w.db == View() && w.nextToken == nextToken
      modifies this
      ensures var begun := BeginWork(w, Request(DoCancel(saleId), 0, hash));
              match AcquireOutcome(w.db, CancelKey(saleId), hash)
              case Acquired =>
                && View() == FinishWork(begun, w.nextToken, None, 0).db
                && (reply.Done? <==> Complete(begun.db, Request(DoCancel(saleId), 0, hash), w.nextToken, None, 0).Ok?)
              case Replay(payload) => reply == Done(payload) && View() == w.db
              case _ => reply.Failed? && View() == w.db
    {
      var token := nextToken;
      ghost var request := Request(DoCancel(saleId), 0, hash);
      var outcome := Acquire(CancelKey(saleId), hash);
      match outcome {
        case Replay(payload) => return Done(payload);
        case Conflict => return Failed(KeyConflict);
        case InFlight => return Failed(KeyInFlight);
        case Acquired =>
      }
      assert View() == WithSlot(w.db, request, w.nextToken);
      UnboundOutcome(w, request, None, 0);
      var result := CancelAndStamp(saleId, hash, token);
      if result.Err? {
        return Failed(result.error);
      }
      return Done(result.value);
    }
  }

  /** A bound request answers a taken key without a transaction and otherwise is its transaction. */
  lemma BoundOutcome(w: World, r: Request, pricing: Option<Pricing>, today: int)
    requires Rejected(r.work).None?
    ensures BoundTx(w, r, pricing, today) ==
            match AcquireOutcome(w.db, KeyOf(r), r.hash)
            case Replay(payload) => (w, Done(payload))
            case Conflict => (w, Failed(KeyConflict))
            case InFlight => (w, Failed(KeyInFlight))
            case Acquired =>
              match Complete(WithSlot(w.db, r, w.nextToken), r, w.nextToken, pricing, today)
              case Ok((after, payload)) => (w.(db := after, nextToken := w.nextToken + 1), Done(payload))
              case Err(e) => (w, Failed(e))
  {
  }

  /** An unbound charge or cancellation that acquires its slot ends as its transaction says; a failed one leaves the slot behind. */
  lemma UnboundOutcome(w: World, r: Request, pricing: Option<Pricing>, today: int)
    requires (r.work.DoCharge? || r.work.DoCancel?) && WellFormed(r.work) && SessionOf(r.work).None?
    requires AcquireOutcome(w.db, KeyOf(r), r.hash) == Acquired
    ensures BeginWork(w, r).db == WithSlot(w.db, r, w.nextToken)
    ensures FinishWork(BeginWork(w, r), w.nextToken, pricing, today).db ==
            match Complete(WithSlot(w.db, r, w.nextToken), r, w.nextToken, pricing, today)
            case Ok((after, _)) => after
            case Err(_) => WithSlot(w.db, r, w.nextToken)
  {
  }

  lemma {:induction false} RefusedLine(s: Stock, items: seq<Item>, today: int, n: nat)
    requires n <= |items| && ChargeItems(s, items[..n], today).Err?
    ensures ChargeItems(s, items, today) == ChargeItems(s, items[..n], today)
    decreases |items| - n
  {
    if n == |items| {
      assert items[..n] == items;
    } else {
      assert items[..n + 1][..n] == items[..n];
      RefusedLine(s, items, today, n + 1);
    }
  }
}
