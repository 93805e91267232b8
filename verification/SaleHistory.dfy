/** What no later step can undo: confirmed sales, replayed answers, closed cash sessions and burned keys.
src/sales/sales.service.ts over src/sales/infrastructure/prisma-sale.repository.ts.
*/
module SaleHistory {
  import opened Common
  import opened StockJournal
  import opened SaleStock
  import opened SaleStore
  import opened SaleInvariants
  import opened SaleRuns
  import M = Settlement

  // ----- Slots and their holders -----

  /** Tokens are fresh, and the slot of a live request's token is that request's own, still in flight. */
  ghost predicate TokensInv(w: World) {
    && (forall k :: k in w.db.slots ==> w.db.slots[k].token < w.nextToken)
    && (forall t :: t in w.pending ==> t < w.nextToken)
    && forall k :: k in w.db.slots && w.db.slots[k].token in w.pending ==>
         w.db.slots[k].payload.None? && KeyOf(w.pending[w.db.slots[k].token]) == k
  }

  /** Only a settlement's slot can be taken from a live request. */
  ghost predicate HoldersInv(w: World) {
    forall t :: t in w.pending && !w.pending[t].work.DoSettle? ==> HoldsSlot(w.db, KeyOf(w.pending[t]), t)
  }

  ghost predicate SlotInv(w: World) {
    TokensInv(w) && HoldersInv(w)
  }

  lemma TxKeepsSlots(db: Db, w: Work, pricing: Option<Pricing>, today: int)
    requires RunTx(db, w, pricing, today).Ok?
    ensures RunTx(db, w, pricing, today).value.0.slots == db.slots
  {
  }

  /** What finishing a request does to the slots: its own slot is stamped, released or left; all others stay. */
  lemma FinishedSlots(w: World, token: Id, pricing: Option<Pricing>, today: int)
    requires token in w.pending
    ensures var after := FinishWork(w, token, pricing, today);
            && after.pending == w.pending - {token} && after.nextToken == w.nextToken
            && (forall k :: k in after.db.slots ==> k in w.db.slots && after.db.slots[k].token == w.db.slots[k].token)
            && (forall k :: k in w.db.slots && w.db.slots[k].token != token ==> k in after.db.slots && after.db.slots[k] == w.db.slots[k])
  {
    var r := w.pending[token];
    if RunTx(w.db, r.work, pricing, today).Ok? {
      TxKeepsSlots(w.db, r.work, pricing, today);
    }
  }

  lemma FinishKeepsSlots(w: World, token: Id, pricing: Option<Pricing>, today: int)
    requires SlotInv(w)
    ensures SlotInv(FinishWork(w, token, pricing, today))
  {
    if token in w.pending {
      FinishedSlots(w, token, pricing, today);
      var after := FinishWork(w, token, pricing, today);
      forall k | k in after.db.slots && after.db.slots[k].token in after.pending
        ensures after.db.slots[k].payload.None? && KeyOf(after.pending[after.db.slots[k].token]) == k
      {
        assert after.db.slots[k] == w.db.slots[k];
      }
      forall t | t in after.pending && !after.pending[t].work.DoSettle?
        ensures HoldsSlot(after.db, KeyOf(after.pending[t]), t)
      {
        assert HoldsSlot(w.db, KeyOf(w.pending[t]), t);
      }
    }
  }

  /** What a bound request does to the slots: on success it adds its own, stamped; otherwise nothing. */
  lemma BoundSlots(w: World, r: Request, pricing: Option<Pricing>, today: int)
    ensures var after := BoundTx(w, r, pricing, today).0;
            && after.pending == w.pending
            && (after != w ==>
                  && KeyOf(r) !in w.db.slots && after.nextToken == w.nextToken + 1
                  && after.db.slots.Keys == w.db.slots.Keys + {KeyOf(r)}
                  && after.db.slots[KeyOf(r)].token == w.nextToken
                  && forall k :: k in w.db.slots ==> after.db.slots[k] == w.db.slots[k])
  {
    var held := WithSlot(w.db, r, w.nextToken);
    if RunTx(held, r.work, pricing, today).Ok? {
      TxKeepsSlots(held, r.work, pricing, today);
    }
  }

  lemma BoundKeepsSlots(w: World, r: Request, pricing: Option<Pricing>, today: int)
    requires SlotInv(w)
    ensures SlotInv(BoundTx(w, r, pricing, today).0)
  {
    BoundSlots(w, r, pricing, today);
    var after := BoundTx(w, r, pricing, today).0;
    forall t | t in after.pending && !after.pending[t].work.DoSettle?
      ensures HoldsSlot(after.db, KeyOf(after.pending[t]), t)
    {
      assert HoldsSlot(w.db, KeyOf(w.pending[t]), t);
    }
  }

  lemma BeginKeepsSlots(w: World, r: Request)
    requires SlotInv(w)
    ensures SlotInv(BeginWork(w, r))
  {
    var after := BeginWork(w, r);
    if after != w {
      forall t | t in after.pending && !after.pending[t].work.DoSettle?
        ensures HoldsSlot(after.db, KeyOf(after.pending[t]), t)
      {
        assert t != w.nextToken ==> HoldsSlot(w.db, KeyOf(w.pending[t]), t);
      }
    }
  }

  lemma ReclaimKeepsSlots(w: World, refundId: nat, key: nat)
    requires SlotInv(w)
    ensures SlotInv(Do(w, Reclaim(refundId, key)))
  {
    var after := Do(w, Reclaim(refundId, key));
    forall t | t in after.pending && !after.pending[t].work.DoSettle?
      ensures HoldsSlot(after.db, KeyOf(after.pending[t]), t)
    {
      assert HoldsSlot(w.db, KeyOf(w.pending[t]), t);
    }
  }

  predicate MovesSlots(s: Step) {
    s.Begin? || s.Finish? || s.Bound? || s.Reclaim? || s.Abandon?
  }

  lemma OtherStepsKeepSlots(w: World, s: Step)
    requires !MovesSlots(s)
    ensures Do(w, s).db.slots == w.db.slots && Do(w, s).pending == w.pending && Do(w, s).nextToken == w.nextToken
  {
  }

  lemma StepKeepsSlots(w: World, s: Step)
    requires SlotInv(w)
    ensures SlotInv(Do(w, s))
  {
    if s.Begin? {
      BeginKeepsSlots(w, s.request);
    } else if s.Finish? {
      FinishKeepsSlots(w, s.token, s.pricing, s.today);
    } else if s.Bound? {
      BoundKeepsSlots(w, s.request, s.pricing, s.today);
    } else if s.Reclaim? {
      ReclaimKeepsSlots(w, s.refundId, s.key);
    } else if s.Abandon? {
      AbandonKeepsSlots(w, s.token);
    } else {
      OtherStepsKeepSlots(w, s);
      SameSlots(w, Do(w, s));
    }
  }

  lemma SameSlots(w: World, x: World)
    requires SlotInv(w) && x.db.slots == w.db.slots && x.pending == w.pending && x.nextToken == w.nextToken
    ensures SlotInv(x)
  {
    forall t | t in x.pending && !x.pending[t].work.DoSettle?
      ensures HoldsSlot(x.db, KeyOf(x.pending[t]), t)
    {
      assert HoldsSlot(w.db, KeyOf(w.pending[t]), t);
    }
  }

  lemma AbandonKeepsSlots(w: World, token: Id)
    requires SlotInv(w)
    ensures SlotInv(Do(w, Abandon(token)))
  {
    var after := Do(w, Abandon(token));
    forall t | t in after.pending && !after.pending[t].work.DoSettle?
      ensures HoldsSlot(after.db, KeyOf(after.pending[t]), t)
    {
      assert HoldsSlot(w.db, KeyOf(w.pending[t]), t);
    }
  }

  /** Nobody holds a slot before anything happened. */
  lemma FreshSlots(stock: Stock, promotions: map<Id, Counter>)
    ensures SlotInv(Fresh(stock, promotions))
  {
  }

  /** Every state reachable from a fresh one keeps both invariants, so what follows holds of all of them. */
  lemma {:induction false} ReachableInv(stock: Stock, promotions: map<Id, Counter>, steps: seq<Step>)
    requires ValidStock(stock) && forall p :: p in promotions ==> Fits(promotions[p], 0)
    ensures var x := Run(Fresh(stock, promotions), steps);
            SlotInv(x) && Inv(x, stock, map p | p in promotions :: promotions[p].consumed)
  {
    var counters := map p | p in promotions :: promotions[p].consumed;
    if steps == [] {
      FreshSlots(stock, promotions);
      FreshInv(stock, promotions);
    } else {
      var init := steps[..|steps| - 1];
      ReachableInv(stock, promotions, init);
      StepKeepsSlots(Run(Fresh(stock, promotions), init), steps[|steps| - 1]);
      StepKeepsInv(Run(Fresh(stock, promotions), init), stock, counters, steps[|steps| - 1]);
    }
  }

  // ----- Answers are forever -----

  ghost predicate AnswersKept(w: World, x: World) {
    forall k :: k in w.db.slots && w.db.slots[k].payload.Some? ==> k in x.db.slots && x.db.slots[k] == w.db.slots[k]
  }

  lemma StepKeepsAnswers(w: World, s: Step)
    requires SlotInv(w)
    ensures AnswersKept(w, Do(w, s))
  {
    if s.Finish? {
      if s.token in w.pending {
        FinishedSlots(w, s.token, s.pricing, s.today);
      }
    } else if s.Bound? {
      BoundSlots(w, s.request, s.pricing, s.today);
    } else if !MovesSlots(s) {
      OtherStepsKeepSlots(w, s);
    }
  }

  lemma {:induction false} RunKeepsAnswers(w: World, steps: seq<Step>)
    requires SlotInv(w)
    ensures SlotInv(Run(w, steps)) && AnswersKept(w, Run(w, steps))
  {
    if steps != [] {
      var init := steps[..|steps| - 1];
      RunKeepsAnswers(w, init);
      StepKeepsSlots(Run(w, init), steps[|steps| - 1]);
      StepKeepsAnswers(Run(w, init), steps[|steps| - 1]);
    }
  }

  /** Once a request has an answer, the same key and digest get that answer in every later state, and nothing else
      happens: no row, no record and no slot changes, whatever became of the session it named. */
  lemma ReplayForever(w: World, steps: seq<Step>, r: Request, payload: Payload, pricing: Option<Pricing>, today: int)
    requires SlotInv(w) && KeyOf(r) in w.db.slots && Rejected(r.work).None?
    requires w.db.slots[KeyOf(r)].payload == Some(payload) && w.db.slots[KeyOf(r)].hash == r.hash
    ensures var x := Run(w, steps);
            && AcquireOutcome(x.db, KeyOf(r), r.hash) == Replay(payload)
            && BoundTx(x, r, pricing, today) == (x, Done(payload))
            && BeginWork(x, r) == x
  {
    RunKeepsAnswers(w, steps);
  }

  /** A different digest under an answered key is refused in every later state. */
  lemma ConflictForever(w: World, steps: seq<Step>, r: Request, pricing: Option<Pricing>, today: int)
    requires SlotInv(w) && KeyOf(r) in w.db.slots && Rejected(r.work).None?
    requires w.db.slots[KeyOf(r)].payload.Some? && w.db.slots[KeyOf(r)].hash != r.hash
    ensures BoundTx(Run(w, steps), r, pricing, today) == (Run(w, steps), Failed(KeyConflict))
  {
    RunKeepsAnswers(w, steps);
  }

  // ----- Burned cancellations -----

  /** A cancellation took the sale's one key, and no live request holds it any more. */
  predicate Burned(w: World, i: nat) {
    && CancelKey(i) in w.db.slots
    && w.db.slots[CancelKey(i)].payload.None?
    && w.db.slots[CancelKey(i)].token !in w.pending
  }

  ghost predicate StillBurned(w: World, i: nat) {
    Burned(w, i) && i < |w.db.sales| && w.db.sales[i].status != Canceled
  }

  lemma TxCancelsOnly(db: Db, w: Work, pricing: Option<Pricing>, today: int, i: nat)
    requires RunTx(db, w, pricing, today).Ok? && i < |db.sales| && db.sales[i].status != Canceled && w != DoCancel(i)
    ensures var after := RunTx(db, w, pricing, today).value.0;
            |after.sales| == |db.sales| && after.sales[i].status != Canceled
  {
  }

  lemma FinishKeepsBurned(w: World, i: nat, token: Id, pricing: Option<Pricing>, today: int)
    requires SlotInv(w) && StillBurned(w, i)
    ensures StillBurned(FinishWork(w, token, pricing, today), i)
  {
    if token in w.pending {
      FinishedSlots(w, token, pricing, today);
      var r := w.pending[token];
      if r.work == DoCancel(i) {
        assert false;
      }
      if RunTx(w.db, r.work, pricing, today).Ok? {
        TxCancelsOnly(w.db, r.work, pricing, today, i);
      }
    }
  }

  lemma BoundKeepsBurned(w: World, i: nat, r: Request, pricing: Option<Pricing>, today: int)
    requires SlotInv(w) && StillBurned(w, i) && SessionOf(r.work).Some?
    ensures StillBurned(BoundTx(w, r, pricing, today).0, i)
  {
    BoundSlots(w, r, pricing, today);
    var held := WithSlot(w.db, r, w.nextToken);
    if RunTx(held, r.work, pricing, today).Ok? {
      TxCancelsOnly(held, r.work, pricing, today, i);
    }
  }

  lemma StepKeepsBurned(w: World, i: nat, s: Step)
    requires SlotInv(w) && StillBurned(w, i)
    ensures StillBurned(Do(w, s), i)
  {
    if s.Finish? {
      FinishKeepsBurned(w, i, s.token, s.pricing, s.today);
    } else if s.Bound? {
      if SessionOf(s.request.work).Some? {
        BoundKeepsBurned(w, i, s.request, s.pricing, s.today);
      }
    } else if !MovesSlots(s) {
      OtherStepsKeepSlots(w, s);
    }
  }

  /** Once burned, the sale is not canceled in any later state, by anybody. */
  lemma {:induction false} BurnedForever(w: World, i: nat, steps: seq<Step>)
    requires SlotInv(w) && StillBurned(w, i)
    ensures StillBurned(Run(w, steps), i)
  {
    if steps != [] {
      var init := steps[..|steps| - 1];
      BurnedForever(w, i, init);
      RunKeepsAnswers(w, init);
      StepKeepsBurned(Run(w, init), i, steps[|steps| - 1]);
    }
  }

  lemma CancelBegins(w: World, i: nat, hash: nat)
    requires i < |w.db.sales| && CancelKey(i) !in w.db.slots
    ensures var r, begun := Request(DoCancel(i), 0, hash), BeginWork(w, Request(DoCancel(i), 0, hash));
            && begun.db == WithSlot(w.db, r, w.nextToken) && begun.pending == w.pending[w.nextToken := r]
  {
  }

  /** The one attempt that holds the sale's key cancels it exactly when the transaction accepts it, and otherwise burns the key. */
  lemma CancelFinishes(w: World, token: Id, i: nat, hash: nat, pricing: Option<Pricing>, today: int)
    requires i < |w.db.sales| && w.db.sales[i].status != Canceled
    requires token in w.pending && w.pending[token] == Request(DoCancel(i), 0, hash) && HoldsSlot(w.db, CancelKey(i), token)
    ensures var x := FinishWork(w, token, pricing, today);
            && |x.db.sales| == |w.db.sales|
            && (x.db.sales[i].status == Canceled <==> CancelTx(w.db, i).Ok?)
            && (x.db.sales[i].status != Canceled ==> StillBurned(x, i))
  {
    if CancelTx(w.db, i).Ok? {
      assert CancelTx(w.db, i).value.0.sales[i].status == Canceled;
    }
  }

  /** The first cancellation of a sale decides: it cancels the sale exactly when the transaction accepts it,
      and a refusal burns the key, after which no retry can succeed. */
  lemma FirstCancelDecides(w: World, i: nat, hash: nat, pricing: Option<Pricing>, today: int)
    requires i < |w.db.sales| && w.db.sales[i].status != Canceled && CancelKey(i) !in w.db.slots
    ensures var begun := BeginWork(w, Request(DoCancel(i), 0, hash));
            var x := FinishWork(begun, w.nextToken, pricing, today);
            && |x.db.sales| == |w.db.sales|
            && (x.db.sales[i].status == Canceled <==> CancelTx(w.db, i).Ok?)
            && (x.db.sales[i].status != Canceled ==> StillBurned(x, i))
  {
    CancelBegins(w, i, hash);
    var begun := BeginWork(w, Request(DoCancel(i), 0, hash));
    SameRowsSameCancel(w.db, begun.db, i);
    CancelFinishes(begun, w.nextToken, i, hash, pricing, today);
  }

  lemma SameRowsSameCancel(db: Db, other: Db, i: nat)
    requires other == db.(slots := other.slots)
    ensures CancelTx(db, i).Ok? <==> CancelTx(other, i).Ok?
  {
  }

  // ----- Cash sessions -----

  /** Records are only appended, each in a session that was open and its actor's own when the step was taken. */
  ghost predicate Booked(db: Db, after: Db) {
    && db.ledger <= after.ledger
    && forall k :: |db.ledger| <= k < |after.ledger| ==> Writable(db, after.ledger[k].session, after.ledger[k].actor)
  }

  ghost predicate SessionsKept(db: Db, after: Db) {
    forall x :: x in db.sessions ==>
                  && x in after.sessions && after.sessions[x].owner == db.sessions[x].owner
                  && (!db.sessions[x].open ==> !after.sessions[x].open)
  }

  lemma {:induction false} TenderRowsMine(session: Id, actor: Id, saleId: nat, payments: seq<M.Payment>)
    ensures forall k :: 0 <= k < |TenderRows(session, actor, saleId, payments)| ==>
                          && TenderRows(session, actor, saleId, payments)[k].session == session
                          && TenderRows(session, actor, saleId, payments)[k].actor == actor
  {
    if payments != [] {
      TenderRowsMine(session, actor, saleId, payments[..|payments| - 1]);
    }
  }

  lemma PaymentRowsBooked(db: Db, after: Db, session: Option<Id>, actor: Id, saleId: nat, payments: seq<M.Payment>, changeCents: int)
    requires Fenced(db, session, actor)
    requires after.ledger == db.ledger + PaymentRows(session, actor, saleId, payments, changeCents)
    ensures Booked(db, after)
  {
    var rows := PaymentRows(session, actor, saleId, payments, changeCents);
    if session.Some? {
      TenderRowsMine(session.value, actor, saleId, payments);
    }
    forall k | |db.ledger| <= k < |after.ledger|
      ensures Writable(db, after.ledger[k].session, after.ledger[k].actor)
    {
      assert after.ledger[k] == rows[k - |db.ledger|];
    }
  }

  lemma TxBooks(db: Db, w: Work, pricing: Option<Pricing>, today: int)
    requires RunTx(db, w, pricing, today).Ok?
    ensures Booked(db, RunTx(db, w, pricing, today).value.0)
    ensures RunTx(db, w, pricing, today).value.0.sessions == db.sessions
  {
    var after := RunTx(db, w, pricing, today).value.0;
    match w
    case DoCharge(c) =>
      var row := after.sales[c.saleId];
      PaymentRowsBooked(db, after, c.session, c.actor, c.saleId, row.payments, row.changeCents);
    case DoPayment(p) =>
      var stored := M.StoredPayments(Tenders(p), |db.sales[p.saleId].payments|);
      PaymentRowsBooked(db, after, p.session, p.actor, p.saleId, stored, 0);
    case DoCancel(_) =>
    case DoSettle(_, _) =>
  }

  lemma FinishBooks(w: World, token: Id, pricing: Option<Pricing>, today: int)
    ensures Booked(w.db, FinishWork(w, token, pricing, today).db)
    ensures SessionsKept(w.db, FinishWork(w, token, pricing, today).db)
  {
    if token in w.pending && RunTx(w.db, w.pending[token].work, pricing, today).Ok? {
      TxBooks(w.db, w.pending[token].work, pricing, today);
    }
  }

  lemma BoundBooks(w: World, r: Request, pricing: Option<Pricing>, today: int)
    ensures Booked(w.db, BoundTx(w, r, pricing, today).0.db) && SessionsKept(w.db, BoundTx(w, r, pricing, today).0.db)
  {
    var held := WithSlot(w.db, r, w.nextToken);
    if RunTx(held, r.work, pricing, today).Ok? {
      TxBooks(held, r.work, pricing, today);
    }
  }

  lemma OtherStepsBook(w: World, s: Step)
    requires !s.Finish? && !s.Bound?
    ensures Do(w, s).db.ledger == w.db.ledger && SessionsKept(w.db, Do(w, s).db)
  {
    if s.ConfirmBot? {
      ConfirmBotAside(w, s.bot, s.pricing, s.today);
    }
  }

  /** A bot confirmation writes no ledger row and no session. */
  lemma ConfirmBotAside(w: World, r: BotRequest, pricing: Option<Pricing>, today: int)
    ensures var db := Do(w, ConfirmBot(r, pricing, today)).db;
            db.ledger == w.db.ledger && db.sessions == w.db.sessions && SalesKept(w.db, db)
  {
  }

  lemma StepBooks(w: World, s: Step)
    ensures Booked(w.db, Do(w, s).db) && SessionsKept(w.db, Do(w, s).db)
  {
    if s.Finish? {
      FinishBooks(w, s.token, s.pricing, s.today);
    } else if s.Bound? {
      BoundBooks(w, s.request, s.pricing, s.today);
    } else {
      OtherStepsBook(w, s);
    }
  }

  /** A session that stopped taking writes never takes another: its records are final in every later state. */
  lemma {:induction false} ClosedSessionIsFinal(w: World, steps: seq<Step>, session: Id)
    requires session in w.db.sessions && !w.db.sessions[session].open
    ensures var x := Run(w, steps);
            && session in x.db.sessions && !x.db.sessions[session].open
            && w.db.ledger <= x.db.ledger
            && forall k :: |w.db.ledger| <= k < |x.db.ledger| ==> x.db.ledger[k].session != session
  {
    if steps != [] {
      var init := steps[..|steps| - 1];
      ClosedSessionIsFinal(w, init, session);
      StepBooks(Run(w, init), steps[|steps| - 1]);
    }
  }

  // ----- Confirmed sales -----

  function Rank(s: Status): nat {
    match s
    case Draft => 0
    case Confirmed => 1
    case Canceled => 2
  }

  /** Status only moves forward, and what a confirmation wrote is never rewritten; payments are only added. */
  ghost predicate RowKept(a: SaleRow, b: SaleRow) {
    && a.owner == b.owner && a.quote == b.quote && Rank(a.status) <= Rank(b.status)
    && (a.status != Draft ==>
          && b.items == a.items && b.totalCents == a.totalCents && b.changeCents == a.changeCents
          && b.consumed == a.consumed && b.claims == a.claims && a.payments <= b.payments)
    && (a.status == Canceled ==> b == a)
  }

  ghost predicate SalesKept(db: Db, after: Db) {
    |db.sales| <= |after.sales| && forall i :: 0 <= i < |db.sales| ==> RowKept(db.sales[i], after.sales[i])
  }

  /** A transaction that writes at most one row writes it in keeping with its history. */
  lemma OneRowKept(db: Db, after: Db, i: nat)
    requires i < |db.sales| && |after.sales| == |db.sales| && after.sales == db.sales[i := after.sales[i]]
    requires RowKept(db.sales[i], after.sales[i])
    ensures SalesKept(db, after)
  {
  }

  lemma ChargeKeepsSales(db: Db, r: ChargeRequest, pricing: Option<Pricing>, today: int)
    requires ChargeTx(db, r, pricing, today).Ok?
    ensures SalesKept(db, ChargeTx(db, r, pricing, today).value.0)
  {
    OneRowKept(db, ChargeTx(db, r, pricing, today).value.0, r.saleId);
  }

  lemma PaymentKeepsSales(db: Db, r: PaymentRequest)
    requires PaymentTx(db, r).Ok?
    ensures SalesKept(db, PaymentTx(db, r).value.0)
  {
    OneRowKept(db, PaymentTx(db, r).value.0, r.saleId);
  }

  lemma CancelKeepsSales(db: Db, saleId: nat)
    requires CancelTx(db, saleId).Ok?
    ensures SalesKept(db, CancelTx(db, saleId).value.0)
  {
    OneRowKept(db, CancelTx(db, saleId).value.0, saleId);
  }

  lemma TxKeepsSales(db: Db, w: Work, pricing: Option<Pricing>, today: int)
    requires RunTx(db, w, pricing, today).Ok?
    ensures SalesKept(db, RunTx(db, w, pricing, today).value.0)
  {
    match w
    case DoCharge(c) => ChargeKeepsSales(db, c, pricing, today);
    case DoPayment(p) => PaymentKeepsSales(db, p);
    case DoCancel(saleId) => CancelKeepsSales(db, saleId);
    case DoSettle(_, _) =>
  }

  lemma FinishKeepsSales(w: World, token: Id, pricing: Option<Pricing>, today: int)
    ensures SalesKept(w.db, FinishWork(w, token, pricing, today).db)
  {
    if token in w.pending && RunTx(w.db, w.pending[token].work, pricing, today).Ok? {
      TxKeepsSales(w.db, w.pending[token].work, pricing, today);
    }
  }

  lemma BoundKeepsSales(w: World, r: Request, pricing: Option<Pricing>, today: int)
    ensures SalesKept(w.db, BoundTx(w, r, pricing, today).0.db)
  {
    var held := WithSlot(w.db, r, w.nextToken);
    if RunTx(held, r.work, pricing, today).Ok? {
      TxKeepsSales(held, r.work, pricing, today);
    }
  }

  lemma OtherStepsKeepSales(w: World, s: Step)
    requires !s.Finish? && !s.Bound?
    ensures SalesKept(w.db, Do(w, s).db)
  {
    if s.ConfirmBot? {
      ConfirmBotAside(w, s.bot, s.pricing, s.today);
    }
  }

  lemma StepKeepsSales(w: World, s: Step)
    ensures SalesKept(w.db, Do(w, s).db)
  {
    if s.Finish? {
      FinishKeepsSales(w, s.token, s.pricing, s.today);
    } else if s.Bound? {
      BoundKeepsSales(w, s.request, s.pricing, s.today);
    } else {
      OtherStepsKeepSales(w, s);
    }
  }

  lemma SalesKeptTrans(a: Db, b: Db, c: Db)
    requires SalesKept(a, b) && SalesKept(b, c)
    ensures SalesKept(a, c)
  {
    forall i | 0 <= i < |a.sales|
      ensures RowKept(a.sales[i], c.sales[i])
    {
      assert RowKept(a.sales[i], b.sales[i]) && RowKept(b.sales[i], c.sales[i]);
    }
  }

  /** In every run a sale goes draft, confirmed, canceled at most once each, and its confirmation is never rewritten. */
  lemma {:induction false} RunKeepsSales(w: World, steps: seq<Step>)
    ensures SalesKept(w.db, Run(w, steps).db)
  {
    if steps != [] {
      var init := steps[..|steps| - 1];
      RunKeepsSales(w, init);
      StepKeepsSales(Run(w, init), steps[|steps| - 1]);
      SalesKeptTrans(w.db, Run(w, init).db, Run(w, steps).db);
    }
  }
}
