/** What every sale transaction keeps: money, stock, promotion units, quotes, refunds and the cash ledger. */
module SaleInvariants {
  import opened Common
  import opened StockJournal
  import opened SaleStock
  import opened SaleStore
  import M = Settlement

  // ----- Money -----

  ghost predicate PaymentsOk(payments: seq<M.Payment>) {
    forall i :: 0 <= i < |payments| ==>
                  payments[i].paymentId == i && payments[i].tender.Known? && 0 <= payments[i].amountCents
  }

  /** What is stored of a sale's money always adds up. */
  ghost predicate MoneyOk(s: SaleRow) {
    && PaymentsOk(s.payments)
    && (s.status == Draft ==> s.payments == [])
    && (s.status != Draft ==>
          && 0 <= s.paidCents <= s.totalCents && 0 <= s.changeCents
          && Sum(M.Values(s.payments)) == s.paidCents + s.changeCents
          && (s.changeCents > 0 ==> s.paidCents == s.totalCents))
    && (s.status == Confirmed ==> s.paidCents + s.debtCents == s.totalCents)
  }

  ghost predicate MoneyInv(sales: seq<SaleRow>) {
    forall i :: 0 <= i < |sales| ==> MoneyOk(sales[i])
  }

  lemma {:induction false} PositiveSumIsSum(payments: seq<M.Payment>)
    requires forall p :: p in payments ==> 0 <= p.amountCents
    ensures M.PositiveSum(payments) == Sum(M.Values(payments))
  {
    if payments != [] {
      var n := |payments| - 1;
      PositiveSumIsSum(payments[..n]);
      assert payments[n] in payments;
      assert M.Values(payments)[..n] == M.Values(payments[..n]);
    }
  }

  /** Normalized tenders: no negative amounts, and credit only alone. */
  predicate EntriesOk(entries: seq<M.Entry>) {
    && (forall e :: e in entries ==> 0 <= e.amountCents)
    && (M.HasMethod(entries, M.Credit) ==> |entries| == 1)
  }

  ghost predicate Numbered(payments: seq<M.Payment>, first: nat) {
    forall i :: 0 <= i < |payments| ==>
                  payments[i].paymentId == first + i && payments[i].tender.Known? && 0 <= payments[i].amountCents
  }

  ghost predicate PlainEntries(entries: seq<M.Entry>) {
    forall i :: 0 <= i < |entries| ==> 0 <= entries[i].amountCents && entries[i].tender != M.Credit
  }

  lemma {:induction false} StoredIds(entries: seq<M.Entry>, first: nat)
    requires PlainEntries(entries)
    ensures |M.StoredPayments(entries, first)| == |entries| && Numbered(M.StoredPayments(entries, first), first)
  {
    if entries != [] {
      StoredIds(entries[..|entries| - 1], first);
    }
  }

  lemma {:induction false} StoredSum(entries: seq<M.Entry>, first: nat)
    requires PlainEntries(entries)
    ensures Sum(M.Values(M.StoredPayments(entries, first))) == M.Tendered(entries)
  {
    if entries != [] {
      var n := |entries| - 1;
      StoredSum(entries[..n], first);
      var rest := M.StoredPayments(entries[..n], first);
      var p := M.Payment(first + n, M.Known(entries[n].tender), entries[n].amountCents);
      assert M.Values(rest + [p]) == M.Values(rest) + [p.amountCents];
      SumSnoc(M.Values(rest), p.amountCents);
      assert M.Amounts(entries)[..n] == M.Amounts(entries[..n]);
    }
  }

  lemma StoredCharge(entries: seq<M.Entry>)
    requires EntriesOk(entries) && (M.HasMethod(entries, M.Credit) ==> M.Tendered(entries) == 0)
    ensures PaymentsOk(M.StoredPayments(entries, 0)) && Sum(M.Values(M.StoredPayments(entries, 0))) == M.Tendered(entries)
  {
    if M.HasMethod(entries, M.Credit) {
      assert entries[0].tender == M.Credit;
      assert M.StoredPayments(entries[..0], 0) == [];
      assert M.StoredPayments(entries, 0) == [];
    } else {
      assert forall i :: 0 <= i < |entries| ==> entries[i] in entries;
      StoredIds(entries, 0);
      StoredSum(entries, 0);
    }
  }

  lemma ChargeKeepsMoney(db: Db, r: ChargeRequest, pricing: Option<Pricing>, today: int)
    requires MoneyInv(db.sales) && EntriesOk(r.entries) && ChargeTx(db, r, pricing, today).Ok?
    ensures MoneyInv(ChargeTx(db, r, pricing, today).value.0.sales)
  {
    var sale, p := db.sales[r.saleId], pricing.value;
    M.SettlementBalances(p.totalCents, sale.hasCustomer, r.entries);
    StoredCharge(r.entries);
  }

  predicate CollectionOk(r: PaymentRequest) {
    r.entries != [] && forall e :: e in r.entries ==> 0 < e.amountCents && e.tender != M.Credit
  }

  lemma {:induction false} TendersSum(r: PaymentRequest)
    ensures M.Tendered(Tenders(r)) == M.Tendered(r.entries)
  {
    assert M.Amounts(Tenders(r)) == M.Amounts(r.entries);
  }

  lemma TendersStored(r: PaymentRequest, first: nat)
    requires CollectionOk(r)
    ensures var stored := M.StoredPayments(Tenders(r), first);
            && Numbered(stored, first) && |stored| == |r.entries|
            && Sum(M.Values(stored)) == M.Tendered(r.entries) && 0 <= Sum(M.Values(stored))
  {
    assert forall i :: 0 <= i < |r.entries| ==> r.entries[i] in r.entries;
    assert PlainEntries(Tenders(r));
    StoredIds(Tenders(r), first);
    StoredSum(Tenders(r), first);
    TendersSum(r);
    SumNonNegative(M.Values(M.StoredPayments(Tenders(r), first)));
  }

  lemma NumberedAppend(a: seq<M.Payment>, b: seq<M.Payment>)
    requires PaymentsOk(a) && Numbered(b, |a|)
    ensures PaymentsOk(a + b)
  {
  }

  lemma CollectionKeepsMoneyOk(sale: SaleRow, r: PaymentRequest)
    requires MoneyOk(sale) && sale.status == Confirmed && CollectionOk(r)
    requires Sum(M.Values(sale.payments)) + M.Tendered(r.entries) <= sale.totalCents
    requires Sum(M.Values(sale.payments)) < sale.totalCents
    ensures var row := WithPayments(sale, M.StoredPayments(Tenders(r), |sale.payments|));
            && MoneyOk(row) && row.paidCents == sale.paidCents + M.Tendered(r.entries)
            && row.debtCents == sale.debtCents - M.Tendered(r.entries)
  {
    var stored := M.StoredPayments(Tenders(r), |sale.payments|);
    TendersStored(r, |sale.payments|);
    NumberedAppend(sale.payments, stored);
    assert M.Values(sale.payments + stored) == M.Values(sale.payments) + M.Values(stored);
    SumAppend(M.Values(sale.payments), M.Values(stored));
  }

  /** A collection pays the debt down by exactly what was tendered, never past zero. */
  lemma PaymentKeepsMoney(db: Db, r: PaymentRequest)
    requires MoneyInv(db.sales) && CollectionOk(r) && PaymentTx(db, r).Ok?
    ensures var after := PaymentTx(db, r).value.0.sales;
            && MoneyInv(after)
            && after[r.saleId].debtCents == db.sales[r.saleId].debtCents - M.Tendered(r.entries)
            && 0 <= after[r.saleId].debtCents
  {
    CollectionKeepsMoneyOk(db.sales[r.saleId], r);
  }

  lemma CancelKeepsMoney(db: Db, saleId: nat)
    requires MoneyInv(db.sales) && CancelTx(db, saleId).Ok?
    ensures MoneyInv(CancelTx(db, saleId).value.0.sales)
  {
  }

  /** The refunds of a stored sale never fail to add up. */
  lemma RefundsNeverFail(s: SaleRow)
    requires MoneyOk(s) && s.status == Confirmed
    ensures !RefundsFail(s)
  {
    assert forall p :: p in s.payments ==> 0 <= p.amountCents && p.tender.Known?;
    PositiveSumIsSum(s.payments);
  }

  // ----- Stock -----

  /** What one sale currently holds out of a bucket (a negative number of units on the shelf). */
  function HeldBy(s: SaleRow, b: Bucket): int {
    if s.status == Confirmed then SumOn(s.consumed, b) else 0
  }

  function Held(sales: seq<SaleRow>, b: Bucket): (r: seq<int>)
    ensures |r| == |sales| && forall i :: 0 <= i < |r| ==> r[i] == HeldBy(sales[i], b)
  {
    seq(|sales|, i requires 0 <= i < |sales| => HeldBy(sales[i], b))
  }

  predicate Conserved(db: Db, opening: Stock, b: Bucket) {
    Quantity(db.stock, b) == Quantity(opening, b) + SumOn(db.adjusted, b) + Sum(Held(db.sales, b))
  }

  ghost predicate StockInv(db: Db, opening: Stock) {
    && ValidStock(db.stock) && SameShapes(opening, db.stock)
    && (forall i :: 0 <= i < |db.sales| ==> Outgoing(db.stock, db.sales[i].consumed))
    && forall b :: Conserved(db, opening, b)
  }

  lemma HeldReplaced(sales: seq<SaleRow>, i: nat, row: SaleRow, b: Bucket)
    requires i < |sales|
    ensures Sum(Held(sales[i := row], b)) == Sum(Held(sales, b)) - HeldBy(sales[i], b) + HeldBy(row, b)
  {
    assert Held(sales[i := row], b) == Held(sales, b)[i := HeldBy(row, b)];
    SumUpdate(Held(sales, b), i, HeldBy(row, b));
  }

  lemma HeldAppended(sales: seq<SaleRow>, row: SaleRow, b: Bucket)
    ensures Sum(Held(sales + [row], b)) == Sum(Held(sales, b)) + HeldBy(row, b)
  {
    assert Held(sales + [row], b) == Held(sales, b) + [HeldBy(row, b)];
    SumSnoc(Held(sales, b), HeldBy(row, b));
  }

  lemma OutgoingKept(db: Db, t: Stock)
    requires forall i :: 0 <= i < |db.sales| ==> Outgoing(db.stock, db.sales[i].consumed)
    requires SameShapes(db.stock, t)
    ensures forall i :: 0 <= i < |db.sales| ==> Outgoing(t, db.sales[i].consumed)
  {
    forall i | 0 <= i < |db.sales|
      ensures Outgoing(t, db.sales[i].consumed)
    {
      OutgoingTransfers(db.stock, t, db.sales[i].consumed);
    }
  }

  /** Replacing one row and posting the difference of what it holds conserves every bucket. */
  lemma ReplacedRowConserves(db: Db, opening: Stock, i: nat, row: SaleRow, t: Stock, ms: seq<Movement>, after: Db)
    requires StockInv(db, opening) && i < |db.sales| && Posted(db.stock, t, ms)
    requires forall b :: SumOn(ms, b) == HeldBy(row, b) - HeldBy(db.sales[i], b)
    requires Outgoing(t, row.consumed)
    requires after.sales == db.sales[i := row] && after.stock == t && after.adjusted == db.adjusted
    ensures StockInv(after, opening)
  {
    OutgoingKept(db, t);
    SameShapesTrans(opening, db.stock, t);
    forall b
      ensures Conserved(after, opening, b)
    {
      assert Conserved(db, opening, b) && MovesAt(db.stock, t, ms, b);
      HeldReplaced(db.sales, i, row, b);
    }
  }

  lemma ChargeKeepsStock(db: Db, opening: Stock, r: ChargeRequest, pricing: Option<Pricing>, today: int)
    requires StockInv(db, opening) && ChargeTx(db, r, pricing, today).Ok?
    ensures StockInv(ChargeTx(db, r, pricing, today).value.0, opening)
  {
    var after := ChargeTx(db, r, pricing, today).value.0;
    var sale := db.sales[r.saleId];
    var a := ChargeItems(db.stock, sale.items, today).value;
    ChargePosted(db.stock, sale.items, today);
    OutgoingTransfers(db.stock, a.stock, a.movements);
    ReplacedRowConserves(db, opening, r.saleId, after.sales[r.saleId], a.stock, a.movements, after);
  }

  lemma CancelKeepsStock(db: Db, opening: Stock, saleId: nat)
    requires StockInv(db, opening) && CancelTx(db, saleId).Ok?
    ensures StockInv(CancelTx(db, saleId).value.0, opening)
  {
    var after := CancelTx(db, saleId).value.0;
    var sale := db.sales[saleId];
    if sale.status == Confirmed {
      var a := ReverseSale(db.stock, sale.consumed).value;
      ReversePosted(db.stock, sale.consumed);
      OutgoingTransfers(db.stock, a.stock, sale.consumed);
      forall b
        ensures SumOn(a.movements, b) == -SumOn(sale.consumed, b)
      {
        GivenBackIsDrawn(db.stock, sale.consumed, b);
      }
      ReplacedRowConserves(db, opening, saleId, after.sales[saleId], a.stock, a.movements, after);
    }
  }

  /** In every reachable state the stock accepts the reversal of every confirmed sale. */
  lemma ReversalNeverRefused(db: Db, opening: Stock, saleId: nat)
    requires StockInv(db, opening) && saleId < |db.sales|
    ensures ReverseSale(db.stock, db.sales[saleId].consumed).Ok?
  {
    ReverseSucceedsIff(db.stock, db.sales[saleId].consumed);
  }

  lemma ConfirmBotKeepsStock(db: Db, opening: Stock, r: BotRequest, pricing: Option<Pricing>, now: int, today: int)
    requires StockInv(db, opening) && ConfirmBotTx(db, r, pricing, now, today).Ok?
    ensures StockInv(ConfirmBotTx(db, r, pricing, now, today).value, opening)
  {
    var after := ConfirmBotTx(db, r, pricing, now, today).value;
    var a := ChargeItems(db.stock, r.items, today).value;
    ChargePosted(db.stock, r.items, today);
    OutgoingTransfers(db.stock, a.stock, a.movements);
    OutgoingKept(db, a.stock);
    SameShapesTrans(opening, db.stock, a.stock);
    forall b
      ensures Conserved(after, opening, b)
    {
      assert Conserved(db, opening, b) && MovesAt(db.stock, a.stock, a.movements, b);
      HeldAppended(db.sales, after.sales[|db.sales|], b);
    }
  }

  // ----- Promotion units -----

  function UnitsOf(s: SaleRow, p: Id): nat {
    if s.status == Confirmed then Units(s.claims, p) else 0
  }

  function LiveUnits(sales: seq<SaleRow>, p: Id): (r: seq<int>)
    ensures |r| == |sales| && forall i :: 0 <= i < |r| ==> r[i] == UnitsOf(sales[i], p)
  {
    seq(|sales|, i requires 0 <= i < |sales| => UnitsOf(sales[i], p))
  }

  /** The counter is its opening value plus the claims of the live confirmed sales, and within its limit. */
  predicate Counted(db: Db, opening: map<Id, nat>, p: Id)
    requires p in db.promotions && p in opening
  {
    && db.promotions[p].consumed == opening[p] + Sum(LiveUnits(db.sales, p))
    && Fits(db.promotions[p], 0)
  }

  ghost predicate PromotionInv(db: Db, opening: map<Id, nat>) {
    && db.promotions.Keys <= opening.Keys
    && (forall p :: p in db.promotions ==> Counted(db, opening, p))
    && forall i :: 0 <= i < |db.sales| ==> db.sales[i].claims.Keys <= db.promotions.Keys
  }

  lemma UnitsReplaced(sales: seq<SaleRow>, i: nat, row: SaleRow, p: Id)
    requires i < |sales|
    ensures Sum(LiveUnits(sales[i := row], p)) == Sum(LiveUnits(sales, p)) - UnitsOf(sales[i], p) + UnitsOf(row, p)
  {
    assert LiveUnits(sales[i := row], p) == LiveUnits(sales, p)[i := UnitsOf(row, p)];
    SumUpdate(LiveUnits(sales, p), i, UnitsOf(row, p));
  }

  lemma UnitsAppended(sales: seq<SaleRow>, row: SaleRow, p: Id)
    ensures Sum(LiveUnits(sales + [row], p)) == Sum(LiveUnits(sales, p)) + UnitsOf(row, p)
  {
    assert LiveUnits(sales + [row], p) == LiveUnits(sales, p) + [UnitsOf(row, p)];
    SumSnoc(LiveUnits(sales, p), UnitsOf(row, p));
  }

  lemma ClaimKeepsCounter(promotions: map<Id, Counter>, claims: map<Id, Positive>, p: Id)
    requires ClaimsFit(promotions, claims) && p in promotions && Fits(promotions[p], 0)
    ensures p in Claimed(promotions, claims) && Fits(Claimed(promotions, claims)[p], 0)
  {
  }

  lemma ChargeKeepsPromotions(db: Db, opening: map<Id, nat>, r: ChargeRequest, pricing: Option<Pricing>, today: int)
    requires PromotionInv(db, opening) && ChargeTx(db, r, pricing, today).Ok?
    ensures PromotionInv(ChargeTx(db, r, pricing, today).value.0, opening)
  {
    var after := ChargeTx(db, r, pricing, today).value.0;
    var claims := pricing.value.claims;
    assert after.promotions.Keys == db.promotions.Keys;
    forall p | p in after.promotions
      ensures Counted(after, opening, p)
    {
      assert Counted(db, opening, p);
      ClaimKeepsCounter(db.promotions, claims, p);
      UnitsReplaced(db.sales, r.saleId, after.sales[r.saleId], p);
    }
  }

  lemma ConfirmBotKeepsPromotions(db: Db, opening: map<Id, nat>, r: BotRequest, pricing: Option<Pricing>, now: int, today: int)
    requires PromotionInv(db, opening) && ConfirmBotTx(db, r, pricing, now, today).Ok?
    ensures PromotionInv(ConfirmBotTx(db, r, pricing, now, today).value, opening)
  {
    var after := ConfirmBotTx(db, r, pricing, now, today).value;
    var claims := pricing.value.claims;
    assert after.promotions.Keys == db.promotions.Keys;
    forall p | p in after.promotions
      ensures Counted(after, opening, p)
    {
      assert Counted(db, opening, p);
      ClaimKeepsCounter(db.promotions, claims, p);
      UnitsAppended(db.sales, after.sales[|db.sales|], p);
    }
  }

  /** In every reachable state the counters cover what a confirmed sale claimed, so a cancellation can give it back. */
  lemma RestoreNeverMismatches(db: Db, opening: map<Id, nat>, saleId: nat)
    requires PromotionInv(db, opening) && saleId < |db.sales| && db.sales[saleId].status == Confirmed
    ensures Restorable(db.promotions, db.sales[saleId].claims)
  {
    var claims := db.sales[saleId].claims;
    forall p | p in claims
      ensures p in db.promotions && claims[p] <= db.promotions[p].consumed
    {
      assert Counted(db, opening, p);
      SumNonNegative(LiveUnits(db.sales, p));
      assert LiveUnits(db.sales, p)[saleId] == claims[p];
    }
  }

  lemma CancelKeepsPromotions(db: Db, opening: map<Id, nat>, saleId: nat)
    requires PromotionInv(db, opening) && CancelTx(db, saleId).Ok?
    ensures PromotionInv(CancelTx(db, saleId).value.0, opening)
  {
    var after := CancelTx(db, saleId).value.0;
    var sale := db.sales[saleId];
    if sale.status == Confirmed {
      assert after.promotions.Keys == db.promotions.Keys;
      forall p | p in after.promotions
        ensures Counted(after, opening, p)
      {
        assert Counted(db, opening, p);
        UnitsReplaced(db.sales, saleId, after.sales[saleId], p);
      }
    }
  }

  // ----- Canceling always works -----

  /** With the stored rows in order, exactly the business rules can refuse a cancellation. */
  lemma CancelSucceedsIff(db: Db, stock: Stock, counters: map<Id, nat>, saleId: nat)
    requires MoneyInv(db.sales) && StockInv(db, stock) && PromotionInv(db, counters)
    ensures CancelTx(db, saleId).Ok? <==>
            && saleId < |db.sales|
            && var s := db.sales[saleId];
               s.status == Canceled || (s.status == Confirmed && s.delivery != Shipped && s.delivery != Delivered)
  {
    if saleId < |db.sales| && db.sales[saleId].status == Confirmed {
      ReversalNeverRefused(db, stock, saleId);
      RefundsNeverFail(db.sales[saleId]);
      RestoreNeverMismatches(db, counters, saleId);
    }
  }

  // ----- Refund obligations -----

  ghost predicate RefundOk(r: RefundRow) {
    && (forall i :: 0 <= i < |r.settlements| ==> 0 < r.settlements[i])
    && Sum(r.settlements) <= r.amountCents
  }

  function OwedFor(refunds: seq<RefundRow>, saleId: nat): (r: seq<int>)
    ensures |r| == |refunds| && forall i :: 0 <= i < |r| ==> r[i] == if refunds[i].saleId == saleId then refunds[i].amountCents else 0
  {
    seq(|refunds|, i requires 0 <= i < |refunds| => if refunds[i].saleId == saleId then refunds[i].amountCents else 0)
  }

  /** A canceled sale owes back exactly what was paid on it; any other sale owes nothing back. */
  predicate Owed(db: Db, i: nat)
    requires i < |db.sales|
  {
    Sum(OwedFor(db.refunds, i)) == if db.sales[i].status == Canceled then db.sales[i].paidCents else 0
  }

  ghost predicate RefundInv(db: Db) {
    && (forall k :: 0 <= k < |db.refunds| ==> RefundOk(db.refunds[k]) && db.refunds[k].saleId < |db.sales|)
    && forall i :: 0 <= i < |db.sales| ==> Owed(db, i)
  }

  lemma FrontValue(payments: seq<M.Payment>)
    requires payments != []
    ensures Sum(M.Values(payments)) == payments[0].amountCents + Sum(M.Values(payments[1..]))
  {
    SumFromFront(M.Values(payments));
    assert M.Values(payments)[1..] == M.Values(payments[1..]);
  }

  lemma FrontRefund(first: M.Refund, rest: seq<M.Refund>)
    ensures Sum(M.RefundValues([first] + rest)) == first.amountCents + Sum(M.RefundValues(rest))
  {
    SumFromFront(M.RefundValues([first] + rest));
    assert M.RefundValues([first] + rest)[1..] == M.RefundValues(rest);
  }

  ghost predicate AllPositive(refunds: seq<M.Refund>) {
    forall i :: 0 <= i < |refunds| ==> 0 < refunds[i].amountCents
  }

  ghost predicate Refundable(positives: seq<M.Payment>) {
    forall i :: 0 <= i < |positives| ==> positives[i].tender.Known? && 0 < positives[i].amountCents
  }

  lemma {:induction false} SpreadPositive(positives: seq<M.Payment>, remaining: int)
    requires Refundable(positives)
    ensures AllPositive(M.Spread(positives, remaining))
  {
    if positives != [] && remaining > 0 {
      var p := positives[0];
      SpreadPositive(positives[1..], remaining - if p.amountCents < remaining then p.amountCents else remaining);
    }
  }

  lemma {:induction false} SpreadSum(positives: seq<M.Payment>, remaining: nat)
    requires Refundable(positives) && remaining <= Sum(M.Values(positives))
    ensures Sum(M.RefundValues(M.Spread(positives, remaining))) == remaining
  {
    if positives != [] {
      var p := positives[0];
      FrontValue(positives);
      SumNonNegative(M.Values(positives[1..]));
      if remaining > 0 {
        var amount := M.HeadAmount(positives, remaining);
        var rest := M.Spread(positives[1..], remaining - amount);
        SpreadSum(positives[1..], remaining - amount);
        assert M.Spread(positives, remaining) == [M.Refund(p.paymentId, p.tender.tender, amount)] + rest;
        FrontRefund(M.Refund(p.paymentId, p.tender.tender, amount), rest);
      }
    }
  }

  lemma CancelRefundsExact(s: SaleRow)
    requires MoneyOk(s) && s.status == Confirmed
    ensures var refunds := M.Spread(M.Positives(s.payments), s.paidCents);
            Sum(M.RefundValues(refunds)) == s.paidCents && AllPositive(refunds)
  {
    assert forall p :: p in s.payments ==> 0 <= p.amountCents && p.tender.Known?;
    PositivesSum(s.payments);
    PositiveSumIsSum(s.payments);
    var positives := M.Positives(s.payments);
    assert forall i :: 0 <= i < |positives| ==> positives[i] in positives;
    SpreadSum(positives, s.paidCents);
    SpreadPositive(positives, s.paidCents);
  }

  lemma {:induction false} PositivesSum(payments: seq<M.Payment>)
    ensures Sum(M.Values(M.Positives(payments))) == M.PositiveSum(payments)
  {
    if payments != [] {
      var n := |payments| - 1;
      PositivesSum(payments[..n]);
      var rest := M.Positives(payments[..n]);
      if payments[n].amountCents > 0 {
        assert M.Values(rest + [payments[n]]) == M.Values(rest) + [payments[n].amountCents];
        SumSnoc(M.Values(rest), payments[n].amountCents);
      }
    }
  }

  lemma OwedAppended(refunds: seq<RefundRow>, saleId: nat, added: seq<M.Refund>, i: nat)
    ensures Sum(OwedFor(refunds + RefundRows(saleId, added), i)) ==
            Sum(OwedFor(refunds, i)) + if i == saleId then Sum(M.RefundValues(added)) else 0
  {
    var rows := RefundRows(saleId, added);
    assert OwedFor(refunds + rows, i) == OwedFor(refunds, i) + OwedFor(rows, i);
    SumAppend(OwedFor(refunds, i), OwedFor(rows, i));
    if i == saleId {
      assert OwedFor(rows, i) == M.RefundValues(added);
    } else {
      SumZero(OwedFor(rows, i));
    }
  }

  lemma CancelKeepsRefunds(db: Db, saleId: nat)
    requires MoneyInv(db.sales) && RefundInv(db) && CancelTx(db, saleId).Ok?
    ensures RefundInv(CancelTx(db, saleId).value.0)
  {
    var after := CancelTx(db, saleId).value.0;
    var sale := db.sales[saleId];
    if sale.status == Confirmed {
      var refunds := M.Spread(M.Positives(sale.payments), sale.paidCents);
      CancelRefundsExact(sale);
      assert after.sales == db.sales[saleId := after.sales[saleId]];
      CanceledOwes(db, after, saleId, refunds);
    }
  }

  lemma CanceledOwes(db: Db, after: Db, saleId: nat, refunds: seq<M.Refund>)
    requires RefundInv(db) && saleId < |db.sales| && db.sales[saleId].status != Canceled
    requires |after.sales| == |db.sales| && after.sales == db.sales[saleId := after.sales[saleId]]
    requires after.sales[saleId].status == Canceled && after.refunds == db.refunds + RefundRows(saleId, refunds)
    requires AllPositive(refunds) && Sum(M.RefundValues(refunds)) == after.sales[saleId].paidCents
    ensures RefundInv(after)
  {
    NewRefundsOk(db.refunds, saleId, refunds, |db.sales|);
    forall i | 0 <= i < |after.sales|
      ensures Owed(after, i)
    {
      assert Owed(db, i);
      OwedAppended(db.refunds, saleId, refunds, i);
    }
  }

  lemma NewRefundsOk(rows: seq<RefundRow>, saleId: nat, added: seq<M.Refund>, sales: nat)
    requires saleId < sales && AllPositive(added)
    requires forall k :: 0 <= k < |rows| ==> RefundOk(rows[k]) && rows[k].saleId < sales
    ensures var all := rows + RefundRows(saleId, added);
            forall k :: 0 <= k < |all| ==> RefundOk(all[k]) && all[k].saleId < sales
  {
  }

  /** Settlements of one refund never add up to more than it owes, whatever keys and retries brought them. */
  lemma SettleKeepsRefunds(db: Db, r: SettleRequest)
    requires RefundInv(db) && SettleTx(db, r).Ok?
    ensures RefundInv(SettleTx(db, r).value.0)
  {
    var after := SettleTx(db, r).value.0;
    SumSnoc(db.refunds[r.refundId].settlements, r.amountCents);
    forall i | 0 <= i < |after.sales|
      ensures Owed(after, i)
    {
      assert Owed(db, i);
      assert OwedFor(after.refunds, i) == OwedFor(db.refunds, i);
    }
  }

  // ----- Quotes -----

  ghost predicate QuoteInv(sales: seq<SaleRow>) {
    forall i, j :: 0 <= i < j < |sales| && sales[i].quote.Some? ==> sales[i].quote != sales[j].quote
  }

  // ----- Outbox -----

  predicate Announced(db: Db, i: nat) {
    && multiset(db.outbox)[SaleConfirmed(i)] == (if i < |db.sales| && db.sales[i].status != Draft then 1 else 0)
    && multiset(db.outbox)[SaleCanceled(i)] == (if i < |db.sales| && db.sales[i].status == Canceled then 1 else 0)
  }

  /** Each sale was confirmed at most once and canceled at most once, as its status says. */
  ghost predicate OutboxInv(db: Db) {
    forall i: nat :: Announced(db, i)
  }

  lemma AnnouncedNext(db: Db, after: Db, e: Event, j: nat)
    requires OutboxInv(db) && after.outbox == db.outbox + [e]
    requires forall i: nat :: i < |db.sales| && i != j ==> i < |after.sales| && after.sales[i].status == db.sales[i].status
    requires |db.sales| <= |after.sales| && j < |after.sales| && |after.sales| <= (if j == |db.sales| then j + 1 else |db.sales|)
    requires match e
             case SaleConfirmed(i) => i == j && after.sales[j].status == Confirmed && (j < |db.sales| ==> db.sales[j].status == Draft)
             case SaleCanceled(i) => i == j && j < |db.sales| && db.sales[j].status == Confirmed && after.sales[j].status == Canceled
    ensures OutboxInv(after)
  {
    forall i: nat
      ensures Announced(after, i)
    {
      assert Announced(db, i);
      assert multiset(after.outbox) == multiset(db.outbox) + multiset{e};
    }
  }
}
