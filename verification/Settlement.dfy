/** Tender, change, debt, payment events and refunds: the money arithmetic of src/sales/sales.service.ts. */
module Settlement {
  import opened Common

  datatype Method = Cash | CardCredit | CardDebit | Transfer | Credit

  /** A method as it arrives: one of the supported names or anything else. */
  datatype RawMethod = Known(tender: Method) | Unknown

  datatype RawEntry = RawEntry(tender: RawMethod, amountCents: int)

  /** The legacy shape is `method` + `amountCents`; the other shape is `payments`. */
  datatype ChargeRequest = ChargeRequest(tender: Option<RawMethod>, amountCents: Option<int>, payments: Option<seq<RawEntry>>)

  datatype Entry = Entry(tender: Method, amountCents: int)

  datatype ChargeError =
    | AmbiguousPaymentShape
    | TooManyPayments
    | PaymentMethodNotSupported
    | CreditMethodNotValidInMulti
    | InvalidCreditCharge
    | PaymentAmountInvalid
    | CustomerRequiredForCredit
    | PaymentAmountInsufficient

  datatype PaymentStatus = Paid | Partial | OnCredit

  datatype Charge = Charge(paidCents: int, debtCents: int, changeCents: int, status: PaymentStatus)

  const MAX_PAYMENTS := 5

  // ----- Request shapes -----

  function NormalizeEntries(entries: seq<RawEntry>): Result<seq<Entry>, ChargeError> {
    if entries == [] then Ok([])
    else
      match NormalizeEntries(entries[..|entries| - 1])
      case Err(e) => Err(e)
      case Ok(done) =>
        var entry := entries[|entries| - 1];
        if entry.tender.Unknown? then Err(PaymentMethodNotSupported)
        else if entry.tender.tender == Credit then Err(CreditMethodNotValidInMulti)
        else Ok(done + [Entry(entry.tender.tender, entry.amountCents)])
  }

  function Normalize(r: ChargeRequest): Result<seq<Entry>, ChargeError> {
    if (r.tender.Some? || r.amountCents.Some?) && r.payments.Some? then Err(AmbiguousPaymentShape)
    else if r.payments.Some? then
      if |r.payments.value| > MAX_PAYMENTS then Err(TooManyPayments) else NormalizeEntries(r.payments.value)
    else if r.tender.None? || r.amountCents.None? || r.tender.value.Unknown? then Err(PaymentMethodNotSupported)
    else Ok([Entry(r.tender.value.tender, r.amountCents.value)])
  }

  lemma {:induction false} EntriesNormalize(entries: seq<RawEntry>)
    ensures NormalizeEntries(entries).Ok? <==> forall e :: e in entries ==> e.tender.Known? && e.tender.tender != Credit
    ensures NormalizeEntries(entries).Ok? ==>
              var done := NormalizeEntries(entries).value;
              && |done| == |entries|
              && forall i :: 0 <= i < |done| ==> Known(done[i].tender) == entries[i].tender && done[i].tender != Credit
                                                 && done[i].amountCents == entries[i].amountCents
  {
    if entries != [] {
      EntriesNormalize(entries[..|entries| - 1]);
    }
  }

  /** A normalized request has at most five entries, and credit never travels with another tender. */
  lemma CreditTravelsAlone(r: ChargeRequest)
    requires Normalize(r).Ok?
    ensures |Normalize(r).value| <= MAX_PAYMENTS
    ensures HasMethod(Normalize(r).value, Credit) ==> |Normalize(r).value| == 1
  {
    if r.payments.Some? {
      EntriesNormalize(r.payments.value);
    }
  }

  // ----- Charging -----

  function Amounts(entries: seq<Entry>): (r: seq<int>)
    ensures |r| == |entries| && forall i :: 0 <= i < |r| ==> r[i] == entries[i].amountCents
  {
    seq(|entries|, i requires 0 <= i < |entries| => entries[i].amountCents)
  }

  predicate HasMethod(entries: seq<Entry>, tender: Method) {
    exists e :: e in entries && e.tender == tender
  }

  function Tendered(entries: seq<Entry>): int {
    Sum(Amounts(entries))
  }

  /** The checks of a charge in the order the code makes them, then the amounts it persists. */
  function Settle(totalCents: int, hasCustomer: bool, entries: seq<Entry>): Result<Charge, ChargeError> {
    var tendered := Tendered(entries);
    var cash, credit := HasMethod(entries, Cash), HasMethod(entries, Credit);
    if credit && |entries| > 1 then Err(InvalidCreditCharge)
    else if credit && tendered != 0 then Err(InvalidCreditCharge)
    else if !cash && tendered > totalCents then Err(PaymentAmountInvalid)
    else if tendered < 0 then Err(PaymentAmountInvalid)
    else if tendered < totalCents && !hasCustomer then Err(CustomerRequiredForCredit)
    else if !credit && tendered < totalCents && tendered <= 0 && |entries| > 0 then Err(PaymentAmountInvalid)
    else if tendered < totalCents && tendered > 0 && !cash then Err(PaymentAmountInsufficient)
    else
      var paid := if tendered < totalCents then tendered else totalCents;
      var status := if paid == totalCents then Paid else if paid == 0 then OnCredit else Partial;
      Ok(Charge(paid, totalCents - paid, if cash && status == Paid then tendered - totalCents else 0, status))
  }

  /** Which charges are accepted, said without the order of the checks. */
  predicate Acceptable(totalCents: int, hasCustomer: bool, entries: seq<Entry>) {
    var tendered := Tendered(entries);
    && 0 <= tendered
    && (HasMethod(entries, Credit) ==> |entries| == 1 && tendered == 0)
    && (tendered > totalCents ==> HasMethod(entries, Cash))
    && (tendered < totalCents ==>
          && hasCustomer
          && (0 < tendered ==> HasMethod(entries, Cash))
          && (tendered == 0 ==> entries == [] || HasMethod(entries, Credit)))
  }

  /** Exactly these charges are accepted; each pays what is tendered up to the total, owes the rest and returns the change. */
  lemma SettlementBalances(totalCents: nat, hasCustomer: bool, entries: seq<Entry>)
    ensures Settle(totalCents, hasCustomer, entries).Ok? <==> Acceptable(totalCents, hasCustomer, entries)
    ensures Settle(totalCents, hasCustomer, entries).Ok? ==>
              var c := Settle(totalCents, hasCustomer, entries).value;
              && c.paidCents + c.debtCents == totalCents
              && Tendered(entries) == c.paidCents + c.changeCents
              && 0 <= c.paidCents && 0 <= c.debtCents && 0 <= c.changeCents
              && (c.changeCents > 0 ==> HasMethod(entries, Cash) && c.debtCents == 0)
              && (c.debtCents > 0 ==> hasCustomer)
              && (c.status == Paid <==> c.debtCents == 0)
              && (c.status == Partial <==> 0 < c.paidCents < totalCents)
              && (c.status == Partial ==> HasMethod(entries, Cash))
              && (c.status == OnCredit <==> c.paidCents == 0 && 0 < totalCents)
  {
    if HasMethod(entries, Credit) {
      var e :| e in entries && e.tender == Credit;
      assert |entries| >= 1;
    }
  }

  // ----- Payment events -----

  datatype Event = Event(paymentId: Id, amountCents: int, resultingPaidCents: int, resultingDebtCents: int, status: PaymentStatus)

  datatype Payment = Payment(paymentId: Id, tender: RawMethod, amountCents: int)

  function Values(payments: seq<Payment>): (r: seq<int>)
    ensures |r| == |payments| && forall i :: 0 <= i < |r| ==> r[i] == payments[i].amountCents
  {
    seq(|payments|, i requires 0 <= i < |payments| => payments[i].amountCents)
  }

  /** What had been paid before the first of these payments, as the events count it. */
  function PaidBefore(payments: seq<Payment>, paidCents: int): int {
    paidCents - Sum(Values(payments))
  }

  /** The debt the loop reports after `n` payments: clamped at zero after each one. */
  function DebtAfter(start: int, amounts: seq<int>, n: nat): int
    requires n <= |amounts|
  {
    if n == 0 then start
    else
      var d := DebtAfter(start, amounts, n - 1) - amounts[n - 1];
      if d < 0 then 0 else d
  }

  function EventAt(payments: seq<Payment>, paidCents: int, debtCents: int, status: Option<PaymentStatus>, i: nat): Event
    requires i < |payments|
  {
    var amounts := Values(payments);
    var paid := PaidBefore(payments, paidCents);
    var debt := DebtAfter(paidCents + debtCents - paid, amounts, i + 1);
    Event(payments[i].paymentId, amounts[i], paid + Sum(amounts[..i + 1]), debt,
          status.GetOr(if debt == 0 then Paid else Partial))
  }

  method PublishPaymentReceivedEvents(payments: seq<Payment>, paidCents: int, debtCents: int, status: Option<PaymentStatus>)
    returns (events: seq<Event>)
    ensures |events| == |payments|
    ensures forall i :: 0 <= i < |events| ==> events[i] == EventAt(payments, paidCents, debtCents, status, i)
  {
    var cumulativePaidCents := paidCents - Sum(Values(payments));
    var remainingDebtCents := paidCents + debtCents - cumulativePaidCents;
    events := [];
    for n := 0 to |payments|
      invariant cumulativePaidCents == PaidBefore(payments, paidCents) + Sum(Values(payments)[..n])
      invariant remainingDebtCents ==
                DebtAfter(paidCents + debtCents - PaidBefore(payments, paidCents), Values(payments), n)
      invariant |events| == n
      invariant forall i :: 0 <= i < n ==> events[i] == EventAt(payments, paidCents, debtCents, status, i)
    {
      SumPrefix(Values(payments), n);
      var amountCents := payments[n].amountCents;
      cumulativePaidCents := cumulativePaidCents + amountCents;
      remainingDebtCents := remainingDebtCents - amountCents;
      if remainingDebtCents < 0 {
        remainingDebtCents := 0;
      }
      events := events + [Event(payments[n].paymentId, amountCents, cumulativePaidCents, remainingDebtCents,
                                status.GetOr(if remainingDebtCents == 0 then Paid else Partial))];
    }
  }

  lemma {:induction false} ClampNeverFires(start: int, amounts: seq<int>, n: nat)
    requires n <= |amounts| && Sum(amounts) <= start
    requires forall i :: 0 <= i < |amounts| ==> 0 <= amounts[i]
    ensures DebtAfter(start, amounts, n) == start - Sum(amounts[..n])
    ensures Sum(amounts[..n]) <= Sum(amounts)
  {
    assert amounts == amounts[..n] + amounts[n..];
    SumAppend(amounts[..n], amounts[n..]);
    SumNonNegative(amounts[n..]);
    if n > 0 {
      ClampNeverFires(start, amounts, n - 1);
      SumPrefix(amounts, n - 1);
    }
  }

  /** Every event balances to the total; the last one reports exactly what was paid and what is owed. */
  lemma EventsBalance(payments: seq<Payment>, paidCents: int, debtCents: nat, status: Option<PaymentStatus>, i: nat)
    requires i < |payments| && forall p :: p in payments ==> 0 <= p.amountCents
    ensures var e := EventAt(payments, paidCents, debtCents, status, i);
            && e.resultingPaidCents + e.resultingDebtCents == paidCents + debtCents
            && debtCents <= e.resultingDebtCents
            && (i == |payments| - 1 ==> e.resultingPaidCents == paidCents && e.resultingDebtCents == debtCents)
            && (status.None? ==> (e.status == Paid <==> e.resultingPaidCents == paidCents + debtCents))
  {
    var amounts := Values(payments);
    ClampNeverFires(paidCents + debtCents - PaidBefore(payments, paidCents), amounts, i + 1);
    if i == |payments| - 1 {
      assert amounts[..i + 1] == amounts;
    }
  }

  /** A charge that returns change starts its events below zero: the paid figure is never negative
      exactly when the first payment covers the change. */
  lemma EventsNeverNegativeIff(payments: seq<Payment>, paidCents: int, debtCents: nat)
    requires |payments| > 0 && forall p :: p in payments ==> 0 <= p.amountCents
    ensures (forall i :: 0 <= i < |payments| ==> 0 <= EventAt(payments, paidCents, debtCents, None, i).resultingPaidCents)
            <==> Sum(Values(payments)) - paidCents <= payments[0].amountCents
  {
    var amounts := Values(payments);
    assert amounts[..1] == [amounts[0]] && [amounts[0]][..0] == [];
    assert Sum(amounts[..1]) == amounts[0];
    assert EventAt(payments, paidCents, debtCents, None, 0).resultingPaidCents ==
           PaidBefore(payments, paidCents) + amounts[0];
    forall i | 0 <= i < |payments|
      ensures EventAt(payments, paidCents, debtCents, None, i).resultingPaidCents >= PaidBefore(payments, paidCents) + amounts[0]
    {
      SumNonNegative(amounts[..i + 1]);
      assert amounts[..i + 1][0] == amounts[0];
    }
  }

  /** Card 10 and cash 150 on a total of 100 reports minus 50 paid after the card. */
  lemma NegativeEventExample()
    ensures var entries := [Entry(CardDebit, 10), Entry(Cash, 150)];
            var payments := [Payment(1, Known(CardDebit), 10), Payment(2, Known(Cash), 150)];
            && Settle(100, false, entries) == Ok(Charge(100, 0, 60, Paid))
            && EventAt(payments, 100, 0, None, 0).resultingPaidCents == -50
  {
    var entries := [Entry(CardDebit, 10), Entry(Cash, 150)];
    var payments := [Payment(1, Known(CardDebit), 10), Payment(2, Known(Cash), 150)];
    assert Amounts(entries) == [10, 150] && Values(payments) == [10, 150];
    assert [10, 150][..1] == [10] && [10][..0] == [];
    assert Sum([10]) == 10 && Sum([10, 150]) == 160;
    assert entries[1].tender == Cash && entries[1] in entries;
    assert forall e :: e in entries ==> e.tender != Credit;
  }

  // ----- Refunds of a cancellation -----

  datatype Refund = Refund(paymentId: Id, tender: Method, amountCents: int)

  datatype RefundError = RefundMethodNotSupported | RefundAuditMismatch

  function Positives(payments: seq<Payment>): (r: seq<Payment>)
    ensures forall p :: p in r <==> p in payments && p.amountCents > 0
  {
    if payments == [] then []
    else
      var rest := Positives(payments[..|payments| - 1]);
      var p := payments[|payments| - 1];
      if p.amountCents > 0 then rest + [p] else rest
  }

  function PositiveSum(payments: seq<Payment>): nat {
    if payments == [] then 0
    else
      var p := payments[|payments| - 1];
      PositiveSum(payments[..|payments| - 1]) + if p.amountCents > 0 then p.amountCents else 0
  }

  function RefundValues(refunds: seq<Refund>): (r: seq<int>)
    ensures |r| == |refunds| && forall i :: 0 <= i < |r| ==> r[i] == refunds[i].amountCents
  {
    seq(|refunds|, i requires 0 <= i < |refunds| => refunds[i].amountCents)
  }

  /** A payment some refund is taken from: it has money, and the payments before it do not cover the amount. */
  predicate Touched(payments: seq<Payment>, refundedCents: int, i: nat)
    requires i < |payments|
  {
    payments[i].amountCents > 0 && PositiveSum(payments[..i]) < refundedCents
  }

  predicate TouchesUnknown(payments: seq<Payment>, refundedCents: int) {
    exists i :: 0 <= i < |payments| && Touched(payments, refundedCents, i) && payments[i].tender.Unknown?
  }

  /** Refunds follow payment order, each within its payment, all full but possibly the last. */
  ghost predicate Greedy(refunds: seq<Refund>, positives: seq<Payment>) {
    && |refunds| <= |positives|
    && (forall i :: 0 <= i < |refunds| ==>
          && refunds[i].paymentId == positives[i].paymentId && Known(refunds[i].tender) == positives[i].tender
          && 0 < refunds[i].amountCents <= positives[i].amountCents)
    && (forall i :: 0 <= i < |refunds| - 1 ==> refunds[i].amountCents == positives[i].amountCents)
  }

  ghost predicate AllFull(refunds: seq<Refund>, positives: seq<Payment>) {
    && |refunds| == |positives|
    && forall i :: 0 <= i < |refunds| ==> refunds[i].amountCents == positives[i].amountCents
  }

  lemma OneMorePayment(payments: seq<Payment>, n: nat)
    requires n < |payments|
    ensures var p := payments[n];
            && PositiveSum(payments[..n + 1]) == PositiveSum(payments[..n]) + (if p.amountCents > 0 then p.amountCents else 0)
            && Positives(payments[..n + 1]) == Positives(payments[..n]) + (if p.amountCents > 0 then [p] else [])
  {
    assert payments[..n + 1][..n] == payments[..n];
  }

  lemma {:induction false} PositivesGrow(payments: seq<Payment>, n: nat)
    requires n <= |payments|
    ensures PositiveSum(payments[..n]) <= PositiveSum(payments)
    ensures Positives(payments[..n]) <= Positives(payments)
    decreases |payments| - n
  {
    if n == |payments| {
      assert payments[..n] == payments;
    } else {
      OneMorePayment(payments, n);
      PositivesGrow(payments, n + 1);
    }
  }

  lemma GreedyExtends(refunds: seq<Refund>, few: seq<Payment>, all: seq<Payment>)
    requires few <= all && Greedy(refunds, few)
    ensures Greedy(refunds, all)
  {
  }

  lemma NothingMoreTouched(payments: seq<Payment>, refundedCents: int, n: nat)
    requires n <= |payments| && refundedCents <= PositiveSum(payments[..n])
    ensures forall i :: n <= i < |payments| ==> !Touched(payments, refundedCents, i)
  {
    forall i | n <= i < |payments|
      ensures !Touched(payments, refundedCents, i)
    {
      PositivesGrow(payments[..i], n);
      assert payments[..i][..n] == payments[..n];
    }
  }

  predicate KnownSoFar(payments: seq<Payment>, refundedCents: int, n: nat)
    requires n <= |payments|
  {
    forall i :: 0 <= i < n && Touched(payments, refundedCents, i) ==> payments[i].tender.Known?
  }

  /** The loop's state once payments with these positive amounts, `covered` in all, have been looked at. */
  ghost predicate Refunding(refunds: seq<Refund>, remaining: int, positives: seq<Payment>, covered: nat, refundedCents: int) {
    && Sum(RefundValues(refunds)) == refundedCents - remaining
    && Greedy(refunds, positives)
    && (remaining > 0 ==> AllFull(refunds, positives) && remaining == refundedCents - covered)
    && (remaining <= 0 ==> refundedCents <= covered && remaining == if refundedCents < 0 then refundedCents else 0)
  }

  lemma RefundStep(refunds: seq<Refund>, remaining: int, positives: seq<Payment>, covered: nat, refundedCents: int, p: Payment)
    requires remaining > 0 && Refunding(refunds, remaining, positives, covered, refundedCents)
    requires p.amountCents > 0 && p.tender.Known?
    ensures var amount := if p.amountCents < remaining then p.amountCents else remaining;
            Refunding(refunds + [Refund(p.paymentId, p.tender.tender, amount)], remaining - amount,
                      positives + [p], covered + p.amountCents, refundedCents)
  {
    var amount := if p.amountCents < remaining then p.amountCents else remaining;
    var next := refunds + [Refund(p.paymentId, p.tender.tender, amount)];
    assert RefundValues(next) == RefundValues(refunds) + [amount];
    SumSnoc(RefundValues(refunds), amount);
  }

  /** The loop's state before payment `k`. */
  ghost predicate RefundedTo(payments: seq<Payment>, refundedCents: int, k: nat, refunds: seq<Refund>, remaining: int) {
    && k <= |payments| && KnownSoFar(payments, refundedCents, k)
    && Refunding(refunds, remaining, Positives(payments[..k]), PositiveSum(payments[..k]), refundedCents)
  }

  lemma SkipPayment(payments: seq<Payment>, refundedCents: int, k: nat, refunds: seq<Refund>, remaining: int)
    requires RefundedTo(payments, refundedCents, k, refunds, remaining) && k < |payments|
    requires payments[k].amountCents <= 0
    ensures RefundedTo(payments, refundedCents, k + 1, refunds, remaining)
  {
    OneMorePayment(payments, k);
  }

  lemma TakePayment(payments: seq<Payment>, refundedCents: int, k: nat, refunds: seq<Refund>, remaining: int)
    requires RefundedTo(payments, refundedCents, k, refunds, remaining) && k < |payments| && remaining > 0
    requires payments[k].amountCents > 0 && payments[k].tender.Known?
    ensures var p := payments[k];
            var amount := if p.amountCents < remaining then p.amountCents else remaining;
            RefundedTo(payments, refundedCents, k + 1, refunds + [Refund(p.paymentId, p.tender.tender, amount)],
                       remaining - amount)
  {
    OneMorePayment(payments, k);
    RefundStep(refunds, remaining, Positives(payments[..k]), PositiveSum(payments[..k]), refundedCents, payments[k]);
  }

  lemma UnknownTouched(payments: seq<Payment>, refundedCents: int, k: nat, refunds: seq<Refund>, remaining: int)
    requires RefundedTo(payments, refundedCents, k, refunds, remaining) && k < |payments| && remaining > 0
    requires payments[k].amountCents > 0 && payments[k].tender.Unknown?
    ensures TouchesUnknown(payments, refundedCents)
  {
    assert Touched(payments, refundedCents, k);
  }

  lemma NothingRefunded(payments: seq<Payment>, refundedCents: int)
    ensures RefundedTo(payments, refundedCents, 0, [], refundedCents)
  {
    assert payments[..0] == [];
  }

  method RefundWhileRemaining(payments: seq<Payment>, refundedCents: int)
    returns (refunds: seq<Refund>, remaining: int, supported: bool, ghost n: nat)
    ensures !supported ==> TouchesUnknown(payments, refundedCents)
    ensures supported ==> RefundedTo(payments, refundedCents, n, refunds, remaining)
    ensures supported && n < |payments| ==> remaining <= 0
  {
    refunds, remaining := [], refundedCents;
    NothingRefunded(payments, refundedCents);
    var k := 0;
    while k < |payments| && remaining > 0
      invariant RefundedTo(payments, refundedCents, k, refunds, remaining)
      decreases |payments| - k
    {
      var p := payments[k];
      var amountCents := if p.amountCents < remaining then p.amountCents else remaining;
      if amountCents > 0 {
        if p.tender.Unknown? {
          UnknownTouched(payments, refundedCents, k, refunds, remaining);
          return refunds, remaining, false, k;
        }
        TakePayment(payments, refundedCents, k, refunds, remaining);
        refunds := refunds + [Refund(p.paymentId, p.tender.tender, amountCents)];
        remaining := remaining - amountCents;
      } else {
        SkipPayment(payments, refundedCents, k, refunds, remaining);
      }
      k := k + 1;
    }
    return refunds, remaining, true, k;
  }

  /** Greedy refunds, with the exact conditions of success and of each error. */
  method BuildCancellationRefunds(payments: seq<Payment>, refundedCents: int) returns (r: Result<seq<Refund>, RefundError>)
    ensures r.Ok? <==> 0 <= refundedCents <= PositiveSum(payments) && !TouchesUnknown(payments, refundedCents)
    ensures r.Ok? ==> Greedy(r.value, Positives(payments)) && Sum(RefundValues(r.value)) == refundedCents
    ensures r.Ok? ==> r.value == Spread(Positives(payments), refundedCents)
    ensures r == Err(RefundMethodNotSupported) <==> TouchesUnknown(payments, refundedCents)
  {
    var refunds, remaining, supported, n := RefundWhileRemaining(payments, refundedCents);
    if !supported {
      return Err(RefundMethodNotSupported);
    }
    PositivesGrow(payments, n);
    GreedyExtends(refunds, Positives(payments[..n]), Positives(payments));
    if remaining > 0 {
      assert payments[..n] == payments;
    } else {
      NothingMoreTouched(payments, refundedCents, n);
    }
    assert !TouchesUnknown(payments, refundedCents);
    if remaining != 0 {
      return Err(RefundAuditMismatch);
    }
    GreedyIsSpread(refunds, Positives(payments), refundedCents);
    return Ok(refunds);
  }

  // ----- The refunds as a function -----

  /** Takes the amount off the payments front to back. */
  function Spread(positives: seq<Payment>, remaining: int): seq<Refund> {
    if positives == [] || remaining <= 0 || positives[0].tender.Unknown? then []
    else
      var p := positives[0];
      var amount := if p.amountCents < remaining then p.amountCents else remaining;
      [Refund(p.paymentId, p.tender.tender, amount)] + Spread(positives[1..], remaining - amount)
  }

  lemma GreedyFront(refunds: seq<Refund>, positives: seq<Payment>)
    requires Greedy(refunds, positives) && refunds != []
    ensures Greedy(refunds[1..], positives[1..])
    ensures Sum(RefundValues(refunds)) == refunds[0].amountCents + Sum(RefundValues(refunds[1..]))
    ensures 0 <= Sum(RefundValues(refunds[1..]))
    ensures refunds[0].amountCents < positives[0].amountCents ==> refunds[1..] == []
    ensures refunds[1..] != [] ==> 0 < Sum(RefundValues(refunds[1..]))
  {
    var rest := RefundValues(refunds[1..]);
    SumFromFront(RefundValues(refunds));
    assert RefundValues(refunds)[1..] == rest;
    SumNonNegative(rest);
    if rest != [] {
      assert rest[0] <= Sum(rest);
    }
  }

  function HeadAmount(positives: seq<Payment>, remaining: int): int
    requires positives != []
  {
    if positives[0].amountCents < remaining then positives[0].amountCents else remaining
  }

  /** The first refund and what remains after it. */
  lemma GreedyHead(refunds: seq<Refund>, positives: seq<Payment>, refundedCents: nat)
    requires Greedy(refunds, positives) && refunds != [] && Sum(RefundValues(refunds)) == refundedCents
    ensures var p := positives[0];
            var amount := HeadAmount(positives, refundedCents);
            && p.tender.Known? && 0 < refundedCents && refunds[0] == Refund(p.paymentId, p.tender.tender, amount)
            && Greedy(refunds[1..], positives[1..]) && Sum(RefundValues(refunds[1..])) == refundedCents - amount
  {
    GreedyFront(refunds, positives);
  }

  lemma SpreadFront(refunds: seq<Refund>, positives: seq<Payment>, remaining: nat)
    requires refunds != [] && positives != [] && positives[0].tender.Known? && 0 < remaining
    requires refunds[0] == Refund(positives[0].paymentId, positives[0].tender.tender, HeadAmount(positives, remaining))
    requires refunds[1..] == Spread(positives[1..], remaining - HeadAmount(positives, remaining))
    ensures refunds == Spread(positives, remaining)
  {
    assert refunds == [refunds[0]] + refunds[1..];
  }

  /** The greedy rules determine every refund. */
  lemma {:induction false} GreedyIsSpread(refunds: seq<Refund>, positives: seq<Payment>, refundedCents: nat)
    requires Greedy(refunds, positives) && Sum(RefundValues(refunds)) == refundedCents
    ensures refunds == Spread(positives, refundedCents)
  {
    if refunds == [] {
      assert Sum(RefundValues(refunds)) == 0;
    } else {
      GreedyHead(refunds, positives, refundedCents);
      GreedyIsSpread(refunds[1..], positives[1..], refundedCents - HeadAmount(positives, refundedCents));
      SpreadFront(refunds, positives, refundedCents);
    }
  }

  // ----- Charge, then cancel -----

  /** The stored payment rows of a charge: every tender but credit. */
  function StoredPayments(entries: seq<Entry>, firstId: Id): (r: seq<Payment>)
    ensures forall p :: p in r ==> p.tender.Known?
  {
    if entries == [] then []
    else
      var rest := StoredPayments(entries[..|entries| - 1], firstId);
      var e := entries[|entries| - 1];
      if e.tender == Credit then rest else rest + [Payment(firstId + |entries| - 1, Known(e.tender), e.amountCents)]
  }

  lemma PositiveSumSnoc(payments: seq<Payment>, p: Payment)
    ensures PositiveSum(payments + [p]) == PositiveSum(payments) + if p.amountCents > 0 then p.amountCents else 0
  {
    assert (payments + [p])[..|payments|] == payments;
  }

  lemma {:induction false} StoredPaymentsSum(entries: seq<Entry>, firstId: Id)
    requires forall e :: e in entries ==> 0 <= e.amountCents && (e.tender == Credit ==> e.amountCents == 0)
    ensures PositiveSum(StoredPayments(entries, firstId)) == Tendered(entries)
  {
    if entries != [] {
      var n := |entries| - 1;
      var e := entries[n];
      StoredPaymentsSum(entries[..n], firstId);
      assert Amounts(entries)[..n] == Amounts(entries[..n]);
      assert Tendered(entries) == Tendered(entries[..n]) + e.amountCents;
      assert e in entries;
      if e.tender != Credit {
        PositiveSumSnoc(StoredPayments(entries[..n], firstId), Payment(firstId + n, Known(e.tender), e.amountCents));
      }
    }
  }

  /** Every accepted charge can be cancelled: its stored payments cover, in supported methods, exactly what is refunded. */
  lemma AcceptedChargeIsRefundable(totalCents: nat, hasCustomer: bool, entries: seq<Entry>, firstId: Id)
    requires Settle(totalCents, hasCustomer, entries).Ok? && forall e :: e in entries ==> 0 <= e.amountCents
    ensures var paid := Settle(totalCents, hasCustomer, entries).value.paidCents;
            var stored := StoredPayments(entries, firstId);
            0 <= paid <= PositiveSum(stored) && !TouchesUnknown(stored, paid)
  {
    SettlementBalances(totalCents, hasCustomer, entries);
    if HasMethod(entries, Credit) {
      assert Amounts(entries) == [entries[0].amountCents];
      SumOne(entries[0].amountCents);
    }
    assert forall e :: e in entries && e.tender == Credit ==> HasMethod(entries, Credit);
    StoredPaymentsSum(entries, firstId);
    var stored := StoredPayments(entries, firstId);
    assert forall i :: 0 <= i < |stored| ==> stored[i] in stored;
  }
}
