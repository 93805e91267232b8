/** The cash ledger of session-bound sales money: src/cash-register/infrastructure/cash-adapter-ledger.ts
and cash-adapter-ledger-movements.ts, as the sale transactions of src/sales/sales.service.ts drive it.
*/
module SaleLedger {
  import opened Common
  import opened SaleStore
  import opened SaleInvariants
  import M = Settlement

  /** Money that exists: a stored payment, the change of a confirmed sale, or a stored settlement. */
  predicate Issued(db: Db, source: Source) {
    match source
    case PaymentOf(i, k) => i < |db.sales| && k < |db.sales[i].payments|
    case ChangeOf(i) => i < |db.sales| && db.sales[i].status != Draft
    case SettlementOf(i, k) => i < |db.refunds| && k < |db.refunds[i].settlements|
  }

  /** What a record of that money moves: a tender in, change and settlements out. */
  function Worth(db: Db, source: Source): int
    requires Issued(db, source)
  {
    match source
    case PaymentOf(i, k) => db.sales[i].payments[k].amountCents
    case ChangeOf(i) => -db.sales[i].changeCents
    case SettlementOf(i, k) => -db.refunds[i].settlements[k]
  }

  predicate Backed(db: Db, r: LedgerRow) {
    Issued(db, r.source) && r.deltaCents == Worth(db, r.source)
  }

  predicate OwnedRow(db: Db, r: LedgerRow) {
    r.session in db.sessions && db.sessions[r.session].owner == r.actor
  }

  ghost predicate DistinctSources(rows: seq<LedgerRow>) {
    forall i, j :: 0 <= i < j < |rows| ==> rows[i].source != rows[j].source
  }

  /** Every record was made by its session's owner, for exactly the money it names, and no money was recorded twice. */
  ghost predicate LedgerInv(db: Db) {
    && DistinctSources(db.ledger)
    && forall i :: 0 <= i < |db.ledger| ==> OwnedRow(db, db.ledger[i]) && Backed(db, db.ledger[i])
  }

  ghost predicate KeepsIssued(db: Db, after: Db) {
    forall source :: Issued(db, source) ==> Issued(after, source) && Worth(after, source) == Worth(db, source)
  }

  ghost predicate NewRows(db: Db, after: Db, rows: seq<LedgerRow>) {
    && DistinctSources(rows)
    && forall i :: 0 <= i < |rows| ==>
         !Issued(db, rows[i].source) && Backed(after, rows[i]) && OwnedRow(after, rows[i])
  }

  lemma AppendedRows(db: Db, after: Db, rows: seq<LedgerRow>)
    requires LedgerInv(db) && KeepsIssued(db, after) && NewRows(db, after, rows)
    requires after.ledger == db.ledger + rows && after.sessions == db.sessions
    ensures LedgerInv(after)
  {
    forall i, j | 0 <= i < j < |after.ledger|
      ensures after.ledger[i].source != after.ledger[j].source
    {
      if i < |db.ledger| <= j {
        assert after.ledger[j] == rows[j - |db.ledger|];
      } else if |db.ledger| <= i {
        assert after.ledger[i] == rows[i - |db.ledger|] && after.ledger[j] == rows[j - |db.ledger|];
      }
    }
    forall i | 0 <= i < |after.ledger|
      ensures OwnedRow(after, after.ledger[i]) && Backed(after, after.ledger[i])
    {
      if i < |db.ledger| {
        assert after.ledger[i] == db.ledger[i] && Issued(db, db.ledger[i].source);
      } else {
        assert after.ledger[i] == rows[i - |db.ledger|];
      }
    }
  }

  function RowDeltas(rows: seq<LedgerRow>): (r: seq<int>)
    ensures |r| == |rows| && forall i :: 0 <= i < |r| ==> r[i] == rows[i].deltaCents
  {
    seq(|rows|, i requires 0 <= i < |rows| => rows[i].deltaCents)
  }

  /** The row records the payment its source numbers, counted from `first`. */
  predicate TenderOf(row: LedgerRow, session: Id, actor: Id, saleId: nat, payments: seq<M.Payment>, first: nat) {
    && row.session == session && row.actor == actor
    && row.source.PaymentOf? && row.source.saleId == saleId && first <= row.source.index < first + |payments|
    && row.deltaCents == payments[row.source.index - first].amountCents
  }

  ghost predicate TendersOf(rows: seq<LedgerRow>, session: Id, actor: Id, saleId: nat, payments: seq<M.Payment>, first: nat) {
    forall i :: 0 <= i < |rows| ==> TenderOf(rows[i], session, actor, saleId, payments, first)
  }

  lemma {:induction false} TenderRowsNumbered(session: Id, actor: Id, saleId: nat, payments: seq<M.Payment>, first: nat)
    requires Numbered(payments, first)
    ensures var rows := TenderRows(session, actor, saleId, payments);
            && TendersOf(rows, session, actor, saleId, payments, first)
            && DistinctSources(rows)
  {
    if payments != [] {
      var n := |payments| - 1;
      var p := payments[n];
      var rest := TenderRows(session, actor, saleId, payments[..n]);
      TenderRowsNumbered(session, actor, saleId, payments[..n], first);
      EarlierTenders(rest, session, actor, saleId, payments, first);
      if p.amountCents != 0 {
        OneMoreTender(rest, LedgerRow(session, actor, PaymentOf(saleId, p.paymentId), p.amountCents), session, actor, saleId,
                      payments, first);
      }
    }
  }

  lemma EarlierTenders(rows: seq<LedgerRow>, session: Id, actor: Id, saleId: nat, payments: seq<M.Payment>, first: nat)
    requires payments != [] && TendersOf(rows, session, actor, saleId, payments[..|payments| - 1], first)
    ensures TendersOf(rows, session, actor, saleId, payments, first)
    ensures forall i :: 0 <= i < |rows| ==> rows[i].source.PaymentOf? && rows[i].source.index < first + |payments| - 1
  {
    forall i | 0 <= i < |rows|
      ensures TenderOf(rows[i], session, actor, saleId, payments, first)
      ensures rows[i].source.PaymentOf? && rows[i].source.index < first + |payments| - 1
    {
      assert TenderOf(rows[i], session, actor, saleId, payments[..|payments| - 1], first);
    }
  }

  lemma OneMoreTender(rows: seq<LedgerRow>, row: LedgerRow, session: Id, actor: Id, saleId: nat, payments: seq<M.Payment>, first: nat)
    requires TendersOf(rows, session, actor, saleId, payments, first) && DistinctSources(rows)
    requires TenderOf(row, session, actor, saleId, payments, first)
    requires forall i :: 0 <= i < |rows| ==> rows[i].source.PaymentOf? && rows[i].source.index < row.source.index
    ensures TendersOf(rows + [row], session, actor, saleId, payments, first) && DistinctSources(rows + [row])
  {
  }

  lemma {:induction false} TenderRowsSum(session: Id, actor: Id, saleId: nat, payments: seq<M.Payment>)
    ensures Sum(RowDeltas(TenderRows(session, actor, saleId, payments))) == Sum(M.Values(payments))
  {
    if payments != [] {
      var n := |payments| - 1;
      var rest := TenderRows(session, actor, saleId, payments[..n]);
      TenderRowsSum(session, actor, saleId, payments[..n]);
      assert M.Values(payments)[..n] == M.Values(payments[..n]);
      var row := LedgerRow(session, actor, PaymentOf(saleId, payments[n].paymentId), payments[n].amountCents);
      assert RowDeltas(rest + [row]) == RowDeltas(rest) + [row.deltaCents];
      SumSnoc(RowDeltas(rest), row.deltaCents);
    }
  }

  lemma PaymentRowsSum(session: Id, actor: Id, saleId: nat, payments: seq<M.Payment>, changeCents: int)
    ensures Sum(RowDeltas(PaymentRows(Some(session), actor, saleId, payments, changeCents))) == Sum(M.Values(payments)) - changeCents
  {
    var tenders := TenderRows(session, actor, saleId, payments);
    var change := ChangeRows(session, actor, saleId, changeCents);
    TenderRowsSum(session, actor, saleId, payments);
    assert RowDeltas(tenders + change) == RowDeltas(tenders) + RowDeltas(change);
    SumAppend(RowDeltas(tenders), RowDeltas(change));
    if changeCents != 0 {
      assert RowDeltas(change) == [-changeCents] && [-changeCents][..0] == [];
    }
  }

  /** The confirmed row of a charge and the records written for it. */
  lemma ChargeEffect(db: Db, r: ChargeRequest, pricing: Option<Pricing>, today: int)
    requires EntriesOk(r.entries) && ChargeTx(db, r, pricing, today).Ok?
    ensures var after := ChargeTx(db, r, pricing, today).value.0;
            && r.saleId < |db.sales| && |after.sales| == |db.sales|
            && db.sales[r.saleId].status == Draft
            && var row := after.sales[r.saleId];
               && after.sales == db.sales[r.saleId := row] && row.status == Confirmed
               && PaymentsOk(row.payments) && Sum(M.Values(row.payments)) == row.paidCents + row.changeCents
               && after.ledger == db.ledger + PaymentRows(r.session, r.actor, r.saleId, row.payments, row.changeCents)
               && after.sessions == db.sessions && after.refunds == db.refunds
               && Fenced(db, r.session, r.actor)
  {
    var sale, p := db.sales[r.saleId], pricing.value;
    M.SettlementBalances(p.totalCents, sale.hasCustomer, r.entries);
    StoredCharge(r.entries);
  }

  /** What a bound charge books in its session, tenders minus change, is exactly what the sale counts as paid. */
  lemma BoundChargeBooksPaid(db: Db, r: ChargeRequest, pricing: Option<Pricing>, today: int)
    requires EntriesOk(r.entries) && r.session.Some? && ChargeTx(db, r, pricing, today).Ok?
    ensures var after := ChargeTx(db, r, pricing, today).value.0;
            && |db.ledger| <= |after.ledger|
            && Sum(RowDeltas(after.ledger[|db.ledger|..])) == after.sales[r.saleId].paidCents
  {
    ChargeEffect(db, r, pricing, today);
    var after := ChargeTx(db, r, pricing, today).value.0;
    var row := after.sales[r.saleId];
    var rows := PaymentRows(r.session, r.actor, r.saleId, row.payments, row.changeCents);
    PaymentRowsSum(r.session.value, r.actor, r.saleId, row.payments, row.changeCents);
    assert after.ledger[|db.ledger|..] == rows;
  }

  /** The payments from `first` on are these, and there were none before. */
  ghost predicate Adds(db: Db, after: Db, saleId: nat, payments: seq<M.Payment>, first: nat) {
    && saleId < |db.sales| && saleId < |after.sales|
    && |db.sales[saleId].payments| <= first && first + |payments| <= |after.sales[saleId].payments|
    && forall k :: 0 <= k < |payments| ==> after.sales[saleId].payments[first + k] == payments[k]
  }

  lemma PaymentRowsNew(db: Db, after: Db, session: Id, actor: Id, saleId: nat, payments: seq<M.Payment>, first: nat, changeCents: int)
    requires Writable(db, session, actor) && after.sessions == db.sessions
    requires Adds(db, after, saleId, payments, first) && Numbered(payments, first)
    requires changeCents != 0 ==>
               db.sales[saleId].status == Draft && after.sales[saleId].status != Draft && after.sales[saleId].changeCents == changeCents
    ensures NewRows(db, after, PaymentRows(Some(session), actor, saleId, payments, changeCents))
  {
    TenderRowsNumbered(session, actor, saleId, payments, first);
    var tenders := TenderRows(session, actor, saleId, payments);
    var change := ChangeRows(session, actor, saleId, changeCents);
    var rows := PaymentRows(Some(session), actor, saleId, payments, changeCents);
    assert rows == tenders + change;
    forall i | 0 <= i < |rows|
      ensures !Issued(db, rows[i].source) && Backed(after, rows[i]) && OwnedRow(after, rows[i])
    {
      if i < |tenders| {
        assert TenderOf(tenders[i], session, actor, saleId, payments, first) && rows[i] == tenders[i];
        assert after.sales[saleId].payments[first + (rows[i].source.index - first)] == payments[rows[i].source.index - first];
      }
    }
  }

  lemma ChargeKeepsLedger(db: Db, r: ChargeRequest, pricing: Option<Pricing>, today: int)
    requires MoneyInv(db.sales) && LedgerInv(db) && EntriesOk(r.entries) && ChargeTx(db, r, pricing, today).Ok?
    ensures LedgerInv(ChargeTx(db, r, pricing, today).value.0)
  {
    var after := ChargeTx(db, r, pricing, today).value.0;
    ChargeEffect(db, r, pricing, today);
    var row := after.sales[r.saleId];
    assert MoneyOk(db.sales[r.saleId]);
    if r.session.Some? {
      PaymentRowsNew(db, after, r.session.value, r.actor, r.saleId, row.payments, 0, row.changeCents);
    }
    assert KeepsIssued(db, after);
    AppendedRows(db, after, PaymentRows(r.session, r.actor, r.saleId, row.payments, row.changeCents));
  }

  lemma PaymentsAdded(db: Db, after: Db, saleId: nat, row: SaleRow, stored: seq<M.Payment>)
    requires saleId < |db.sales| && row.payments == db.sales[saleId].payments + stored
    requires row.status == db.sales[saleId].status && row.changeCents == db.sales[saleId].changeCents
    requires after.sales == db.sales[saleId := row] && after.refunds == db.refunds
    ensures KeepsIssued(db, after) && Adds(db, after, saleId, stored, |db.sales[saleId].payments|)
  {
  }

  lemma PaymentKeepsLedger(db: Db, r: PaymentRequest)
    requires LedgerInv(db) && CollectionOk(r) && PaymentTx(db, r).Ok?
    ensures LedgerInv(PaymentTx(db, r).value.0)
  {
    var after := PaymentTx(db, r).value.0;
    var sale := db.sales[r.saleId];
    var stored := M.StoredPayments(Tenders(r), |sale.payments|);
    TendersStored(r, |sale.payments|);
    var row := WithPayments(sale, stored);
    assert after.sales == db.sales[r.saleId := row];
    PaymentsAdded(db, after, r.saleId, row, stored);
    if r.session.Some? {
      PaymentRowsNew(db, after, r.session.value, r.actor, r.saleId, stored, |sale.payments|, 0);
    }
    AppendedRows(db, after, PaymentRows(r.session, r.actor, r.saleId, stored, 0));
  }

  lemma SettleKeepsLedger(db: Db, r: SettleRequest)
    requires LedgerInv(db) && SettleTx(db, r).Ok?
    ensures LedgerInv(SettleTx(db, r).value.0)
  {
    var after := SettleTx(db, r).value.0;
    var refund := db.refunds[r.refundId];
    var rows :=
      if r.session.None? then []
      else [LedgerRow(r.session.value, r.actor, SettlementOf(r.refundId, |refund.settlements|), -r.amountCents)];
    assert KeepsIssued(db, after);
    AppendedRows(db, after, rows);
  }

  /** A transaction that books nothing keeps the ledger. */
  lemma UnbookedKeepsLedger(db: Db, after: Db)
    requires LedgerInv(db) && KeepsIssued(db, after) && after.ledger == db.ledger && after.sessions == db.sessions
    ensures LedgerInv(after)
  {
    assert after.ledger == db.ledger + [];
    AppendedRows(db, after, []);
  }

  lemma CancelKeepsLedger(db: Db, saleId: nat)
    requires LedgerInv(db) && CancelTx(db, saleId).Ok?
    ensures LedgerInv(CancelTx(db, saleId).value.0)
  {
    UnbookedKeepsLedger(db, CancelTx(db, saleId).value.0);
  }

  lemma ConfirmBotKeepsLedger(db: Db, r: BotRequest, pricing: Option<Pricing>, now: int, today: int)
    requires LedgerInv(db) && ConfirmBotTx(db, r, pricing, now, today).Ok?
    ensures LedgerInv(ConfirmBotTx(db, r, pricing, now, today).value)
  {
    UnbookedKeepsLedger(db, ConfirmBotTx(db, r, pricing, now, today).value);
  }
}
