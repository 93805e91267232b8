/** Which two operations can wait for each other for good: src/sales/sales.service.ts,
src/price-lists/price-lists.service.ts, src/sales/infrastructure/prisma-sale.repository.ts,
src/promotions/infrastructure/prisma-promotion-usage.repository.ts and src/inventory/infrastructure/stock-journal.writer.ts.

Three things cross. Selling updates promotion counters before it locks stock, canceling after. A bot confirmation shares the
products of its lines, in cart order, before it locks them in id order; a new price list shares every product in the order
they are read. A session-bound request shares its sale, through the slot it inserts, before it locks it.
*/
module LockCycles {
  import opened Common
  import opened Locks
  import opened Deadlocks
  import opened LockOrder
  import opened SaleLocks
  import opened References

  // ----- Selling and canceling -----

  /** What two locks a charge waits between and two a cancellation waits between can be. */
  lemma OrdersCross(charge: Operation, cancel: Operation, homes: Homes, au: Lock, ai: Lock, cv: Lock, cj: Lock)
    requires charge.Charge? && cancel.Cancel? && charge.sale != cancel.sale
    requires Ordered(charge, homes, au, ai) && Ordered(cancel, homes, cv, cj) && Conflict(ai, cv) && Conflict(au, cj)
    ensures ShareCounter(charge, cancel) && ShareProduct(charge, cancel)
  {
    assert au.resource.PromotionRow? && StockRow(ai.resource);
    assert au.resource.id in charge.promotions && au.resource.id in cancel.promotions;
    var home := Home(ai.resource, homes).value;
    assert home in charge.products && home in cancel.products;
  }

  /** Whoever holds stock or counters of its sale has locked the sale. */
  lemma SaleLocked(op: Operation, homes: Homes, u: nat) returns (s: nat)
    requires op.Charge? && Housed(op, homes) && u < |Program(op)|
    requires StockRow(Program(op)[u].resource) || Program(op)[u].resource.PromotionRow?
    ensures s < u && Program(op)[s] == Lock(SaleRow(op.sale), Update)
  {
    s := |SaleFront(op.bound, op.sale)| - 1;
    BeforeAt(op, s);
    if u < s {
      BeforeAt(op, u);
    }
  }

  lemma SameSaleWaits(charge: Operation, cancel: Operation, homes: Homes, i: nat, u: nat, j: nat, v: nat)
    requires charge.Charge? && cancel.Cancel? && Housed(charge, homes) && Housed(cancel, homes)
    requires Crossed(Program(charge), Program(cancel), i, u, j, v)
    ensures charge.sale != cancel.sale
  {
    KindAt(charge, homes, u);
    KindAt(cancel, homes, j);
    if charge.sale == cancel.sale {
      CancelStart(cancel, homes, j);
      var s := SaleLocked(charge, homes, u);
      assert Conflict(Program(charge)[s], Program(cancel)[0]);
    }
  }

  lemma CancelStart(op: Operation, homes: Homes, j: nat)
    requires op.Cancel? && Housed(op, homes) && 0 < j < |Program(op)|
    ensures Program(op)[0] == Lock(SaleRow(op.sale), Update) && !Program(op)[j].resource.SaleRow?
  {
    InOrderAt(op, homes, 0, j);
  }

  /** Behind its stock rows a cancellation takes counters only. */
  lemma CounterAfterProduct(op: Operation, homes: Homes, j: nat, p: Id) returns (y: nat)
    requires op.Cancel? && Housed(op, homes) && j < |Program(op)| && Program(op)[j].resource.PromotionRow? && p in op.products
    ensures y < j && Program(op)[y] == Lock(ProductRow(p), Update)
  {
    y := ProductAt(op, p);
    if j < y {
      InOrderAt(op, homes, j, y);
    }
  }

  lemma CancelMeetsCounters(charge: Operation, cancel: Operation, homes: Homes, u: nat, j: nat)
    requires charge.Charge? && cancel.Cancel? && Housed(charge, homes) && Housed(cancel, homes) && charge.sale != cancel.sale
    requires u < BeforeSize(charge) && u < |Program(charge)| && j < |Program(cancel)|
    requires Conflict(Program(charge)[u], Program(cancel)[j])
    ensures Program(cancel)[j].resource.PromotionRow?
  {
    KindAt(charge, homes, u);
    KindAt(cancel, homes, j);
  }

  lemma CounterAndProductCross(charge: Operation, cancel: Operation, homes: Homes, id: Id, p: Id)
    requires charge.Charge? && cancel.Cancel? && Housed(charge, homes) && Housed(cancel, homes) && charge.sale != cancel.sale
    requires id in charge.promotions && id in cancel.promotions && p in charge.products && p in cancel.products
    ensures CanGetStuck([Program(charge), Program(cancel)])
  {
    var a, c, h := Program(charge), Program(cancel), BeforeSize(charge);
    var x := SellerCounterAt(charge, id);
    var z := CancelCounterAt(cancel, id);
    assert Conflict(a[x], c[z]) && Meets(a, h, c[z]);
    var j := FindMeeting(a, h, c, 0, z);
    var u :| 0 <= u < h && u < |a| && Conflict(a[u], c[j]);
    CancelMeetsCounters(charge, cancel, homes, u, j);
    var y := CounterAfterProduct(cancel, homes, j, p);
    var q := ProductAt(charge, p);
    assert Conflict(c[y], a[q]);
    CrossFrom(a, c, h, j, q);
  }

  /** A charge and a cancellation of one sale never wait for each other for good; of different sales they can exactly when
      they have a promotion and a product in common. */
  lemma ChargeAndCancelDeadlockIff(charge: Operation, cancel: Operation, homes: Homes)
    requires charge.Charge? && cancel.Cancel? && Housed(charge, homes) && Housed(cancel, homes)
    ensures CanGetStuck([Program(charge), Program(cancel)]) <==>
            charge.sale != cancel.sale && ShareCounter(charge, cancel) && ShareProduct(charge, cancel)
  {
    if CanGetStuck([Program(charge), Program(cancel)]) {
      var i, u, j, v := StuckCrosses(Program(charge), Program(cancel));
      SameSaleWaits(charge, cancel, homes, i, u, j, v);
      InOrderAt(charge, homes, u, i);
      InOrderAt(cancel, homes, v, j);
      OrdersCross(charge, cancel, homes, Program(charge)[u], Program(charge)[i], Program(cancel)[v], Program(cancel)[j]);
    }
    if charge.sale != cancel.sale && ShareCounter(charge, cancel) && ShareProduct(charge, cancel) {
      var id :| id in charge.promotions && id in cancel.promotions;
      var p :| p in charge.products && p in cancel.products;
      CounterAndProductCross(charge, cancel, homes, id, p);
    }
  }

  // ----- Confirming -----

  /** Nothing but stock rows and counters is wanted by a confirmation and by a charge or a cancellation. */
  lemma ConfirmMeets(confirm: Operation, other: Operation, homes: Homes, a: Lock, c: Lock)
    requires confirm.ConfirmBot? && MovesStock(other) && !other.ConfirmBot?
    requires Kind(confirm, homes, a) && Kind(other, homes, c) && Conflict(a, c)
    ensures a.resource == c.resource && (StockRow(a.resource) ==> c.mode == Update)
    ensures StockRow(a.resource) || a.resource.PromotionRow? || (a.resource.FolioRow? && other.Charge?)
  {
  }

  /** Where a confirmation waits at a stock row it waits at a reference. */
  lemma ConfirmWaits(confirm: Operation, other: Operation, homes: Homes, i: nat, u: nat, j: nat, v: nat)
    requires confirm.ConfirmBot? && MovesStock(other) && Housed(confirm, homes) && Housed(other, homes)
    requires Crossed(Program(confirm), Program(other), i, u, j, v)
    requires StockRow(Program(confirm)[i].resource) && Program(other)[v].mode == Update
    ensures Program(confirm)[i].mode == KeyShare
  {
    ConfirmRefers(confirm, homes);
    MovesJournal(other, homes);
    var m := WaitsAtReference(Program(confirm), CartProducts(confirm.cart), CartPlaces(confirm), Program(other), other.products,
                              homes, i, v);
  }

  lemma ConfirmInverts(confirm: Operation, other: Operation, homes: Homes, i: nat, u: nat, j: nat, v: nat)
    requires confirm.ConfirmBot? && MovesStock(other) && Housed(confirm, homes) && Housed(other, homes)
    requires Crossed(Program(confirm), Program(other), i, u, j, v)
    requires StockRow(Program(confirm)[i].resource) && Program(other)[v].mode == Update
    requires StockRow(Program(confirm)[u].resource) && Program(other)[j].mode == Update
    ensures Inverted(CartProducts(confirm.cart), other.products)
  {
    ConfirmRefers(confirm, homes);
    MovesJournal(other, homes);
    CrossingInverts(Program(confirm), CartProducts(confirm.cart), CartPlaces(confirm), Program(other), other.products, homes,
                    i, u, j, v);
  }

  lemma ReferencesMeetStock(confirm: Operation, other: Operation, homes: Homes, held: nat)
    requires confirm.ConfirmBot? && MovesStock(other) && !other.ConfirmBot? && Housed(confirm, homes) && Housed(other, homes)
    requires held <= RefsEnd(confirm)
    ensures OnlyStockMeets(Program(confirm), held, Program(other))
  {
    var a, c := Program(confirm), Program(other);
    forall u, y | 0 <= u < held && u < |a| && 0 <= y < |c| && Conflict(a[u], c[y])
      ensures StockRow(c[y].resource) && c[y].mode == Update
    {
      KindAt(confirm, homes, u);
      KindAt(other, homes, y);
      ConfirmMeets(confirm, other, homes, a[u], c[y]);
      BeforeReferencesEnd(confirm, homes, u);
    }
  }

  lemma BeforeReferencesEnd(op: Operation, homes: Homes, u: nat)
    requires op.ConfirmBot? && Housed(op, homes) && u < RefsEnd(op) && u < |Program(op)|
    ensures !Program(op)[u].resource.PromotionRow? && !Program(op)[u].resource.FolioRow?
  {
    ConfirmSizes(op);
    BeforeAt(op, u);
    ConfirmBeforeKind(op, homes, u);
  }

  lemma ConfirmFaces(confirm: Operation, other: Operation, homes: Homes, a: seq<Lock>, refs: seq<Id>, place: seq<nat>, c: seq<Lock>,
                     k: nat)
    requires confirm.ConfirmBot? && MovesStock(other) && !other.ConfirmBot? && Housed(confirm, homes) && Housed(other, homes)
    requires a == Program(confirm) && refs == CartProducts(confirm.cart) && place == CartPlaces(confirm) && c == Program(other)
    requires k < |refs|
    ensures Referring(a, refs, place, homes) && Journaling(c, other.products, homes) && OnlyStockMeets(a, place[k] + 1, c)
  {
    ConfirmRefers(confirm, homes);
    MovesJournal(other, homes);
    CartAt(confirm, k);
    ReferencesMeetStock(confirm, other, homes, place[k] + 1);
  }

  lemma InvertedConfirmCrosses(confirm: Operation, other: Operation, homes: Homes, a: seq<Lock>, refs: seq<Id>, place: seq<nat>,
                               c: seq<Lock>, products: seq<Id>)
    requires confirm.ConfirmBot? && MovesStock(other) && !other.ConfirmBot? && Housed(confirm, homes) && Housed(other, homes)
    requires a == Program(confirm) && refs == CartProducts(confirm.cart) && place == CartPlaces(confirm) && c == Program(other)
    requires products == other.products && Inverted(refs, products)
    ensures CanGetStuck([a, c])
  {
    var k, m :| 0 <= k < m < |refs| && FirstShared(refs, products, k) && refs[m] in products && refs[m] < refs[k];
    ConfirmFaces(confirm, other, homes, a, refs, place, c, k);
    InvertedCrosses(a, refs, place, c, products, homes, k, m);
  }

  /** A cancellation counts last, so it waits for no counter a confirmation that wants its stock holds. */
  lemma CancelWaitsForStock(confirm: Operation, cancel: Operation, homes: Homes, au: Lock, ai: Lock, cv: Lock, cj: Lock)
    requires confirm.ConfirmBot? && cancel.Cancel?
    requires Ordered(confirm, homes, au, ai) && Ordered(cancel, homes, cv, cj) && Conflict(ai, cv) && Conflict(au, cj)
    requires StockRow(ai.resource) ==> ai.mode == KeyShare
    ensures StockRow(ai.resource) && StockRow(au.resource) && cv.mode == Update && cj.mode == Update
  {
    ConfirmMeets(confirm, cancel, homes, ai, cv);
    ConfirmMeets(confirm, cancel, homes, au, cj);
  }

  /** A bot confirmation and a cancellation can wait for each other for good exactly when, of the products they have in common,
      the one the cart names first is not the smallest. */
  lemma ConfirmAndCancelDeadlockIff(confirm: Operation, cancel: Operation, homes: Homes)
    requires confirm.ConfirmBot? && cancel.Cancel? && Housed(confirm, homes) && Housed(cancel, homes)
    ensures CanGetStuck([Program(confirm), Program(cancel)]) <==> Inverted(CartProducts(confirm.cart), cancel.products)
  {
    var a, c := Program(confirm), Program(cancel);
    if CanGetStuck([a, c]) {
      var i, u, j, v := StuckCrosses(a, c);
      InOrderAt(confirm, homes, u, i);
      InOrderAt(cancel, homes, v, j);
      ConfirmMeets(confirm, cancel, homes, a[i], c[v]);
      if StockRow(a[i].resource) {
        ConfirmWaits(confirm, cancel, homes, i, u, j, v);
      }
      CancelWaitsForStock(confirm, cancel, homes, a[u], a[i], c[v], c[j]);
      ConfirmInverts(confirm, cancel, homes, i, u, j, v);
    }
    if Inverted(CartProducts(confirm.cart), cancel.products) {
      InvertedConfirmCrosses(confirm, cancel, homes, a, CartProducts(confirm.cart), CartPlaces(confirm), c, cancel.products);
    }
  }

  /** A confirmation that waits for a charge waits for its stock, or for a counter of a charge that wants its stock. */
  lemma ChargeWaits(confirm: Operation, charge: Operation, homes: Homes, au: Lock, ai: Lock, cv: Lock, cj: Lock)
    requires confirm.ConfirmBot? && charge.Charge?
    requires Ordered(confirm, homes, au, ai) && Ordered(charge, homes, cv, cj) && Conflict(ai, cv) && Conflict(au, cj)
    ensures StockRow(au.resource) && cj.mode == Update
    ensures (StockRow(ai.resource) && cv.mode == Update) || (ShareCounter(confirm, charge) && ShareProduct(confirm, charge))
  {
    ConfirmMeets(confirm, charge, homes, ai, cv);
    ConfirmMeets(confirm, charge, homes, au, cj);
    if !StockRow(ai.resource) {
      assert ai.resource.id in confirm.promotions && ai.resource.id in charge.promotions;
      var home := Home(au.resource, homes).value;
      assert home in confirm.products && home in charge.products;
    }
  }

  /** Two confirmations that one after the other lock the same customer, or the same quote, first of all. */
  predicate Fenced(x: Operation, y: Operation)
    requires x.ConfirmBot? && y.ConfirmBot?
  {
    || (x.customer == y.customer && (x.quote.Some? || y.quote.Some?))
    || (x.quote.Some? && x.quote == y.quote)
  }

  predicate Apart(seller: Operation, confirm: Operation)
    requires Sells(seller) && confirm.ConfirmBot?
  {
    seller.ConfirmBot? ==> !Fenced(seller, confirm)
  }

  lemma SellerMeets(seller: Operation, confirm: Operation, homes: Homes, a: Lock, c: Lock)
    requires Sells(seller) && confirm.ConfirmBot? && Apart(seller, confirm)
    requires Kind(seller, homes, a) && Kind(confirm, homes, c) && Conflict(a, c)
    ensures StockRow(c.resource) || c.resource.PromotionRow? || c.resource.FolioRow?
    ensures a.mode == KeyShare ==> c.mode == Update
  {
  }

  /** Until it has referred to all its products a confirmation waits for nothing a seller takes before its stock. */
  lemma MeetsAfterReferences(seller: Operation, confirm: Operation, homes: Homes, u: nat, j: nat)
    requires Sells(seller) && confirm.ConfirmBot? && Apart(seller, confirm) && Housed(seller, homes) && Housed(confirm, homes)
    requires u < BeforeSize(seller) && u < |Program(seller)| && j < |Program(confirm)|
    requires Conflict(Program(seller)[u], Program(confirm)[j])
    ensures RefsEnd(confirm) <= j
  {
    KindAt(seller, homes, u);
    KindAt(confirm, homes, j);
    SellerMeets(seller, confirm, homes, Program(seller)[u], Program(confirm)[j]);
    ConfirmSizes(confirm);
    if j < RefsEnd(confirm) {
      BeforeReferencesEnd(confirm, homes, j);
    }
  }

  /** A confirmation that meets a seller before the seller's stock holds references the seller will wait for. */
  lemma ConfirmOvertakes(seller: Operation, confirm: Operation, homes: Homes, p: Id, z: nat)
    requires Sells(seller) && confirm.ConfirmBot? && Apart(seller, confirm) && Housed(seller, homes) && Housed(confirm, homes)
    requires p in seller.products && p in confirm.products
    requires z < |Program(confirm)| && Meets(Program(seller), BeforeSize(seller), Program(confirm)[z])
    ensures CanGetStuck([Program(seller), Program(confirm)])
  {
    var a, c, h := Program(seller), Program(confirm), BeforeSize(seller);
    var j := FindMeeting(a, h, c, 0, z);
    var u :| 0 <= u < h && u < |a| && Conflict(a[u], c[j]);
    MeetsAfterReferences(seller, confirm, homes, u, j);
    var y := SharedAt(confirm, homes, p);
    var q := ProductAt(seller, p);
    assert Conflict(c[y], a[q]);
    CrossFrom(a, c, h, j, q);
  }

  lemma SharedAt(confirm: Operation, homes: Homes, p: Id) returns (y: nat)
    requires confirm.ConfirmBot? && Housed(confirm, homes) && p in confirm.products
    ensures y < RefsEnd(confirm) && y < |Program(confirm)| && Program(confirm)[y] == Lock(ProductRow(p), KeyShare)
  {
    var k :| 0 <= k < |confirm.cart| && confirm.cart[k].product == p;
    CartAt(confirm, k);
    y := CartPlace(confirm, k);
  }

  lemma CounterOvertakes(confirm: Operation, charge: Operation, homes: Homes, id: Id, p: Id)
    requires confirm.ConfirmBot? && charge.Charge? && Housed(confirm, homes) && Housed(charge, homes)
    requires id in confirm.promotions && id in charge.promotions && p in confirm.products && p in charge.products
    ensures CanGetStuck([Program(confirm), Program(charge)])
  {
    var x := SellerCounterAt(charge, id);
    var z := SellerCounterAt(confirm, id);
    assert Conflict(Program(charge)[x], Program(confirm)[z]);
    ConfirmOvertakes(charge, confirm, homes, p, z);
    PairSymmetric(Program(charge), Program(confirm));
  }

  /** A bot confirmation and a charge can wait for each other for good exactly when they have a promotion and a product in
      common, or the one of the products in common the cart names first is not the smallest. */
  lemma ConfirmAndChargeDeadlockIff(confirm: Operation, charge: Operation, homes: Homes)
    requires confirm.ConfirmBot? && charge.Charge? && Housed(confirm, homes) && Housed(charge, homes)
    ensures CanGetStuck([Program(confirm), Program(charge)]) <==>
            || (ShareCounter(confirm, charge) && ShareProduct(confirm, charge))
            || Inverted(CartProducts(confirm.cart), charge.products)
  {
    var a, c := Program(confirm), Program(charge);
    if CanGetStuck([a, c]) {
      var i, u, j, v := StuckCrosses(a, c);
      InOrderAt(confirm, homes, u, i);
      InOrderAt(charge, homes, v, j);
      ChargeWaits(confirm, charge, homes, a[u], a[i], c[v], c[j]);
      if StockRow(a[i].resource) && c[v].mode == Update {
        ConfirmInverts(confirm, charge, homes, i, u, j, v);
      }
    }
    if ShareCounter(confirm, charge) && ShareProduct(confirm, charge) {
      var id :| id in confirm.promotions && id in charge.promotions;
      var p :| p in confirm.products && p in charge.products;
      CounterOvertakes(confirm, charge, homes, id, p);
    }
    if Inverted(CartProducts(confirm.cart), charge.products) {
      InvertedConfirmCrosses(confirm, charge, homes, a, CartProducts(confirm.cart), CartPlaces(confirm), c, charge.products);
    }
  }

  lemma ConfirmsShare(x: Operation, y: Operation, homes: Homes, au: Lock, ai: Lock, cv: Lock, cj: Lock)
    requires x.ConfirmBot? && y.ConfirmBot?
    requires Ordered(x, homes, au, ai) && Ordered(y, homes, cv, cj) && Conflict(ai, cv) && Conflict(au, cj)
    ensures ShareProduct(x, y)
  {
    assert StockRow(ai.resource) || StockRow(cj.resource);
    var r := if StockRow(ai.resource) then ai.resource else cj.resource;
    var home := Home(r, homes).value;
    assert home in x.products && home in y.products;
  }

  lemma SameCustomerWaits(x: Operation, y: Operation, i: nat, u: nat, j: nat, v: nat)
    requires x.ConfirmBot? && y.ConfirmBot? && Crossed(Program(x), Program(y), i, u, j, v)
    ensures !(x.customer == y.customer && (x.quote.Some? || y.quote.Some?))
  {
    CustomerFirst(x);
    CustomerFirst(y);
    assert !Conflict(Program(x)[0], Program(y)[0]);
  }

  lemma SameQuoteWaits(x: Operation, y: Operation, homes: Homes, i: nat, u: nat, j: nat, v: nat)
    requires x.ConfirmBot? && y.ConfirmBot? && Housed(x, homes) && Housed(y, homes)
    requires Crossed(Program(x), Program(y), i, u, j, v)
    ensures !(x.quote.Some? && x.quote == y.quote)
  {
    if x.quote.Some? && x.quote == y.quote {
      QuoteSecond(x);
      QuoteSecond(y);
      PastQuote(x, y, homes, i, u, j, v);
      CrossedSymmetric(Program(x), Program(y), i, u, j, v);
      PastQuote(y, x, homes, j, v, i, u);
      assert Conflict(Program(x)[1], Program(y)[1]);
    }
  }

  /** Nobody waits for a customer behind anything else, so nobody is waited for at its quote. */
  lemma PastQuote(x: Operation, y: Operation, homes: Homes, i: nat, u: nat, j: nat, v: nat)
    requires x.ConfirmBot? && y.ConfirmBot? && Housed(x, homes) && Housed(y, homes)
    requires Crossed(Program(x), Program(y), i, u, j, v)
    ensures i > 1
  {
    InOrderAt(y, homes, v, j);
    CustomerFirst(x);
  }

  lemma QuoteSecond(op: Operation)
    requires op.ConfirmBot? && op.quote.Some?
    ensures |Program(op)| > 1 && Program(op)[1] == Lock(QuoteRow(op.quote.value), Update)
  {
  }

  /** Two bot confirmations can wait for each other for good exactly when they have a product in common and neither a quoted
      customer nor a quote keeps them apart. */
  lemma TwoConfirmationsDeadlockIff(x: Operation, y: Operation, homes: Homes)
    requires x.ConfirmBot? && y.ConfirmBot? && Housed(x, homes) && Housed(y, homes)
    ensures CanGetStuck([Program(x), Program(y)]) <==> ShareProduct(x, y) && !Fenced(x, y)
  {
    var a, c := Program(x), Program(y);
    if CanGetStuck([a, c]) {
      var i, u, j, v := StuckCrosses(a, c);
      InOrderAt(x, homes, u, i);
      InOrderAt(y, homes, v, j);
      ConfirmsShare(x, y, homes, a[u], a[i], c[v], c[j]);
      SameCustomerWaits(x, y, i, u, j, v);
      SameQuoteWaits(x, y, homes, i, u, j, v);
    }
    if ShareProduct(x, y) && !Fenced(x, y) {
      var p :| p in x.products && p in y.products;
      ReferenceOvertakes(x, y, homes, p);
    }
  }

  lemma ReferenceOvertakes(x: Operation, y: Operation, homes: Homes, p: Id)
    requires x.ConfirmBot? && y.ConfirmBot? && Housed(x, homes) && Housed(y, homes) && !Fenced(x, y)
    requires p in x.products && p in y.products
    ensures CanGetStuck([Program(x), Program(y)])
  {
    var k := SharedAt(x, homes, p);
    ConfirmSizes(x);
    var z := ProductAt(y, p);
    assert Conflict(Program(x)[k], Program(y)[z]);
    ConfirmOvertakes(x, y, homes, p, z);
  }

  // ----- New price lists -----

  lemma ListMeets(list: Operation, op: Operation, homes: Homes, x: nat, y: nat)
    requires list.CreatePriceList? && MovesStock(op) && Housed(op, homes)
    requires x < |Program(list)| && y < |Program(op)| && Conflict(Program(list)[x], Program(op)[y])
    ensures StockRow(Program(list)[x].resource) && Program(op)[y].mode == Update && Program(op)[y].resource == Program(list)[x].resource
  {
    ListAt(list, x);
    KindAt(op, homes, y);
  }

  lemma ListCrosses(list: Operation, op: Operation, homes: Homes, a: seq<Lock>, refs: seq<Id>, place: seq<nat>, c: seq<Lock>)
    requires list.CreatePriceList? && MovesStock(op) && ListHoused(list, homes) && Housed(op, homes)
    requires a == Program(list) && refs == list.products && place == ListPlaces(list) && c == Program(op)
    requires Inverted(refs, op.products)
    ensures CanGetStuck([a, c])
  {
    var k, m :| 0 <= k < m < |refs| && FirstShared(refs, op.products, k) && refs[m] in op.products && refs[m] < refs[k];
    ListRefers(list, homes);
    MovesJournal(op, homes);
    forall u, y | 0 <= u < place[k] + 1 && u < |a| && 0 <= y < |c| && Conflict(a[u], c[y])
      ensures StockRow(c[y].resource) && c[y].mode == Update
    {
      ListMeets(list, op, homes, u, y);
    }
    InvertedCrosses(a, refs, place, c, op.products, homes, k, m);
  }

  lemma ListInverts(list: Operation, op: Operation, homes: Homes, i: nat, u: nat, j: nat, v: nat)
    requires list.CreatePriceList? && MovesStock(op) && ListHoused(list, homes) && Housed(op, homes)
    requires Crossed(Program(list), Program(op), i, u, j, v)
    ensures Inverted(list.products, op.products)
  {
    ListMeets(list, op, homes, i, v);
    ListMeets(list, op, homes, u, j);
    ListRefers(list, homes);
    MovesJournal(op, homes);
    CrossingInverts(Program(list), list.products, ListPlaces(list), Program(op), op.products, homes, i, u, j, v);
  }

  /** Creating a price list and charging, confirming or canceling a sale can wait for each other for good exactly when, of the
      sale's products, the one read first is not the smallest. */
  lemma PriceListDeadlockIff(list: Operation, op: Operation, homes: Homes)
    requires list.CreatePriceList? && MovesStock(op) && ListHoused(list, homes) && Housed(op, homes)
    ensures CanGetStuck([Program(list), Program(op)]) <==> Inverted(list.products, op.products)
  {
    if CanGetStuck([Program(list), Program(op)]) {
      var i, u, j, v := StuckCrosses(Program(list), Program(op));
      ListInverts(list, op, homes, i, u, j, v);
    }
    if Inverted(list.products, op.products) {
      ListCrosses(list, op, homes, Program(list), list.products, ListPlaces(list), Program(op));
    }
  }

  // ----- Session-bound requests -----

  predicate Requests(op: Operation) {
    op.Charge? || op.Collect?
  }

  /** Two session-bound requests about one sale, under different keys. */
  predicate Contend(x: Operation, y: Operation)
    requires Requests(x) && Requests(y)
  {
    x.bound.Some? && y.bound.Some? && x.sale == y.sale && x.bound.value.key != y.bound.value.key
  }

  /** A bound request takes its slot, shares the sale, takes the session and then the sale. */
  lemma BoundAt(op: Operation)
    requires Requests(op) && op.bound.Some?
    ensures |Program(op)| > 3
    ensures Program(op)[0] == Lock(SlotRow(op.bound.value.key), Update) && Program(op)[1] == Lock(SaleRow(op.sale), KeyShare)
    ensures Program(op)[2] == Lock(SessionRow(op.bound.value.session), Update) && Program(op)[3] == Lock(SaleRow(op.sale), Update)
  {
    assert Program(op)[..4] == SaleFront(op.bound, op.sale);
  }

  lemma RequestAt(op: Operation, x: nat)
    requires Requests(op) && x < |Program(op)|
    ensures Program(op)[x].mode == KeyShare ==> op.bound.Some? && x == 1
    ensures Program(op)[x].resource.SaleRow? ==> Program(op)[x].resource.id == op.sale && (x == 0 <==> op.bound.None?)
  {
    var front := SaleFront(op.bound, op.sale);
    if op.Charge? {
      var selling := Selling(op.promotions, op.products, op.lots, op.variants);
      SellingSales(op.promotions, op.products, op.lots, op.variants);
      InPart(front, selling, x);
    }
  }

  lemma SellingSales(promotions: seq<Id>, products: seq<Id>, lots: seq<Id>, variants: seq<Id>)
    ensures forall l :: l in Selling(promotions, products, lots, variants) ==> l.mode != KeyShare && !l.resource.SaleRow?
  {
  }

  lemma RequestRank(op: Operation, x: nat, y: nat)
    requires Requests(op) && SortedIds(op) && x < y < |Program(op)| && Program(op)[x].mode != KeyShare
    ensures Below(Rank(CountersFirst)(Program(op)[x].resource), Rank(CountersFirst)(Program(op)[y].resource))
  {
    ProgramsAreRanked(op, CountersFirst);
  }

  /** Somebody who shares its sale is waited for by somebody who has shared it too. */
  lemma ShareContends(x: Operation, y: Operation, i: nat, u: nat, j: nat, v: nat)
    requires Requests(x) && Requests(y) && Crossed(Program(x), Program(y), i, u, j, v) && Program(x)[u].mode == KeyShare
    ensures Contend(x, y)
  {
    RequestAt(x, u);
    BoundAt(x);
    RequestAt(y, j);
    BoundAt(y);
    assert !Conflict(Program(x)[0], Program(y)[0]);
  }

  lemma OneShares(x: Operation, y: Operation, i: nat, u: nat, j: nat, v: nat)
    requires Requests(x) && Requests(y) && SortedIds(x) && SortedIds(y) && Crossed(Program(x), Program(y), i, u, j, v)
    ensures Program(x)[u].mode == KeyShare || Program(y)[v].mode == KeyShare
  {
    if Program(x)[u].mode != KeyShare && Program(y)[v].mode != KeyShare {
      RequestRank(x, u, i);
      RequestRank(y, v, j);
    }
  }

  lemma ContendersCross(x: Operation, y: Operation)
    requires Requests(x) && Requests(y) && Contend(x, y)
    ensures CanGetStuck([Program(x), Program(y)])
  {
    var a, c := Program(x), Program(y);
    BoundAt(x);
    BoundAt(y);
    assert Conflict(c[1], a[3]) && Conflict(a[1], c[3]);
    var j := if x.bound.value.session == y.bound.value.session then 2 else 3;
    assert j == 2 ==> Conflict(a[2], c[2]);
    assert Crossing(a, c, 3, j);
    PairDeadlockIff(a, c);
  }

  /** Two charges, two collections or one of each can wait for each other for good exactly when both are bound to a cash
      session, under different keys, and are about the same sale. */
  lemma BoundRequestsDeadlockIff(x: Operation, y: Operation)
    requires Requests(x) && Requests(y) && SortedIds(x) && SortedIds(y)
    ensures CanGetStuck([Program(x), Program(y)]) <==> Contend(x, y)
  {
    if CanGetStuck([Program(x), Program(y)]) {
      var i, u, j, v := StuckCrosses(Program(x), Program(y));
      OneShares(x, y, i, u, j, v);
      if Program(x)[u].mode == KeyShare {
        ShareContends(x, y, i, u, j, v);
      } else {
        CrossedSymmetric(Program(x), Program(y), i, u, j, v);
        ShareContends(y, x, j, v, i, u);
      }
    }
    if Contend(x, y) {
      ContendersCross(x, y);
    }
  }

  // ----- Deadlocks -----

  /** A charge and a cancellation of different sales with one promotion and one product in common. */
  lemma ChargeAndCancelCanDeadlock(promotion: Id, product: Id)
    ensures CanGetStuck([Program(Charge(None, 1, [promotion], [product], [], [])),
                         Program(Cancel(2, [promotion], [product], [], []))])
  {
    var charge, cancel := Charge(None, 1, [promotion], [product], [], []), Cancel(2, [promotion], [product], [], []);
    assert promotion in charge.promotions && promotion in cancel.promotions;
    assert product in charge.products && product in cancel.products;
    ChargeAndCancelDeadlockIff(charge, cancel, Homes(map[], map[]));
  }

  /** Two bot confirmations of one product for different customers, with no promotion at all. */
  lemma TwoConfirmationsCanDeadlock(product: Id)
    ensures CanGetStuck([Program(ConfirmBot(1, None, [Line(product, None)], [], [product], [], [])),
                         Program(ConfirmBot(2, None, [Line(product, None)], [], [product], [], []))])
  {
    var x := ConfirmBot(1, None, [Line(product, None)], [], [product], [], []);
    var y := ConfirmBot(2, None, [Line(product, None)], [], [product], [], []);
    assert x.cart[0].product == product && y.cart[0].product == product;
    assert product in x.products && product in y.products;
    TwoConfirmationsDeadlockIff(x, y, Homes(map[], map[]));
  }

  /** A bot confirmation whose cart names two products in descending order, and a cancellation of both. */
  lemma ConfirmAndCancelCanDeadlock(p: Id, q: Id)
    requires p < q
    ensures CanGetStuck([Program(ConfirmBot(1, None, [Line(q, None), Line(p, None)], [], [p, q], [], [])),
                         Program(Cancel(2, [], [p, q], [], []))])
  {
    var confirm := ConfirmBot(1, None, [Line(q, None), Line(p, None)], [], [p, q], [], []);
    var cancel := Cancel(2, [], [p, q], [], []);
    assert confirm.cart[0].product == q && confirm.cart[1].product == p;
    assert FirstShared(CartProducts(confirm.cart), cancel.products, 0);
    ConfirmAndCancelDeadlockIff(confirm, cancel, Homes(map[], map[]));
  }

  /** Two session-bound charges of one sale under different keys: a second click, or a second register. */
  lemma TwoChargesCanDeadlock(sale: Id, session: Id)
    ensures CanGetStuck([Program(Charge(Some(Binding(1, session)), sale, [], [], [], [])),
                         Program(Charge(Some(Binding(2, session)), sale, [], [], [], []))])
  {
    BoundRequestsDeadlockIff(Charge(Some(Binding(1, session)), sale, [], [], [], []),
                             Charge(Some(Binding(2, session)), sale, [], [], [], []));
  }
}
