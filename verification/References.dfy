/** Rows that are shared before they are locked: a bot confirmation refers to the products of its lines in cart order and a new
price list to every product in the order they are read, while the stock journal locks products in id order
(src/sales/infrastructure/prisma-sale.repository.ts, src/price-lists/price-lists.service.ts,
src/inventory/infrastructure/stock-journal.writer.ts).
*/
module References {
  import opened Common
  import opened Locks
  import opened Deadlocks
  import opened LockOrder
  import opened SaleLocks

  /** A program that shares the products `refs`, each at its place, before it does anything else with them. */
  ghost predicate Referring(a: seq<Lock>, refs: seq<Id>, place: seq<nat>, homes: Homes) {
    && |place| == |refs|
    && (forall k :: 0 <= k < |refs| ==> place[k] < |a| && a[place[k]] == Lock(ProductRow(refs[k]), KeyShare))
    && (forall k, l :: 0 <= k < l < |refs| ==> place[k] < place[l])
    && forall x {:trigger SharedBy(refs, place, Home(a[x].resource, homes), x)} ::
         0 <= x < |a| && StockRow(a[x].resource) ==> SharedBy(refs, place, Home(a[x].resource, homes), x)
  }

  ghost predicate SharedBy(refs: seq<Id>, place: seq<nat>, home: Option<Id>, x: nat)
    requires |place| == |refs|
  {
    exists k :: 0 <= k < |refs| && Some(refs[k]) == home && place[k] <= x
  }

  /** A program that locks products in id order, and lots and variants after their product. */
  ghost predicate Journaling(c: seq<Lock>, products: seq<Id>, homes: Homes) {
    && (forall x, y :: 0 <= x < y < |c| && LocksProduct(c[x]) && LocksProduct(c[y]) ==> c[x].resource.id < c[y].resource.id)
    && (forall x {:trigger HomeLocked(c, products, Home(c[x].resource, homes), x)} ::
          0 <= x < |c| && StockRow(c[x].resource) && c[x].mode == Update ==>
            HomeLocked(c, products, Home(c[x].resource, homes), x))
    && forall p :: p in products ==> Lock(ProductRow(p), Update) in c
  }

  predicate LocksProduct(l: Lock) {
    l.resource.ProductRow? && l.mode == Update
  }

  ghost predicate HomeLocked(c: seq<Lock>, products: seq<Id>, home: Option<Id>, x: nat) {
    exists y :: 0 <= y <= x && y < |c| && LocksProduct(c[y]) && Some(c[y].resource.id) == home && c[y].resource.id in products
  }

  /** Of the products in common the one named first is not the smallest. */
  predicate Inverted(refs: seq<Id>, products: seq<Id>) {
    exists k, m :: 0 <= k < m < |refs| && FirstShared(refs, products, k) && refs[m] in products && refs[m] < refs[k]
  }

  predicate FirstShared(refs: seq<Id>, products: seq<Id>, k: nat)
    requires k < |refs|
  {
    refs[k] in products && forall l :: 0 <= l < k ==> refs[l] !in products
  }

  lemma {:induction false} FindShared(refs: seq<Id>, products: seq<Id>, k: nat) returns (f: nat)
    requires k < |refs| && refs[k] in products
    ensures f <= k && FirstShared(refs, products, f)
  {
    if l :| 0 <= l < k && refs[l] in products {
      f := FindShared(refs, products, l);
    } else {
      f := k;
    }
  }

  /** Whoever waits for a row of the journal before the two conflict waits at a reference. */
  lemma WaitsAtReference(a: seq<Lock>, refs: seq<Id>, place: seq<nat>, c: seq<Lock>, products: seq<Id>, homes: Homes,
                         i: nat, v: nat) returns (m: nat)
    requires Referring(a, refs, place, homes) && Journaling(c, products, homes)
    requires i < |a| && v < |c| && Compatible(a, i, c, v + 1)
    requires StockRow(a[i].resource) && c[v].mode == Update && c[v].resource == a[i].resource
    ensures m < |refs| && place[m] == i && refs[m] in products && c[v] == Lock(ProductRow(refs[m]), Update)
  {
    var home := Home(a[i].resource, homes);
    assert SharedBy(refs, place, Home(a[i].resource, homes), i) && HomeLocked(c, products, Home(c[v].resource, homes), v);
    m :| 0 <= m < |refs| && Some(refs[m]) == home && place[m] <= i;
    var y :| 0 <= y <= v && LocksProduct(c[y]) && Some(c[y].resource.id) == home && c[y].resource.id in products;
    assert Conflict(a[place[m]], c[y]);
  }

  /** Whoever is waited for at a row of the journal has referred to its product. */
  lemma HoldsReference(a: seq<Lock>, refs: seq<Id>, place: seq<nat>, c: seq<Lock>, products: seq<Id>, homes: Homes,
                       i: nat, u: nat, j: nat) returns (k: nat)
    requires Referring(a, refs, place, homes) && Journaling(c, products, homes)
    requires u < i <= |a| && j < |c| && Compatible(a, i, c, j)
    requires StockRow(a[u].resource) && c[j].mode == Update && c[j].resource == a[u].resource
    ensures k < |refs| && place[k] <= u && refs[k] in products && c[j] == Lock(ProductRow(refs[k]), Update)
  {
    var home := Home(a[u].resource, homes);
    assert SharedBy(refs, place, Home(a[u].resource, homes), u) && HomeLocked(c, products, Home(c[j].resource, homes), j);
    k :| 0 <= k < |refs| && Some(refs[k]) == home && place[k] <= u;
    var y :| 0 <= y <= j && LocksProduct(c[y]) && Some(c[y].resource.id) == home && c[y].resource.id in products;
    assert Conflict(a[place[k]], c[y]);
  }

  lemma PlacesOrder(place: seq<nat>, k: nat, m: nat)
    requires k < |place| && m < |place|
    requires forall x, y :: 0 <= x < y < |place| ==> place[x] < place[y]
    ensures place[k] < place[m] <==> k < m
  {
  }

  lemma CrossingInverts(a: seq<Lock>, refs: seq<Id>, place: seq<nat>, c: seq<Lock>, products: seq<Id>, homes: Homes,
                        i: nat, u: nat, j: nat, v: nat)
    requires Referring(a, refs, place, homes) && Journaling(c, products, homes)
    requires u < i < |a| && v < j < |c| && Compatible(a, i, c, j)
    requires StockRow(a[i].resource) && c[v].mode == Update && c[v].resource == a[i].resource
    requires StockRow(a[u].resource) && c[j].mode == Update && c[j].resource == a[u].resource
    ensures Inverted(refs, products)
  {
    var m := WaitsAtReference(a, refs, place, c, products, homes, i, v);
    var k := HoldsReference(a, refs, place, c, products, homes, i, u, j);
    PlacesOrder(place, k, m);
    var f := FindShared(refs, products, k);
    assert Lock(ProductRow(refs[f]), Update) in c;
    var x :| 0 <= x < |c| && c[x] == Lock(ProductRow(refs[f]), Update);
    assert place[f] < i && Conflict(a[place[f]], c[x]);
    assert v < x;
  }

  /** Nothing of `c` but its stock rows gets in the way of the references of `a`. */
  ghost predicate OnlyStockMeets(a: seq<Lock>, held: nat, c: seq<Lock>) {
    forall u, y :: 0 <= u < held && u < |a| && 0 <= y < |c| && Conflict(a[u], c[y]) ==>
      StockRow(c[y].resource) && c[y].mode == Update
  }

  lemma ProductLocked(c: seq<Lock>, products: seq<Id>, homes: Homes, p: Id) returns (x: nat)
    requires Journaling(c, products, homes) && p in products
    ensures x < |c| && c[x] == Lock(ProductRow(p), Update)
  {
    assert Lock(ProductRow(p), Update) in c;
    x :| 0 <= x < |c| && c[x] == Lock(ProductRow(p), Update);
  }

  lemma MeetsFirstReference(a: seq<Lock>, refs: seq<Id>, place: seq<nat>, c: seq<Lock>, products: seq<Id>, homes: Homes,
                            k: nat, j: nat)
    requires Referring(a, refs, place, homes) && Journaling(c, products, homes)
    requires k < |refs| && FirstShared(refs, products, k)
    requires OnlyStockMeets(a, place[k] + 1, c) && FirstMeeting(a, place[k] + 1, c, j)
    ensures c[j] == Lock(ProductRow(refs[k]), Update)
  {
    var held := place[k] + 1;
    UpToMeeting(a, c, held, held, j);
    var u :| 0 <= u < held && u < |a| && Conflict(a[u], c[j]);
    var l := HoldsReference(a, refs, place, c, products, homes, held, u, j);
    PlacesOrder(place, k, l);
  }

  /** The product named later is locked earlier. */
  lemma SmallerEarlier(c: seq<Lock>, products: seq<Id>, homes: Homes, x: nat, j: nat)
    requires Journaling(c, products, homes) && x < |c| && j < |c| && LocksProduct(c[x]) && LocksProduct(c[j])
    requires c[x].resource.id < c[j].resource.id
    ensures x < j
  {
  }

  lemma InvertedCrosses(a: seq<Lock>, refs: seq<Id>, place: seq<nat>, c: seq<Lock>, products: seq<Id>, homes: Homes,
                        k: nat, m: nat)
    requires Referring(a, refs, place, homes) && Journaling(c, products, homes)
    requires k < m < |refs| && FirstShared(refs, products, k) && refs[m] in products && refs[m] < refs[k]
    requires OnlyStockMeets(a, place[k] + 1, c)
    ensures CanGetStuck([a, c])
  {
    var x := ProductLocked(c, products, homes, refs[k]);
    assert Conflict(a[place[k]], c[x]) && Meets(a, place[k] + 1, c[x]);
    var j := FindMeeting(a, place[k] + 1, c, 0, x);
    MeetsFirstReference(a, refs, place, c, products, homes, k, j);
    var y := ProductLocked(c, products, homes, refs[m]);
    SmallerEarlier(c, products, homes, y, j);
    ThenCrosses(a, refs, place, c, homes, k, m, j, y);
  }

  lemma ThenCrosses(a: seq<Lock>, refs: seq<Id>, place: seq<nat>, c: seq<Lock>, homes: Homes, k: nat, m: nat, j: nat, y: nat)
    requires Referring(a, refs, place, homes) && k < m < |refs| && y < j
    requires FirstMeeting(a, place[k] + 1, c, j) && c[y] == Lock(ProductRow(refs[m]), Update)
    ensures CanGetStuck([a, c])
  {
    assert place[k] < place[m] && Conflict(c[y], a[place[m]]);
    CrossFrom(a, c, place[k] + 1, j, place[m]);
  }

  // ----- The operations -----

  lemma JournalAscends(op: Operation, homes: Homes, x: nat, y: nat)
    requires MovesStock(op) && Housed(op, homes) && x < y < |Program(op)|
    requires LocksProduct(Program(op)[x]) && LocksProduct(Program(op)[y])
    ensures Program(op)[x].resource.id < Program(op)[y].resource.id
  {
    InRank(op, x, y);
    ProductsClimb(Program(op)[x].resource, Program(op)[y].resource, OrderOf(op));
  }

  lemma ProductsClimb(r: Resource, s: Resource, o: Order)
    requires r.ProductRow? && s.ProductRow? && Below(Rank(o)(r), Rank(o)(s))
    ensures r.id < s.id
  {
  }

  lemma HomeComesFirst(op: Operation, homes: Homes, x: nat)
    requires MovesStock(op) && Housed(op, homes) && x < |Program(op)|
    requires StockRow(Program(op)[x].resource) && Program(op)[x].mode == Update
    ensures HomeLocked(Program(op), op.products, Home(Program(op)[x].resource, homes), x)
  {
    var l := Program(op)[x];
    KindAt(op, homes, x);
    if l.resource.ProductRow? {
      assert LocksProduct(Program(op)[x]);
    } else {
      var y := ProductAt(op, Home(l.resource, homes).value);
      assert LocksProduct(Program(op)[y]) && y <= x;
    }
  }

  /** The sale operations lock stock as the journal does. */
  lemma MovesJournal(op: Operation, homes: Homes)
    requires MovesStock(op) && Housed(op, homes)
    ensures Journaling(Program(op), op.products, homes)
  {
    var c := Program(op);
    forall x, y | 0 <= x < y < |c| && LocksProduct(c[x]) && LocksProduct(c[y])
      ensures c[x].resource.id < c[y].resource.id
    {
      JournalAscends(op, homes, x, y);
    }
    forall x | 0 <= x < |c| && StockRow(c[x].resource) && c[x].mode == Update
      ensures HomeLocked(c, op.products, Home(c[x].resource, homes), x)
    {
      HomeComesFirst(op, homes, x);
    }
    forall p | p in op.products
      ensures Lock(ProductRow(p), Update) in c
    {
      var x := ProductAt(op, p);
    }
  }

  function CartProducts(cart: seq<Line>): (r: seq<Id>)
    ensures |r| == |cart| && forall k :: 0 <= k < |r| ==> r[k] == cart[k].product
  {
    seq(|cart|, k requires 0 <= k < |cart| => cart[k].product)
  }

  function CartPlace(op: Operation, k: nat): nat
    requires op.ConfirmBot? && k <= |op.cart|
  {
    |BotFront(op.customer, op.quote)| + |Refs(op.cart[..k])|
  }

  function CartPlaces(op: Operation): (r: seq<nat>)
    requires op.ConfirmBot?
    ensures |r| == |op.cart| && forall k :: 0 <= k < |r| ==> r[k] == CartPlace(op, k)
  {
    seq(|op.cart|, k requires 0 <= k < |op.cart| => CartPlace(op, k))
  }

  lemma CartAt(op: Operation, k: nat)
    requires op.ConfirmBot? && k < |op.cart|
    ensures CartPlace(op, k) < RefsEnd(op) && CartPlace(op, k) < |Program(op)|
    ensures Program(op)[CartPlace(op, k)] == Lock(ProductRow(op.cart[k].product), KeyShare)
  {
    RefAt(op.cart, k);
    ConfirmBeforeAt(op, CartPlace(op, k));
    BeforeAt(op, CartPlace(op, k));
  }

  lemma CartShares(op: Operation, homes: Homes, x: nat)
    requires op.ConfirmBot? && Housed(op, homes) && x < |Program(op)| && StockRow(Program(op)[x].resource)
    ensures SharedBy(CartProducts(op.cart), CartPlaces(op), Home(Program(op)[x].resource, homes), x)
  {
    KindAt(op, homes, x);
    if x < BeforeSize(op) {
      CartSharesBefore(op, homes, x);
    } else {
      CartSharesAll(op, homes, Home(Program(op)[x].resource, homes).value, x);
    }
  }

  lemma CartSharesBefore(op: Operation, homes: Homes, x: nat)
    requires op.ConfirmBot? && Housed(op, homes) && x < BeforeSize(op) && x < |Program(op)| && StockRow(Program(op)[x].resource)
    ensures SharedBy(CartProducts(op.cart), CartPlaces(op), Home(Program(op)[x].resource, homes), x)
  {
    RefLockAt(op, homes, x);
    CartOwns(op, homes, Program(op)[x], x - |BotFront(op.customer, op.quote)|, x);
  }

  lemma CartOwns(op: Operation, homes: Homes, l: Lock, y: nat, x: nat)
    requires op.ConfirmBot? && Housed(op, homes) && y < |Refs(op.cart)| && l == Refs(op.cart)[y]
    requires x == |BotFront(op.customer, op.quote)| + y
    ensures SharedBy(CartProducts(op.cart), CartPlaces(op), Home(l.resource, homes), x)
  {
    var k := RefOwner(op.cart, homes, y);
    assert CartProducts(op.cart)[k] == op.cart[k].product && CartPlaces(op)[k] <= x;
  }

  lemma RefLockAt(op: Operation, homes: Homes, x: nat)
    requires op.ConfirmBot? && Housed(op, homes) && x < BeforeSize(op) && x < |Program(op)| && StockRow(Program(op)[x].resource)
    ensures |BotFront(op.customer, op.quote)| <= x < RefsEnd(op)
    ensures Program(op)[x] == Refs(op.cart)[x - |BotFront(op.customer, op.quote)|]
  {
    BeforeAt(op, x);
    ConfirmBeforeKind(op, homes, x);
    ConfirmBeforeAt(op, x);
    if x < |BotFront(op.customer, op.quote)| {
      FrontKind(op, homes, x);
    }
  }

  lemma CartSharesAll(op: Operation, homes: Homes, p: Id, x: nat)
    requires op.ConfirmBot? && Housed(op, homes) && p in op.products && RefsEnd(op) <= x
    ensures SharedBy(CartProducts(op.cart), CartPlaces(op), Some(p), x)
  {
    var k :| 0 <= k < |op.cart| && op.cart[k].product == p;
    CartAt(op, k);
    assert CartProducts(op.cart)[k] == p && CartPlaces(op)[k] <= x;
  }

  /** A confirmation refers to the products of its cart. */
  lemma ConfirmRefers(op: Operation, homes: Homes)
    requires op.ConfirmBot? && Housed(op, homes)
    ensures Referring(Program(op), CartProducts(op.cart), CartPlaces(op), homes)
  {
    forall k | 0 <= k < |op.cart|
      ensures CartPlace(op, k) < |Program(op)|
      ensures Program(op)[CartPlace(op, k)] == Lock(ProductRow(op.cart[k].product), KeyShare)
    {
      CartAt(op, k);
    }
    forall k, l | 0 <= k < l < |op.cart|
      ensures CartPlace(op, k) < CartPlace(op, l)
    {
      RefsGrow(op.cart, k, l);
    }
    forall x | 0 <= x < |Program(op)| && StockRow(Program(op)[x].resource)
      ensures SharedBy(CartProducts(op.cart), CartPlaces(op), Home(Program(op)[x].resource, homes), x)
    {
      CartShares(op, homes, x);
    }
  }

  /** A new price list reads the tenant's products with all their variants. */
  ghost predicate ListHoused(op: Operation, homes: Homes)
    requires op.CreatePriceList?
  {
    forall v :: v in op.variants ==> v in homes.variants && homes.variants[v] in op.products
  }

  function ListPlaces(op: Operation): (r: seq<nat>)
    requires op.CreatePriceList?
    ensures |r| == |op.products| && forall k :: 0 <= k < |r| ==> r[k] == k + 1
  {
    seq(|op.products|, k requires 0 <= k < |op.products| => k + 1)
  }

  lemma ListAt(op: Operation, x: nat)
    requires op.CreatePriceList? && x < |Program(op)|
    ensures |Program(op)| == 1 + |op.products| + |op.variants|
    ensures Program(op)[x] == if x == 0 then Lock(LifecycleGate, Update)
                              else if x <= |op.products| then Lock(ProductRow(op.products[x - 1]), KeyShare)
                              else Lock(VariantRow(op.variants[x - 1 - |op.products|]), KeyShare)
  {
    var gate, products, variants := [Lock(LifecycleGate, Update)], Products(op.products, KeyShare), Variants(op.variants, KeyShare);
    assert gate + (products + variants) == gate + products + variants;
    InThree(gate, products, variants, x);
  }

  lemma ListShares(op: Operation, homes: Homes, x: nat)
    requires op.CreatePriceList? && ListHoused(op, homes) && x < |Program(op)| && StockRow(Program(op)[x].resource)
    ensures SharedBy(op.products, ListPlaces(op), Home(Program(op)[x].resource, homes), x)
  {
    ListAt(op, x);
    var home := Home(Program(op)[x].resource, homes).value;
    var k :| 0 <= k < |op.products| && op.products[k] == home && (x <= |op.products| ==> k == x - 1);
    assert ListPlaces(op)[k] <= x;
  }

  lemma ListPlaceAt(op: Operation, k: nat)
    requires op.CreatePriceList? && k < |op.products|
    ensures k + 1 < |Program(op)| && Program(op)[k + 1] == Lock(ProductRow(op.products[k]), KeyShare)
  {
    ListAt(op, 0);
    ListAt(op, k + 1);
  }

  /** A new price list refers to its products. */
  lemma ListRefers(op: Operation, homes: Homes)
    requires op.CreatePriceList? && ListHoused(op, homes)
    ensures Referring(Program(op), op.products, ListPlaces(op), homes)
  {
    forall k | 0 <= k < |op.products|
      ensures k + 1 < |Program(op)| && Program(op)[k + 1] == Lock(ProductRow(op.products[k]), KeyShare)
    {
      ListPlaceAt(op, k);
    }
    forall x | 0 <= x < |Program(op)| && StockRow(Program(op)[x].resource)
      ensures SharedBy(op.products, ListPlaces(op), Home(Program(op)[x].resource, homes), x)
    {
      ListShares(op, homes, x);
    }
  }
}
