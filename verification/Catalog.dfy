/** Product, variant and lot lifecycle with its stock journal and price matrix: src/products/products.service.ts
and src/price-lists/price-lists.service.ts.

A price row is identified by the unique key the schema gives it: a product and a global list; a variant price by a
variant and such a row. Ids of new rows are arguments, fresh like any generated id.
*/
module Catalog {
  import opened Common
  import opened StockJournal
  import opened SaleStock
  import opened StockRemoval

  datatype Cell = Cell(productId: Id, listId: Id)

  datatype VariantCell = VariantCell(variantId: Id, cell: Cell)

  /** `lists` maps each global list to whether it is the default one; `log` is the whole movement journal. */
  datatype State = State(
    lists: map<Id, bool>,
    stock: Stock,
    log: seq<Movement>,
    usesLots: set<Id>,
    prices: map<Cell, int>,
    variantPrices: map<VariantCell, int>
  )

  datatype Error =
    | NotFound
    | InvalidArgument
    | LotsNotEnabled
    | ProductHasVariants
    | LotHasStock
    | DefaultListProtected
    | StockRefused(stock: StockError)

  datatype NewProduct = NewProduct(
    useStock: bool,
    usesLots: bool,
    hasVariants: bool,
    quantity: int,
    variants: seq<Variant>,
    lots: seq<Lot>,
    defaultCents: int
  )

  datatype Operation =
    | Create(id: Id, product: NewProduct)
    | Remove(id: Id)
    | AddVariant(id: Id, variantId: Id, quantity: int)
    | RemoveVariant(id: Id, variantId: Id)
    | AddLot(id: Id, lotId: Id, quantity: int, expiresOn: int)
    | RemoveLot(id: Id, lotId: Id)
    | SetVariantPrice(id: Id, variantId: Id, cell: Cell, cents: int)
    | RemoveVariantPrice(id: Id, variantId: Id, cell: Cell)
    | CreateList(listId: Id)
    | RemoveList(listId: Id)

  // ----- Rows -----

  function EmptyVariants(variants: seq<Variant>): (r: seq<Variant>)
    ensures |r| == |variants| && forall i :: 0 <= i < |r| ==> r[i] == variants[i].(quantity := 0)
  {
    seq(|variants|, i requires 0 <= i < |variants| => variants[i].(quantity := 0))
  }

  function EmptyLots(lots: seq<Lot>): (r: seq<Lot>)
    ensures |r| == |lots| && forall i :: 0 <= i < |r| ==> r[i] == lots[i].(quantity := 0)
  {
    seq(|lots|, i requires 0 <= i < |lots| => lots[i].(quantity := 0))
  }

  /** Every bucket of a new product starts at zero. */
  function EmptyProduct(n: NewProduct): Product {
    Product(0, n.useStock, n.hasVariants, EmptyLots(n.lots), EmptyVariants(n.variants))
  }

  function InitialVariants(id: Id, variants: seq<Variant>): seq<Change> {
    if variants == [] then []
    else
      var rest := InitialVariants(id, variants[..|variants| - 1]);
      var v := variants[|variants| - 1];
      if v.quantity > 0 then rest + [Change(VariantOf(id, v.id), v.quantity, false)] else rest
  }

  function InitialLots(id: Id, lots: seq<Lot>): seq<Change> {
    if lots == [] then []
    else
      var rest := InitialLots(id, lots[..|lots| - 1]);
      var l := lots[|lots| - 1];
      if l.quantity > 0 then rest + [Change(LotOf(id, l.id), l.quantity, false)] else rest
  }

  /** The entity keeps an initial quantity only when the product tracks stock and has no variants. */
  function InitialStock(id: Id, n: NewProduct): seq<Change> {
    (if n.useStock && !n.hasVariants && n.quantity > 0 then [Change(Untracked(id), n.quantity, false)] else []) +
    InitialVariants(id, n.variants) + InitialLots(id, n.lots)
  }

  function VariantIds(p: Product): set<Id> {
    set v | v in p.variants :: v.id
  }

  function OnlyPositive(c: Change): seq<Change> {
    if c.delta > 0 then [c] else []
  }

  // ----- Operations -----

  function CreateProduct(st: State, id: Id, n: NewProduct): Result<State, Error> {
    if (n.variants != [] && !n.hasVariants) || (n.lots != [] && (!n.usesLots || n.hasVariants)) then Err(InvalidArgument)
    else
      match ApplyChanges(st.stock[id := EmptyProduct(n)], InitialStock(id, n))
      case Err(e) => Err(StockRefused(e))
      case Ok(a) =>
        var rows := map g | g in st.lists :: Cell(id, g) := if st.lists[g] then n.defaultCents else 0;
        var cells := set v, g | v in n.variants && g in st.lists :: VariantCell(v.id, Cell(id, g));
        Ok(st.(stock := a.stock, log := st.log + a.movements,
               usesLots := if n.usesLots && n.useStock && !n.hasVariants then st.usesLots + {id} else st.usesLots,
               prices := st.prices + rows,
               variantPrices := st.variantPrices + map c | c in cells :: 0))
  }

  function RemoveProduct(st: State, id: Id): Result<State, Error> {
    if id !in st.stock then Err(NotFound)
    else
      match ApplyChanges(st.stock, Removals(id, st.stock[id]))
      case Err(e) => Err(StockRefused(e))
      case Ok(a) =>
        Ok(st.(stock := a.stock - {id}, log := st.log + a.movements, usesLots := st.usesLots - {id},
               prices := map c | c in st.prices && c.productId != id :: st.prices[c],
               variantPrices := map v | v in st.variantPrices && v.cell.productId != id :: st.variantPrices[v]))
  }

  /** The first variant empties the parent's own stock before it takes over. */
  function Converted(st: State, id: Id): Result<State, Error>
    requires id in st.stock
  {
    if st.stock[id].hasVariants then Ok(st)
    else
      match ApplyChanges(st.stock, Removals(id, st.stock[id]))
      case Err(e) => Err(StockRefused(e))
      case Ok(a) =>
        if id !in a.stock then Err(NotFound)
        else
          Ok(st.(stock := a.stock[id := a.stock[id].(hasVariants := true, quantity := 0)],
                 log := st.log + a.movements, usesLots := st.usesLots - {id}))
  }

  function WithVariantRow(st: State, id: Id, variantId: Id): State
    requires id in st.stock
  {
    var p := st.stock[id];
    var cells := set c | c in st.prices && c.productId == id :: VariantCell(variantId, c);
    st.(stock := st.stock[id := p.(variants := p.variants + [Variant(variantId, 0)])],
        variantPrices := st.variantPrices + map c | c in cells :: 0)
  }

  function Posting(st: State, changes: seq<Change>): Result<State, Error> {
    match ApplyChanges(st.stock, changes)
    case Err(e) => Err(StockRefused(e))
    case Ok(a) => Ok(st.(stock := a.stock, log := st.log + a.movements))
  }

  function AddedVariant(st: State, id: Id, variantId: Id, quantity: int): Result<State, Error> {
    if id !in st.stock then Err(NotFound)
    else
      match Converted(st, id)
      case Err(e) => Err(e)
      case Ok(converted) =>
        if id !in converted.stock then Err(NotFound)
        else Posting(WithVariantRow(converted, id, variantId), OnlyPositive(Change(VariantOf(id, variantId), quantity, false)))
  }

  function WithoutVariantRow(st: State, id: Id, i: nat): State
    requires id in st.stock && i < |st.stock[id].variants|
  {
    var p := st.stock[id];
    var rest := p.variants[..i] + p.variants[i + 1..];
    st.(stock := st.stock[id := p.(variants := rest, hasVariants := if rest == [] then false else p.hasVariants)],
        variantPrices := map v | v in st.variantPrices && v.variantId != p.variants[i].id :: st.variantPrices[v])
  }

  function RemovedVariant(st: State, id: Id, variantId: Id): Result<State, Error> {
    if id !in st.stock || FindVariant(st.stock[id].variants, variantId).None? then Err(NotFound)
    else
      var v := st.stock[id].variants[FindVariant(st.stock[id].variants, variantId).value];
      match Posting(st, VariantDrain(id, v))
      case Err(e) => Err(e)
      case Ok(emptied) =>
        if id !in emptied.stock || FindVariant(emptied.stock[id].variants, variantId).None? then Err(NotFound)
        else Ok(WithoutVariantRow(emptied, id, FindVariant(emptied.stock[id].variants, variantId).value))
  }

  function AddedLot(st: State, id: Id, lotId: Id, quantity: int, expiresOn: int): Result<State, Error> {
    if id !in st.stock then Err(NotFound)
    else if id !in st.usesLots then Err(LotsNotEnabled)
    else if st.stock[id].hasVariants then Err(ProductHasVariants)
    else
      var p := st.stock[id];
      var row := st.(stock := st.stock[id := p.(lots := p.lots + [Lot(lotId, 0, expiresOn)])]);
      Posting(row, OnlyPositive(Change(LotOf(id, lotId), quantity, false)))
  }

  function RemovedLot(st: State, id: Id, lotId: Id): Result<State, Error> {
    if id !in st.stock || FindLot(st.stock[id].lots, lotId).None? then Err(NotFound)
    else
      var p := st.stock[id];
      var i := FindLot(p.lots, lotId).value;
      if p.lots[i].quantity > 0 then Err(LotHasStock)
      else Ok(st.(stock := st.stock[id := p.(lots := p.lots[..i] + p.lots[i + 1..])]))
  }

  predicate HasVariant(st: State, id: Id, variantId: Id) {
    id in st.stock && FindVariant(st.stock[id].variants, variantId).Some?
  }

  function PricedVariant(st: State, id: Id, variantId: Id, cell: Cell, cents: int): Result<State, Error> {
    if !HasVariant(st, id, variantId) || cell !in st.prices || cell.productId != id then Err(NotFound)
    else Ok(st.(variantPrices := st.variantPrices[VariantCell(variantId, cell) := cents]))
  }

  function UnpricedVariant(st: State, id: Id, variantId: Id, cell: Cell): Result<State, Error> {
    if !HasVariant(st, id, variantId) || cell !in st.prices || cell.productId != id then Err(NotFound)
    else if cell.listId in st.lists && st.lists[cell.listId] then Err(DefaultListProtected)
    else if VariantCell(variantId, cell) !in st.variantPrices then Err(NotFound)
    else Ok(st.(variantPrices := st.variantPrices - {VariantCell(variantId, cell)}))
  }

  /** Fills a column of the matrix: every product, and the variants of every product that has any. */
  function CreatedList(st: State, listId: Id): State {
    var rows := set id | id in st.stock :: Cell(id, listId);
    var cells := set id, v | id in st.stock && st.stock[id].hasVariants && v in st.stock[id].variants ::
                   VariantCell(v.id, Cell(id, listId));
    st.(lists := st.lists[listId := false],
        prices := st.prices + map c | c in rows :: 0,
        variantPrices := st.variantPrices + map c | c in cells :: 0)
  }

  function RemovedList(st: State, listId: Id): Result<State, Error> {
    if listId !in st.lists then Err(NotFound)
    else if st.lists[listId] then Err(DefaultListProtected)
    else
      Ok(st.(lists := st.lists - {listId},
             prices := map c | c in st.prices && c.listId != listId :: st.prices[c],
             variantPrices := map v | v in st.variantPrices && v.cell.listId != listId :: st.variantPrices[v]))
  }

  function Do(st: State, o: Operation): Result<State, Error> {
    match o
    case Create(id, product) => CreateProduct(st, id, product)
    case Remove(id) => RemoveProduct(st, id)
    case AddVariant(id, variantId, quantity) => AddedVariant(st, id, variantId, quantity)
    case RemoveVariant(id, variantId) => RemovedVariant(st, id, variantId)
    case AddLot(id, lotId, quantity, expiresOn) => AddedLot(st, id, lotId, quantity, expiresOn)
    case RemoveLot(id, lotId) => RemovedLot(st, id, lotId)
    case SetVariantPrice(id, variantId, cell, cents) => PricedVariant(st, id, variantId, cell, cents)
    case RemoveVariantPrice(id, variantId, cell) => UnpricedVariant(st, id, variantId, cell)
    case CreateList(listId) => Ok(CreatedList(st, listId))
    case RemoveList(listId) => RemovedList(st, listId)
  }

  // ----- Stock invariant -----

  predicate JournaledAt(st: State, b: Bucket) {
    Quantity(st.stock, b) == SumOn(st.log, b)
  }

  /** No bucket is negative, products cover their lots, variants imply the flag, and every bucket is the sum of its movements. */
  ghost predicate StockInv(st: State) {
    ValidStock(st.stock) && TrackedOnly(st.stock) && forall b :: JournaledAt(st, b)
  }

  lemma PostingKeepsStock(st: State, changes: seq<Change>)
    requires StockInv(st) && Posting(st, changes).Ok?
    ensures StockInv(Posting(st, changes).value)
    ensures SameShapes(st.stock, Posting(st, changes).value.stock)
  {
    ApplyChangesPosted(st.stock, changes);
    TrackedKept(st.stock, changes);
    var a := ApplyChanges(st.stock, changes).value;
    var after := Posting(st, changes).value;
    forall b
      ensures JournaledAt(after, b)
    {
      assert JournaledAt(st, b) && MovesAt(st.stock, a.stock, a.movements, b);
      SumOnAppend(st.log, a.movements, b);
    }
  }

  /** Rows may come and go as long as no bucket's quantity changes. */
  lemma ReshapeKeepsStock(st: State, after: State)
    requires StockInv(st) && after.log == st.log && ValidStock(after.stock) && TrackedOnly(after.stock)
    requires forall b :: Quantity(after.stock, b) == Quantity(st.stock, b)
    ensures StockInv(after)
  {
    forall b
      ensures JournaledAt(after, b)
    {
      assert JournaledAt(st, b);
    }
  }

  lemma ProductReshaped(st: State, after: State, id: Id, q: Product)
    requires StockInv(st) && after.stock == st.stock[id := q] && after.log == st.log
    requires ValidProduct(q) && (!q.useStock ==> UntrackedQuantity(q) == 0)
    requires forall b: Bucket :: b.productId == id ==> BucketQuantity(q, b) == Quantity(st.stock, b)
    ensures StockInv(after)
  {
    forall b
      ensures Quantity(after.stock, b) == Quantity(st.stock, b)
    {
    }
    ReshapeKeepsStock(st, after);
  }

  // ----- Rows at zero -----

  function VariantQuantity(variants: seq<Variant>, id: Id): int {
    match FindVariant(variants, id)
    case None => 0
    case Some(i) => variants[i].quantity
  }

  function LotQuantity(lots: seq<Lot>, id: Id): int {
    match FindLot(lots, id)
    case None => 0
    case Some(i) => lots[i].quantity
  }

  lemma VariantAppended(variants: seq<Variant>, v: Variant, id: Id)
    requires ValidVariants(variants) && v.quantity == 0 && forall x :: x in variants ==> x.id != v.id
    ensures ValidVariants(variants + [v]) && VariantQuantity(variants + [v], id) == VariantQuantity(variants, id)
  {
    var after := variants + [v];
    if FindVariant(variants, id).Some? {
      VariantFound(after, variants[FindVariant(variants, id).value]);
    } else if FindVariant(after, id).Some? {
      assert after[FindVariant(after, id).value] == v;
    }
  }

  lemma VariantDropped(variants: seq<Variant>, i: nat, id: Id)
    requires ValidVariants(variants) && i < |variants| && variants[i].quantity == 0
    ensures var after := variants[..i] + variants[i + 1..];
            ValidVariants(after) && VariantQuantity(after, id) == VariantQuantity(variants, id)
  {
    var after := variants[..i] + variants[i + 1..];
    assert ValidVariants(after);
    forall k | 0 <= k < |variants| && k != i
      ensures variants[k] in after
    {
      assert after[if k < i then k else k - 1] == variants[k];
    }
    if FindVariant(after, id).Some? {
      var x := after[FindVariant(after, id).value];
      assert x in variants;
      VariantFound(variants, x);
    }
  }

  lemma LotAppended(lots: seq<Lot>, l: Lot, id: Id)
    requires ValidLots(lots) && l.quantity == 0 && forall x :: x in lots ==> x.id != l.id
    ensures ValidLots(lots + [l]) && LotQuantity(lots + [l], id) == LotQuantity(lots, id)
  {
    var after := lots + [l];
    if FindLot(lots, id).Some? {
      LotFound(after, lots[FindLot(lots, id).value]);
    } else if FindLot(after, id).Some? {
      assert after[FindLot(after, id).value] == l;
    }
  }

  lemma AppendedLotSum(lots: seq<Lot>, l: Lot)
    requires l.quantity == 0
    ensures Sum(LotQuantities(lots + [l])) == Sum(LotQuantities(lots))
  {
    assert LotQuantities(lots + [l]) == LotQuantities(lots) + [0];
    SumSnoc(LotQuantities(lots), 0);
  }

  lemma DroppedLotSum(lots: seq<Lot>, i: nat)
    requires i < |lots| && lots[i].quantity == 0
    ensures Sum(LotQuantities(lots[..i] + lots[i + 1..])) == Sum(LotQuantities(lots))
  {
    var q := LotQuantities(lots);
    assert q == (q[..i] + [0]) + q[i + 1..];
    assert LotQuantities(lots[..i] + lots[i + 1..]) == q[..i] + q[i + 1..];
    SumAppend(q[..i] + [0], q[i + 1..]);
    SumAppend(q[..i], q[i + 1..]);
    SumSnoc(q[..i], 0);
  }

  lemma LotDropped(lots: seq<Lot>, i: nat, id: Id)
    requires ValidLots(lots) && i < |lots| && lots[i].quantity == 0
    ensures var after := lots[..i] + lots[i + 1..];
            ValidLots(after) && LotQuantity(after, id) == LotQuantity(lots, id)
  {
    var after := lots[..i] + lots[i + 1..];
    assert ValidLots(after);
    forall k | 0 <= k < |lots| && k != i
      ensures lots[k] in after
    {
      assert after[if k < i then k else k - 1] == lots[k];
    }
    if FindLot(after, id).Some? {
      var x := after[FindLot(after, id).value];
      assert x in lots;
      LotFound(lots, x);
    }
  }

  ghost predicate DistinctRows(n: NewProduct) {
    && (forall i, j :: 0 <= i < j < |n.variants| ==> n.variants[i].id != n.variants[j].id)
    && forall i, j :: 0 <= i < j < |n.lots| ==> n.lots[i].id != n.lots[j].id
  }

  lemma EmptyProductIsEmpty(n: NewProduct, b: Bucket)
    requires DistinctRows(n) && (n.variants != [] ==> n.hasVariants)
    ensures ValidProduct(EmptyProduct(n)) && BucketQuantity(EmptyProduct(n), b) == 0
  {
    SumZero(LotQuantities(EmptyLots(n.lots)));
  }

  lemma EmptyProductValid(n: NewProduct)
    requires DistinctRows(n) && (n.variants != [] ==> n.hasVariants)
    ensures ValidProduct(EmptyProduct(n)) && UntrackedQuantity(EmptyProduct(n)) == 0
  {
    EmptyProductIsEmpty(n, Untracked(0));
  }

  lemma CreateKeepsStock(st: State, id: Id, n: NewProduct)
    requires StockInv(st) && id !in st.stock && DistinctRows(n) && CreateProduct(st, id, n).Ok?
    ensures StockInv(CreateProduct(st, id, n).value)
  {
    var row := st.(stock := st.stock[id := EmptyProduct(n)]);
    forall b: Bucket | b.productId == id
      ensures BucketQuantity(EmptyProduct(n), b) == Quantity(st.stock, b)
    {
      EmptyProductIsEmpty(n, b);
    }
    EmptyProductValid(n);
    ProductReshaped(st, row, id, EmptyProduct(n));
    var posted := Posting(row, InitialStock(id, n)).value;
    PostingKeepsStock(row, InitialStock(id, n));
    assert CreateProduct(st, id, n).value.stock == posted.stock && CreateProduct(st, id, n).value.log == posted.log;
    SameBooks(posted, CreateProduct(st, id, n).value);
  }

  lemma SameBooks(st: State, after: State)
    requires StockInv(st) && after.stock == st.stock && after.log == st.log
    ensures StockInv(after)
  {
    ReshapeKeepsStock(st, after);
  }

  lemma RemoveKeepsStock(st: State, id: Id)
    requires StockInv(st) && id in st.stock
    ensures RemoveProduct(st, id).Ok? && StockInv(RemoveProduct(st, id).value)
  {
    RemovalEmpties(st.stock, id);
    PostingKeepsStock(st, Removals(id, st.stock[id]));
    var emptied := Posting(st, Removals(id, st.stock[id])).value;
    var after := RemoveProduct(st, id).value;
    assert after.stock == emptied.stock - {id} && after.log == emptied.log;
    forall b
      ensures Quantity(after.stock, b) == Quantity(emptied.stock, b)
    {
    }
    ReshapeKeepsStock(emptied, after);
  }

  /** Emptying a product always works and leaves its rows in place with nothing in them. */
  lemma EmptiedProduct(st: State, id: Id)
    requires StockInv(st) && id in st.stock
    ensures Posting(st, Removals(id, st.stock[id])).Ok?
    ensures var emptied := Posting(st, Removals(id, st.stock[id])).value;
            && StockInv(emptied) && id in emptied.stock && emptied.stock.Keys == st.stock.Keys
            && VariantIds(emptied.stock[id]) == VariantIds(st.stock[id])
            && |emptied.stock[id].variants| == |st.stock[id].variants|
            && forall b: Bucket :: b.productId == id ==> Quantity(emptied.stock, b) == 0
  {
    RemovalEmpties(st.stock, id);
    PostingKeepsStock(st, Removals(id, st.stock[id]));
    var emptied := Posting(st, Removals(id, st.stock[id])).value;
    SameVariantSet(st.stock[id], emptied.stock[id]);
  }

  lemma SameVariantSet(p: Product, q: Product)
    requires SameShape(p, q)
    ensures VariantIds(p) == VariantIds(q)
  {
    forall x
      ensures x in VariantIds(p) <==> x in VariantIds(q)
    {
      if x in VariantIds(p) {
        var i :| 0 <= i < |p.variants| && p.variants[i].id == x;
        assert q.variants[i] in q.variants;
      }
      if x in VariantIds(q) {
        var i :| 0 <= i < |q.variants| && q.variants[i].id == x;
        assert p.variants[i] in p.variants;
      }
    }
  }

  lemma ConvertedKeepsStock(st: State, id: Id)
    requires StockInv(st) && id in st.stock
    ensures Converted(st, id).Ok? && StockInv(Converted(st, id).value)
    ensures Converted(st, id).value.stock.Keys == st.stock.Keys
    ensures Converted(st, id).value.stock[id].hasVariants
    ensures VariantIds(Converted(st, id).value.stock[id]) == VariantIds(st.stock[id])
  {
    if !st.stock[id].hasVariants {
      EmptiedProduct(st, id);
      EmptiedConverts(Posting(st, Removals(id, st.stock[id])).value, Converted(st, id).value, id);
    }
  }

  lemma EmptiedConverts(emptied: State, after: State, id: Id)
    requires StockInv(emptied) && id in emptied.stock && emptied.stock[id].variants == []
    requires forall b: Bucket :: b.productId == id ==> Quantity(emptied.stock, b) == 0
    requires after.stock == emptied.stock[id := emptied.stock[id].(hasVariants := true, quantity := 0)] && after.log == emptied.log
    ensures StockInv(after)
  {
    var p := emptied.stock[id];
    AllLotsEmpty(emptied.stock, id);
    assert Quantity(emptied.stock, Untracked(id)) == 0;
    var q := p.(hasVariants := true, quantity := 0);
    assert q == p.(hasVariants := true);
    forall b: Bucket | b.productId == id
      ensures BucketQuantity(q, b) == Quantity(emptied.stock, b)
    {
    }
    ProductReshaped(emptied, after, id, q);
  }

  lemma AllLotsEmpty(s: Stock, id: Id)
    requires ValidStock(s) && id in s && forall b: Bucket :: b.productId == id ==> Quantity(s, b) == 0
    ensures Sum(LotQuantities(s[id].lots)) == 0
  {
    var lots := s[id].lots;
    forall i | 0 <= i < |lots|
      ensures lots[i].quantity == 0
    {
      LotFound(lots, lots[i]);
      assert Quantity(s, LotOf(id, lots[i].id)) == 0;
    }
    SumZero(LotQuantities(lots));
  }

  lemma VariantRowKeepsStock(st: State, id: Id, variantId: Id)
    requires StockInv(st) && id in st.stock && st.stock[id].hasVariants && variantId !in VariantIds(st.stock[id])
    ensures StockInv(WithVariantRow(st, id, variantId))
  {
    var p := st.stock[id];
    var v := Variant(variantId, 0);
    var q := p.(variants := p.variants + [v]);
    forall x | x in p.variants
      ensures x.id != variantId
    {
      assert x.id in VariantIds(p);
    }
    forall b: Bucket | b.productId == id
      ensures BucketQuantity(q, b) == Quantity(st.stock, b)
    {
      if b.VariantOf? {
        VariantAppended(p.variants, v, b.variantId);
      }
    }
    VariantAppended(p.variants, v, 0);
    ProductReshaped(st, WithVariantRow(st, id, variantId), id, q);
  }

  lemma AddVariantKeepsStock(st: State, id: Id, variantId: Id, quantity: int)
    requires StockInv(st) && id in st.stock && variantId !in VariantIds(st.stock[id])
    requires AddedVariant(st, id, variantId, quantity).Ok?
    ensures StockInv(AddedVariant(st, id, variantId, quantity).value)
  {
    ConvertedKeepsStock(st, id);
    var converted := Converted(st, id).value;
    VariantRowKeepsStock(converted, id, variantId);
    PostingKeepsStock(WithVariantRow(converted, id, variantId), OnlyPositive(Change(VariantOf(id, variantId), quantity, false)));
  }

  lemma WithoutRowKeepsStock(st: State, id: Id, i: nat)
    requires StockInv(st) && id in st.stock && i < |st.stock[id].variants| && st.stock[id].variants[i].quantity == 0
    ensures StockInv(WithoutVariantRow(st, id, i))
  {
    var p := st.stock[id];
    var q := WithoutVariantRow(st, id, i).stock[id];
    forall b: Bucket | b.productId == id
      ensures BucketQuantity(q, b) == Quantity(st.stock, b)
    {
      if b.VariantOf? {
        VariantDropped(p.variants, i, b.variantId);
      }
    }
    VariantDropped(p.variants, i, 0);
    ProductReshaped(st, WithoutVariantRow(st, id, i), id, q);
  }

  function VariantDrain(id: Id, v: Variant): seq<Change> {
    if v.quantity > 0 then [VariantRemoval(id, v)] else []
  }

  lemma VariantDrainPosts(s: Stock, id: Id, v: Variant)
    requires ValidStock(s) && id in s && v in s[id].variants
    ensures ApplyChanges(s, VariantDrain(id, v)).Ok?
    ensures SumOn(ApplyChanges(s, VariantDrain(id, v)).value.movements, VariantOf(id, v.id)) == -v.quantity
  {
    var changes := VariantDrain(id, v);
    if v.quantity > 0 {
      VariantRemovalApplies(s, id, v);
      assert changes[..0] == [];
      RecordedDeltas(s, changes, VariantOf(id, v.id));
    }
  }

  lemma VariantDrained(st: State, id: Id, v: Variant)
    requires StockInv(st) && id in st.stock && v in st.stock[id].variants
    ensures Posting(st, VariantDrain(id, v)).Ok? && StockInv(Posting(st, VariantDrain(id, v)).value)
    ensures var after := Posting(st, VariantDrain(id, v)).value;
            SameShapes(st.stock, after.stock) && Quantity(after.stock, VariantOf(id, v.id)) == 0
  {
    var changes := VariantDrain(id, v);
    VariantDrainPosts(st.stock, id, v);
    VariantFound(st.stock[id].variants, v);
    PostingKeepsStock(st, changes);
    ApplyChangesPosted(st.stock, changes);
    var a := ApplyChanges(st.stock, changes).value;
    assert MovesAt(st.stock, a.stock, a.movements, VariantOf(id, v.id));
  }

  lemma RemoveVariantKeepsStock(st: State, id: Id, variantId: Id)
    requires StockInv(st) && HasVariant(st, id, variantId)
    ensures RemovedVariant(st, id, variantId).Ok? && StockInv(RemovedVariant(st, id, variantId).value)
  {
    var variants := st.stock[id].variants;
    var v := variants[FindVariant(variants, variantId).value];
    VariantDrained(st, id, v);
    var emptied := Posting(st, VariantDrain(id, v)).value;
    assert SameShape(st.stock[id], emptied.stock[id]);
    SameVariantIds(variants, emptied.stock[id].variants, variantId);
    WithoutRowKeepsStock(emptied, id, FindVariant(emptied.stock[id].variants, variantId).value);
  }

  lemma AddLotKeepsStock(st: State, id: Id, lotId: Id, quantity: int, expiresOn: int)
    requires StockInv(st) && id in st.stock && forall l :: l in st.stock[id].lots ==> l.id != lotId
    requires AddedLot(st, id, lotId, quantity, expiresOn).Ok?
    ensures StockInv(AddedLot(st, id, lotId, quantity, expiresOn).value)
  {
    var p := st.stock[id];
    var l := Lot(lotId, 0, expiresOn);
    var q := p.(lots := p.lots + [l]);
    var row := st.(stock := st.stock[id := q]);
    AppendedLotSum(p.lots, l);
    LotAppended(p.lots, l, 0);
    forall b: Bucket | b.productId == id
      ensures BucketQuantity(q, b) == Quantity(st.stock, b)
    {
      if b.LotOf? {
        LotAppended(p.lots, l, b.lotId);
      }
    }
    ProductReshaped(st, row, id, q);
    PostingKeepsStock(row, OnlyPositive(Change(LotOf(id, lotId), quantity, false)));
  }

  lemma RemoveLotKeepsStock(st: State, id: Id, lotId: Id)
    requires StockInv(st) && RemovedLot(st, id, lotId).Ok?
    ensures StockInv(RemovedLot(st, id, lotId).value)
  {
    var p := st.stock[id];
    var i := FindLot(p.lots, lotId).value;
    var q := p.(lots := p.lots[..i] + p.lots[i + 1..]);
    DroppedLotSum(p.lots, i);
    LotDropped(p.lots, i, 0);
    forall b: Bucket | b.productId == id
      ensures BucketQuantity(q, b) == Quantity(st.stock, b)
    {
      if b.LotOf? {
        LotDropped(p.lots, i, b.lotId);
      }
    }
    ProductReshaped(st, RemovedLot(st, id, lotId).value, id, q);
  }
}
