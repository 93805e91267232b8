/** The price matrix over any run of product, variant, lot and price-list operations:
src/products/products.service.ts and src/price-lists/price-lists.service.ts.
*/
module PriceMatrix {
  import opened Common
  import opened StockJournal
  import opened SaleStock
  import opened StockRemoval
  import opened Catalog

  /** A variant of a product that exists. */
  predicate Variants(st: State, id: Id, variantId: Id) {
    id in st.stock && variantId in VariantIds(st.stock[id])
  }

  ghost predicate ListsInv(st: State, default: Id) {
    default in st.lists && forall g :: g in st.lists ==> (st.lists[g] <==> g == default)
  }

  /** Exactly one price row per product and global list, and none besides. */
  ghost predicate MatrixInv(st: State) {
    forall c: Cell :: c in st.prices <==> c.productId in st.stock && c.listId in st.lists
  }

  /** Every variant has its price on the default list, and variant prices belong to variants and price rows that exist. */
  ghost predicate VariantInv(st: State, default: Id) {
    && (forall id, x :: Variants(st, id, x) ==> VariantCell(x, Cell(id, default)) in st.variantPrices)
    && (forall v :: v in st.variantPrices ==> v.cell in st.prices && Variants(st, v.cell.productId, v.variantId))
  }

  ghost predicate VariantsApart(st: State) {
    forall i, j, x :: Variants(st, i, x) && Variants(st, j, x) ==> i == j
  }

  ghost predicate PriceInv(st: State, default: Id) {
    ListsInv(st, default) && MatrixInv(st) && VariantInv(st, default) && VariantsApart(st)
  }

  /** Generated ids are new. */
  ghost predicate FreshFor(st: State, o: Operation) {
    match o
    case Create(id, n) => id !in st.stock && DistinctRows(n) && forall v, j :: v in n.variants ==> !Variants(st, j, v.id)
    case AddVariant(_, variantId, _) => forall j :: !Variants(st, j, variantId)
    case AddLot(id, lotId, _, _) => id in st.stock ==> forall l :: l in st.stock[id].lots ==> l.id != lotId
    case CreateList(listId) => listId !in st.lists
    case _ => true
  }

  // ----- Stock -----

  lemma StepKeepsStock(st: State, o: Operation)
    requires StockInv(st) && VariantsApart(st) && FreshFor(st, o) && Do(st, o).Ok?
    ensures StockInv(Do(st, o).value)
  {
    match o
    case Create(id, n) => CreateKeepsStock(st, id, n);
    case Remove(id) => RemoveKeepsStock(st, id);
    case AddVariant(id, variantId, quantity) =>
      assert !Variants(st, id, variantId);
      AddVariantKeepsStock(st, id, variantId, quantity);
    case RemoveVariant(id, variantId) => RemoveVariantKeepsStock(st, id, variantId);
    case AddLot(id, lotId, quantity, expiresOn) => AddLotKeepsStock(st, id, lotId, quantity, expiresOn);
    case RemoveLot(id, lotId) => RemoveLotKeepsStock(st, id, lotId);
    case _ => SameBooks(st, Do(st, o).value);
  }

  // ----- Variants of a product -----

  /** Posting moves quantities only. */
  lemma PostingKeepsVariants(st: State, changes: seq<Change>)
    requires StockInv(st) && Posting(st, changes).Ok?
    ensures var after := Posting(st, changes).value;
            && after.stock.Keys == st.stock.Keys && (forall id, x :: Variants(after, id, x) <==> Variants(st, id, x))
            && after.lists == st.lists && after.prices == st.prices && after.variantPrices == st.variantPrices
  {
    PostingKeepsStock(st, changes);
    var after := Posting(st, changes).value;
    forall id, x
      ensures Variants(after, id, x) <==> Variants(st, id, x)
    {
      if id in st.stock {
        SameVariantSet(st.stock[id], after.stock[id]);
      }
    }
  }

  lemma SamePrices(st: State, after: State, default: Id)
    requires PriceInv(st, default)
    requires after.stock.Keys == st.stock.Keys && forall id, x :: Variants(after, id, x) <==> Variants(st, id, x)
    requires after.lists == st.lists && after.prices == st.prices && after.variantPrices == st.variantPrices
    ensures PriceInv(after, default)
  {
  }

  lemma PostingKeepsPrices(st: State, changes: seq<Change>, default: Id)
    requires StockInv(st) && PriceInv(st, default) && Posting(st, changes).Ok?
    ensures PriceInv(Posting(st, changes).value, default)
  {
    PostingKeepsVariants(st, changes);
    SamePrices(st, Posting(st, changes).value, default);
  }

  // ----- Products -----

  function WithProductRow(st: State, id: Id, n: NewProduct): State {
    st.(stock := st.stock[id := EmptyProduct(n)])
  }

  lemma EmptyVariantIds(n: NewProduct, x: Id)
    ensures x in VariantIds(EmptyProduct(n)) <==> exists v :: v in n.variants && v.id == x
  {
    var p := EmptyProduct(n);
    if x in VariantIds(p) {
      var i :| 0 <= i < |p.variants| && p.variants[i].id == x;
      assert n.variants[i] in n.variants;
    }
    if v :| v in n.variants && v.id == x {
      var i :| 0 <= i < |n.variants| && n.variants[i] == v;
      assert p.variants[i] in p.variants;
    }
  }

  lemma RowInv(st: State, id: Id, n: NewProduct)
    requires StockInv(st) && id !in st.stock && DistinctRows(n) && CreateProduct(st, id, n).Ok?
    ensures StockInv(WithProductRow(st, id, n))
  {
    forall b: Bucket | b.productId == id
      ensures BucketQuantity(EmptyProduct(n), b) == Quantity(st.stock, b)
    {
      EmptyProductIsEmpty(n, b);
    }
    EmptyProductValid(n);
    ProductReshaped(st, WithProductRow(st, id, n), id, EmptyProduct(n));
  }

  lemma RowVariants(st: State, id: Id, n: NewProduct)
    ensures forall x :: Variants(WithProductRow(st, id, n), id, x) <==> exists v :: v in n.variants && v.id == x
    ensures forall j, x :: j != id ==> (Variants(WithProductRow(st, id, n), j, x) <==> Variants(st, j, x))
  {
    forall x
      ensures Variants(WithProductRow(st, id, n), id, x) <==> exists v :: v in n.variants && v.id == x
    {
      EmptyVariantIds(n, x);
    }
  }

  /** The variants a new product ends up with, and nobody else's. */
  ghost predicate CreatedVariants(st: State, after: State, id: Id, n: NewProduct) {
    && after.stock.Keys == st.stock.Keys + {id}
    && (forall x :: Variants(after, id, x) <==> exists v :: v in n.variants && v.id == x)
    && forall j, x :: j != id ==> (Variants(after, j, x) <==> Variants(st, j, x))
  }

  lemma CreateVariants(st: State, id: Id, n: NewProduct)
    requires StockInv(st) && id !in st.stock && DistinctRows(n) && CreateProduct(st, id, n).Ok?
    ensures CreatedVariants(st, CreateProduct(st, id, n).value, id, n)
  {
    RowInv(st, id, n);
    var row := WithProductRow(st, id, n);
    PostingKeepsVariants(row, InitialStock(id, n));
    RowVariants(st, id, n);
    VariantsTransfer(st, row, Posting(row, InitialStock(id, n)).value, CreateProduct(st, id, n).value, id, n);
  }

  lemma VariantsTransfer(st: State, row: State, posted: State, after: State, id: Id, n: NewProduct)
    requires CreatedVariants(st, row, id, n) && posted.stock.Keys == row.stock.Keys
    requires forall j, x :: Variants(posted, j, x) <==> Variants(row, j, x)
    requires after.stock == posted.stock
    ensures CreatedVariants(st, after, id, n)
  {
    forall j, x
      ensures Variants(after, j, x) <==> Variants(row, j, x)
    {
      assert Variants(posted, j, x) <==> Variants(row, j, x);
    }
  }

  lemma CreateKeepsPrices(st: State, id: Id, n: NewProduct, default: Id)
    requires StockInv(st) && PriceInv(st, default) && FreshFor(st, Create(id, n)) && CreateProduct(st, id, n).Ok?
    ensures PriceInv(CreateProduct(st, id, n).value, default)
  {
    CreateVariants(st, id, n);
    var after := CreateProduct(st, id, n).value;
    CreateFillsVariants(st, after, id, n, default);
    CreateDanglesNothing(st, after, id, n);
    forall i, j, x | Variants(after, i, x) && Variants(after, j, x)
      ensures i == j
    {
      assert i != id ==> Variants(st, i, x);
      assert j != id ==> Variants(st, j, x);
    }
  }

  lemma CreateFillsVariants(st: State, after: State, id: Id, n: NewProduct, default: Id)
    requires PriceInv(st, default) && CreateProduct(st, id, n) == Ok(after) && CreatedVariants(st, after, id, n)
    ensures forall j, x :: Variants(after, j, x) ==> VariantCell(x, Cell(j, default)) in after.variantPrices
  {
    forall j, x | Variants(after, j, x)
      ensures VariantCell(x, Cell(j, default)) in after.variantPrices
    {
      if j == id {
        var v :| v in n.variants && v.id == x;
        assert VariantCell(v.id, Cell(id, default)) in after.variantPrices;
      } else {
        assert Variants(st, j, x);
      }
    }
  }

  lemma CreateDanglesNothing(st: State, after: State, id: Id, n: NewProduct)
    requires MatrixInv(st) && id !in st.stock && CreateProduct(st, id, n) == Ok(after) && CreatedVariants(st, after, id, n)
    requires forall v :: v in st.variantPrices ==> v.cell in st.prices && Variants(st, v.cell.productId, v.variantId)
    ensures forall v :: v in after.variantPrices ==> v.cell in after.prices && Variants(after, v.cell.productId, v.variantId)
  {
    forall c | c in after.variantPrices
      ensures c.cell in after.prices && Variants(after, c.cell.productId, c.variantId)
    {
      if c in st.variantPrices {
        assert Variants(st, c.cell.productId, c.variantId);
      }
    }
  }

  lemma RemovedProductVariants(st: State, id: Id)
    requires StockInv(st) && id in st.stock && RemoveProduct(st, id).Ok?
    ensures var after := RemoveProduct(st, id).value;
            && after.stock.Keys == st.stock.Keys - {id}
            && forall j, x :: Variants(after, j, x) <==> j != id && Variants(st, j, x)
  {
    PostingKeepsVariants(st, Removals(id, st.stock[id]));
    var emptied := Posting(st, Removals(id, st.stock[id])).value;
    var after := RemoveProduct(st, id).value;
    assert after.stock == emptied.stock - {id};
    forall j, x
      ensures Variants(after, j, x) <==> j != id && Variants(st, j, x)
    {
      assert Variants(emptied, j, x) <==> Variants(st, j, x);
    }
  }

  lemma RemoveKeepsPrices(st: State, id: Id, default: Id)
    requires StockInv(st) && PriceInv(st, default) && id in st.stock
    ensures RemoveProduct(st, id).Ok? && PriceInv(RemoveProduct(st, id).value, default)
  {
    RemoveKeepsStock(st, id);
    RemovedProductVariants(st, id);
    GoneProduct(st, RemoveProduct(st, id).value, id, default);
  }

  lemma GoneProduct(st: State, after: State, id: Id, default: Id)
    requires PriceInv(st, default) && after.lists == st.lists && after.stock.Keys == st.stock.Keys - {id}
    requires forall j, x :: Variants(after, j, x) <==> j != id && Variants(st, j, x)
    requires after.prices == map c | c in st.prices && c.productId != id :: st.prices[c]
    requires after.variantPrices == map v | v in st.variantPrices && v.cell.productId != id :: st.variantPrices[v]
    ensures PriceInv(after, default)
  {
  }

  // ----- Variants -----

  lemma ConvertedVariants(st: State, id: Id)
    requires StockInv(st) && id in st.stock && !st.stock[id].hasVariants
    ensures Converted(st, id).Ok?
    ensures forall j, x :: Variants(Converted(st, id).value, j, x) <==> Variants(st, j, x)
  {
    EmptiedProduct(st, id);
    PostingKeepsVariants(st, Removals(id, st.stock[id]));
    var emptied := Posting(st, Removals(id, st.stock[id])).value;
    var after := Converted(st, id).value;
    forall j, x
      ensures Variants(after, j, x) <==> Variants(st, j, x)
    {
      assert Variants(emptied, j, x) <==> Variants(st, j, x);
    }
  }

  lemma ConvertedKeepsPrices(st: State, id: Id, default: Id)
    requires StockInv(st) && PriceInv(st, default) && id in st.stock
    ensures Converted(st, id).Ok? && PriceInv(Converted(st, id).value, default)
    ensures forall j, x :: Variants(Converted(st, id).value, j, x) <==> Variants(st, j, x)
  {
    ConvertedKeepsStock(st, id);
    if !st.stock[id].hasVariants {
      ConvertedVariants(st, id);
      SamePrices(st, Converted(st, id).value, default);
    }
  }

  lemma VariantRowKeepsPrices(st: State, id: Id, variantId: Id, default: Id)
    requires PriceInv(st, default) && id in st.stock && forall j :: !Variants(st, j, variantId)
    ensures PriceInv(WithVariantRow(st, id, variantId), default)
  {
    var after := WithVariantRow(st, id, variantId);
    forall j, x
      ensures Variants(after, j, x) <==> Variants(st, j, x) || (j == id && x == variantId)
    {
    }
    assert Cell(id, default) in st.prices;
    forall v | v in after.variantPrices
      ensures v.cell in after.prices && Variants(after, v.cell.productId, v.variantId)
    {
      if v in st.variantPrices {
        assert Variants(st, v.cell.productId, v.variantId);
      }
    }
  }

  lemma AddVariantKeepsPrices(st: State, id: Id, variantId: Id, quantity: int, default: Id)
    requires StockInv(st) && PriceInv(st, default) && id in st.stock && (forall j :: !Variants(st, j, variantId))
    requires AddedVariant(st, id, variantId, quantity).Ok?
    ensures PriceInv(AddedVariant(st, id, variantId, quantity).value, default)
  {
    ConvertedKeepsStock(st, id);
    ConvertedKeepsPrices(st, id, default);
    var converted := Converted(st, id).value;
    assert !Variants(st, id, variantId) && !Variants(converted, id, variantId);
    VariantRowKeepsStock(converted, id, variantId);
    VariantRowKeepsPrices(converted, id, variantId, default);
    PostingKeepsPrices(WithVariantRow(converted, id, variantId), OnlyPositive(Change(VariantOf(id, variantId), quantity, false)), default);
  }

  lemma DroppedVariantIds(variants: seq<Variant>, i: nat, x: Id)
    requires ValidVariants(variants) && i < |variants|
    ensures (exists v :: v in variants[..i] + variants[i + 1..] && v.id == x) <==>
            (exists v :: v in variants && v.id == x) && x != variants[i].id
  {
    var after := variants[..i] + variants[i + 1..];
    if v :| v in variants && v.id == x && x != variants[i].id {
      var k :| 0 <= k < |variants| && variants[k] == v;
      assert after[if k < i then k else k - 1] == v;
    }
    if v :| v in after && v.id == x {
      var k :| 0 <= k < |after| && after[k] == v;
      assert variants[if k < i then k else k + 1] == v;
    }
  }

  /** Dropping a variant's row drops that variant and nothing else. */
  lemma WithoutRowVariants(st: State, id: Id, i: nat)
    requires StockInv(st) && VariantsApart(st) && id in st.stock && i < |st.stock[id].variants|
    ensures forall j, x :: Variants(WithoutVariantRow(st, id, i), j, x) <==>
                           Variants(st, j, x) && x != st.stock[id].variants[i].id
  {
    var after := WithoutVariantRow(st, id, i);
    var gone := st.stock[id].variants[i];
    assert gone in st.stock[id].variants;
    assert Variants(st, id, gone.id);
    forall j, x
      ensures Variants(after, j, x) <==> Variants(st, j, x) && x != gone.id
    {
      if j == id {
        DroppedVariantIds(st.stock[id].variants, i, x);
      } else {
        assert !Variants(st, j, gone.id);
      }
    }
  }

  lemma WithoutRowKeepsPrices(st: State, id: Id, i: nat, default: Id)
    requires StockInv(st) && PriceInv(st, default) && id in st.stock && i < |st.stock[id].variants|
    ensures PriceInv(WithoutVariantRow(st, id, i), default)
  {
    var after := WithoutVariantRow(st, id, i);
    WithoutRowVariants(st, id, i);
    forall v | v in after.variantPrices
      ensures v.cell in after.prices && Variants(after, v.cell.productId, v.variantId)
    {
      assert Variants(st, v.cell.productId, v.variantId);
    }
  }

  lemma RemoveVariantKeepsPrices(st: State, id: Id, variantId: Id, default: Id)
    requires StockInv(st) && PriceInv(st, default) && HasVariant(st, id, variantId)
    ensures RemovedVariant(st, id, variantId).Ok? && PriceInv(RemovedVariant(st, id, variantId).value, default)
  {
    var variants := st.stock[id].variants;
    var v := variants[FindVariant(variants, variantId).value];
    VariantDrained(st, id, v);
    PostingKeepsPrices(st, VariantDrain(id, v), default);
    RemoveVariantKeepsStock(st, id, variantId);
    var emptied := Posting(st, VariantDrain(id, v)).value;
    WithoutRowKeepsPrices(emptied, id, FindVariant(emptied.stock[id].variants, variantId).value, default);
  }

  lemma LotRowKeepsPrices(st: State, id: Id, lots: seq<Lot>, default: Id)
    requires PriceInv(st, default) && id in st.stock
    ensures PriceInv(st.(stock := st.stock[id := st.stock[id].(lots := lots)]), default)
  {
    var after := st.(stock := st.stock[id := st.stock[id].(lots := lots)]);
    forall j, x
      ensures Variants(after, j, x) <==> Variants(st, j, x)
    {
    }
    SamePrices(st, after, default);
  }

  lemma AddLotKeepsPrices(st: State, id: Id, lotId: Id, quantity: int, expiresOn: int, default: Id)
    requires StockInv(st) && PriceInv(st, default) && FreshFor(st, AddLot(id, lotId, quantity, expiresOn))
    requires AddedLot(st, id, lotId, quantity, expiresOn).Ok?
    ensures PriceInv(AddedLot(st, id, lotId, quantity, expiresOn).value, default)
  {
    var lots := st.stock[id].lots + [Lot(lotId, 0, expiresOn)];
    var row := st.(stock := st.stock[id := st.stock[id].(lots := lots)]);
    AddLotKeepsStock(st, id, lotId, 0, expiresOn);
    assert Posting(row, []).value == row.(log := row.log + []);
    assert AddedLot(st, id, lotId, 0, expiresOn) == Posting(row, []);
    assert row.log + [] == row.log;
    LotRowKeepsPrices(st, id, lots, default);
    PostingKeepsPrices(row, OnlyPositive(Change(LotOf(id, lotId), quantity, false)), default);
  }

  // ----- Price lists -----

  /** A new list gets a price for every product and for every variant there is. */
  lemma CreateListFills(st: State, listId: Id)
    requires ValidStock(st.stock)
    ensures var after := CreatedList(st, listId);
            && (forall id :: id in st.stock ==> Cell(id, listId) in after.prices)
            && forall id, x :: Variants(st, id, x) ==> VariantCell(x, Cell(id, listId)) in after.variantPrices
  {
    var after := CreatedList(st, listId);
    forall id, x | Variants(st, id, x)
      ensures VariantCell(x, Cell(id, listId)) in after.variantPrices
    {
      var v :| v in st.stock[id].variants && v.id == x;
      assert st.stock[id].variants != [];
      assert VariantCell(v.id, Cell(id, listId)) in after.variantPrices;
    }
  }

  lemma CreateListKeepsPrices(st: State, listId: Id, default: Id)
    requires PriceInv(st, default) && listId !in st.lists
    ensures PriceInv(CreatedList(st, listId), default)
  {
    var after := CreatedList(st, listId);
    forall id, x
      ensures Variants(after, id, x) <==> Variants(st, id, x)
    {
    }
    forall c: Cell
      ensures c in after.prices <==> c.productId in after.stock && c.listId in after.lists
    {
    }
    forall v | v in after.variantPrices
      ensures v.cell in after.prices && Variants(after, v.cell.productId, v.variantId)
    {
      if v in st.variantPrices {
        assert Variants(st, v.cell.productId, v.variantId);
      }
    }
  }

  lemma RemoveListKeepsPrices(st: State, listId: Id, default: Id)
    requires PriceInv(st, default) && RemovedList(st, listId).Ok?
    ensures PriceInv(RemovedList(st, listId).value, default)
  {
    var after := RemovedList(st, listId).value;
    forall id, x
      ensures Variants(after, id, x) <==> Variants(st, id, x)
    {
    }
  }

  lemma PricingKeepsPrices(st: State, o: Operation, default: Id)
    requires PriceInv(st, default) && (o.SetVariantPrice? || o.RemoveVariantPrice?) && Do(st, o).Ok?
    ensures PriceInv(Do(st, o).value, default)
  {
    var after := Do(st, o).value;
    forall id, x
      ensures Variants(after, id, x) <==> Variants(st, id, x)
    {
    }
    if o.SetVariantPrice? {
      var p := st.stock[o.id];
      assert p.variants[FindVariant(p.variants, o.variantId).value] in p.variants;
    }
  }

  // ----- Runs -----

  lemma StepKeepsPrices(st: State, o: Operation, default: Id)
    requires StockInv(st) && PriceInv(st, default) && FreshFor(st, o) && Do(st, o).Ok?
    ensures PriceInv(Do(st, o).value, default)
  {
    match o
    case Create(id, n) => CreateKeepsPrices(st, id, n, default);
    case Remove(id) => RemoveKeepsPrices(st, id, default);
    case AddVariant(id, variantId, quantity) => AddVariantKeepsPrices(st, id, variantId, quantity, default);
    case RemoveVariant(id, variantId) => RemoveVariantKeepsPrices(st, id, variantId, default);
    case AddLot(id, lotId, quantity, expiresOn) => AddLotKeepsPrices(st, id, lotId, quantity, expiresOn, default);
    case RemoveLot(id, lotId) => LotRowKeepsPrices(st, id, Do(st, o).value.stock[id].lots, default);
    case CreateList(listId) => CreateListKeepsPrices(st, listId, default);
    case RemoveList(listId) => RemoveListKeepsPrices(st, listId, default);
    case _ => PricingKeepsPrices(st, o, default);
  }

  /** A run: an operation that fails changes nothing. */
  function Run(st: State, operations: seq<Operation>): State {
    if operations == [] then st
    else
      var before := Run(st, operations[..|operations| - 1]);
      match Do(before, operations[|operations| - 1])
      case Ok(after) => after
      case Err(_) => before
  }

  ghost predicate FreshRun(st: State, operations: seq<Operation>) {
    forall k :: 0 <= k < |operations| ==> FreshFor(Run(st, operations[..k]), operations[k])
  }

  /** In every run each bucket equals the sum of its movements and is never negative, products cover their lots,
      variants imply the flag, every product has exactly one price row per list, and every variant keeps its price on
      the default list. */
  lemma {:induction false} RunKeepsInvariants(st: State, operations: seq<Operation>, default: Id)
    requires StockInv(st) && PriceInv(st, default) && FreshRun(st, operations)
    ensures StockInv(Run(st, operations)) && PriceInv(Run(st, operations), default)
  {
    if operations != [] {
      var n := |operations| - 1;
      forall k | 0 <= k < n
        ensures FreshFor(Run(st, operations[..n][..k]), operations[..n][k])
      {
        assert operations[..n][..k] == operations[..k];
      }
      RunKeepsInvariants(st, operations[..n], default);
      var before := Run(st, operations[..n]);
      if Do(before, operations[n]).Ok? {
        StepKeepsStock(before, operations[n]);
        StepKeepsPrices(before, operations[n], default);
      }
    }
  }

  /** A catalog with nothing in it but the default list. */
  function NewTenant(default: Id): State {
    State(map[default := true], map[], [], {}, map[], map[])
  }

  lemma NewTenantInvariants(default: Id)
    ensures StockInv(NewTenant(default)) && PriceInv(NewTenant(default), default)
  {
    var st := NewTenant(default);
    forall b
      ensures JournaledAt(st, b)
    {
    }
  }

  // ----- A cancellation the lifecycle breaks -----

  /** The first variant keeps the product's lot rows, so a sale that drew from one can no longer be canceled. */
  lemma ConversionStrandsSoldLots(st: State, id: Id, variantId: Id, quantity: int, m: Movement)
    requires StockInv(st) && id in st.stock && !st.stock[id].hasVariants
    requires m.delta < 0 && m.bucket.LotOf? && m.bucket.productId == id && Has(st.stock, m.bucket)
    requires variantId !in VariantIds(st.stock[id]) && AddedVariant(st, id, variantId, quantity).Ok?
    ensures ReverseSale(st.stock, [m]).Ok?
    ensures ReverseSale(AddedVariant(st, id, variantId, quantity).value.stock, [m]).Err?
  {
    var after := AddedVariant(st, id, variantId, quantity).value;
    AddVariantKeepsStock(st, id, variantId, quantity);
    AddVariantKeepsLots(st, id, variantId, quantity);
    SameLotIds(st.stock[id].lots, after.stock[id].lots, m.bucket.lotId);
    ReverseSucceedsIff(st.stock, [m]);
    ReverseSucceedsIff(after.stock, [m]);
    assert Stranded(after.stock, m) && m in [m];
  }

  lemma AddVariantKeepsLots(st: State, id: Id, variantId: Id, quantity: int)
    requires StockInv(st) && id in st.stock && variantId !in VariantIds(st.stock[id])
    requires AddedVariant(st, id, variantId, quantity).Ok?
    ensures var after := AddedVariant(st, id, variantId, quantity).value;
            && id in after.stock && after.stock[id].hasVariants && |after.stock[id].lots| == |st.stock[id].lots|
            && forall i :: 0 <= i < |st.stock[id].lots| ==> after.stock[id].lots[i].id == st.stock[id].lots[i].id
  {
    ConvertedKeepsStock(st, id);
    ConvertedKeepsLots(st, id);
    var row := WithVariantRow(Converted(st, id).value, id, variantId);
    var changes := OnlyPositive(Change(VariantOf(id, variantId), quantity, false));
    VariantRowKeepsStock(Converted(st, id).value, id, variantId);
    PostingKeepsStock(row, changes);
    assert SameShape(row.stock[id], Posting(row, changes).value.stock[id]);
    assert AddedVariant(st, id, variantId, quantity) == Posting(row, changes);
  }

  lemma ConvertedKeepsLots(st: State, id: Id)
    requires StockInv(st) && id in st.stock && Converted(st, id).Ok?
    ensures var after := Converted(st, id).value;
            && id in after.stock && |after.stock[id].lots| == |st.stock[id].lots|
            && forall i :: 0 <= i < |st.stock[id].lots| ==> after.stock[id].lots[i].id == st.stock[id].lots[i].id
  {
    if !st.stock[id].hasVariants {
      EmptiedProduct(st, id);
      PostingKeepsStock(st, Removals(id, st.stock[id]));
      assert SameShape(st.stock[id], Posting(st, Removals(id, st.stock[id])).value.stock[id]);
    }
  }
}
