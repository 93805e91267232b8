/** The catalog tables changed in place, statement by statement: src/price-lists/price-lists.service.ts (create, remove)
and src/products/products.service.ts (addVariant).
*/
module CatalogTables {
  import opened Common
  import opened StockJournal
  import opened SaleStock
  import opened StockRemoval
  import opened Catalog

  class Tables {
    var lists: map<Id, bool>
    var stock: Stock
    var log: seq<Movement>
    var usesLots: set<Id>
    var prices: map<Cell, int>
    var variantPrices: map<VariantCell, int>

    function View(): State
      reads this
    {
      State(lists, stock, log, usesLots, prices, variantPrices)
    }

    constructor (st: State)
      ensures View() == st
    {
      lists, stock, log, usesLots := st.lists, st.stock, st.log, st.usesLots;
      prices, variantPrices := st.prices, st.variantPrices;
    }

    /** One zero price per product on the new list. */
    method FillProducts(listId: Id)
      modifies this`prices
      ensures prices == old(prices) + map c | c in ListRows(stock, stock.Keys, listId) :: 0
    {
      ghost var start := prices;
      ghost var done: set<Id> := {};
      var todo := stock.Keys;
      while todo != {}
        invariant done + todo == stock.Keys
        invariant prices == start + map c | c in ListRows(stock, done, listId) :: 0
        decreases todo
      {
        var id :| id in todo;
        prices := prices[Cell(id, listId) := 0];
        ghost var more := done + {id};
        assert ListRows(stock, more, listId) == ListRows(stock, done, listId) + {Cell(id, listId)};
        todo, done := todo - {id}, more;
      }
      assert done == stock.Keys;
    }

    /** One zero price per variant of one product on the new list. */
    method FillVariants(id: Id, listId: Id)
      requires id in stock
      modifies this`variantPrices
      ensures variantPrices == old(variantPrices) + map c | c in VariantRows(id, stock[id].variants, listId) :: 0
    {
      ghost var start := variantPrices;
      var variants := stock[id].variants;
      for n := 0 to |variants|
        invariant variantPrices == start + map c | c in VariantRows(id, variants[..n], listId) :: 0
      {
        variantPrices := variantPrices[VariantCell(variants[n].id, Cell(id, listId)) := 0];
        NextVariantRow(id, variants, listId, n);
      }
      assert variants[..|variants|] == variants;
    }

    method FillAllVariants(listId: Id)
      modifies this`variantPrices
      ensures variantPrices == old(variantPrices) + map c | c in AllVariantRows(stock, stock.Keys, listId) :: 0
    {
      ghost var start := variantPrices;
      ghost var done: set<Id> := {};
      var todo := stock.Keys;
      while todo != {}
        invariant done + todo == stock.Keys
        invariant variantPrices == start + map c | c in AllVariantRows(stock, done, listId) :: 0
        decreases todo
      {
        var id :| id in todo;
        ghost var before := variantPrices;
        ghost var rows := if stock[id].hasVariants then VariantRows(id, stock[id].variants, listId) else {};
        if stock[id].hasVariants {
          FillVariants(id, listId);
        }
        assert variantPrices == before + map c | c in rows :: 0;
        MoreVariantRows(stock, done, id, listId);
        ZerosCompose(start, AllVariantRows(stock, done, listId), rows);
        todo, done := todo - {id}, done + {id};
      }
      assert done == stock.Keys;
    }

    method CreatePriceList(listId: Id)
      modifies this
      ensures View() == CreatedList(old(View()), listId)
    {
      ColumnIsCreatedList(View(), listId);
      lists := lists[listId := false];
      FillProducts(listId);
      FillAllVariants(listId);
    }

    method RemovePriceList(listId: Id) returns (error: Option<Error>)
      modifies this
      ensures match RemovedList(old(View()), listId)
              case Ok(after) => error.None? && View() == after
              case Err(e) => error == Some(e) && View() == old(View())
    {
      if listId !in lists {
        return Some(NotFound);
      }
      if lists[listId] {
        return Some(DefaultListProtected);
      }
      lists := lists - {listId};
      prices := map c | c in prices && c.listId != listId :: prices[c];
      variantPrices := map v | v in variantPrices && v.cell.listId != listId :: variantPrices[v];
      return None;
    }

    /** Zeroes the parent when this is its first variant, adds the row and its prices, then books the initial stock. */
    method AddVariant(id: Id, variantId: Id, quantity: int) returns (error: Option<Error>)
      modifies this
      ensures match AddedVariant(old(View()), id, variantId, quantity)
              case Ok(after) => error.None? && View() == after
              case Err(e) => error == Some(e) && View() == old(View())
    {
      if id !in stock {
        return Some(NotFound);
      }
      var converted := Converted(View(), id);
      if converted.Err? {
        return Some(converted.error);
      }
      if id !in converted.value.stock {
        return Some(NotFound);
      }
      var row := WithVariantRow(converted.value, id, variantId);
      var initial := if quantity > 0 then [Change(VariantOf(id, variantId), quantity, false)] else [];
      var posted := ApplyChanges(row.stock, initial);
      if posted.Err? {
        return Some(StockRefused(posted.error));
      }
      usesLots, prices, variantPrices := row.usesLots, row.prices, row.variantPrices;
      stock := posted.value.stock;
      log := row.log + posted.value.movements;
      return None;
    }
  }

  function ListRows(stock: Stock, ids: set<Id>, listId: Id): set<Cell> {
    set id | id in ids :: Cell(id, listId)
  }

  function VariantRows(id: Id, variants: seq<Variant>, listId: Id): set<VariantCell> {
    set v | v in variants :: VariantCell(v.id, Cell(id, listId))
  }

  function AllVariantRows(stock: Stock, ids: set<Id>, listId: Id): set<VariantCell> {
    set id, v | id in ids && id in stock && stock[id].hasVariants && v in stock[id].variants :: VariantCell(v.id, Cell(id, listId))
  }

  lemma NextVariantRow(id: Id, variants: seq<Variant>, listId: Id, n: nat)
    requires n < |variants|
    ensures VariantRows(id, variants[..n + 1], listId) ==
            VariantRows(id, variants[..n], listId) + {VariantCell(variants[n].id, Cell(id, listId))}
  {
    assert variants[..n + 1] == variants[..n] + [variants[n]];
  }

  lemma MoreVariantRows(stock: Stock, done: set<Id>, id: Id, listId: Id)
    requires id in stock
    ensures AllVariantRows(stock, done + {id}, listId) ==
            AllVariantRows(stock, done, listId) +
            (if stock[id].hasVariants then VariantRows(id, stock[id].variants, listId) else {})
  {
  }

  lemma ZerosCompose<K>(m: map<K, int>, a: set<K>, b: set<K>)
    ensures (m + (map k | k in a :: 0)) + (map k | k in b :: 0) == m + (map k | k in a + b :: 0)
  {
  }

  /** The rows the two loops write are those of one new column. */
  lemma ColumnIsCreatedList(st: State, listId: Id)
    ensures CreatedList(st, listId) ==
            st.(lists := st.lists[listId := false],
                prices := st.prices + map c | c in ListRows(st.stock, st.stock.Keys, listId) :: 0,
                variantPrices := st.variantPrices + map c | c in AllVariantRows(st.stock, st.stock.Keys, listId) :: 0)
  {
    assert ListRows(st.stock, st.stock.Keys, listId) == set id | id in st.stock :: Cell(id, listId);
    assert AllVariantRows(st.stock, st.stock.Keys, listId) ==
           set id, v | id in st.stock && st.stock[id].hasVariants && v in st.stock[id].variants ::
             VariantCell(v.id, Cell(id, listId));
  }
}
