/** Tier-aware price resolution: src/products/products.service.ts.

The batch resolver answers many (product, variant, list, quantity) requests with one row
query per side; it is proved to answer each of them as if it had been asked alone.
*/
module PriceResolver {
  import opened Common

  datatype Tier = Tier(minQuantity: nat, priceCents: nat)

  /** A price of one owner (a product or a variant) in one list; `globalListId` names the shared list. */
  datatype PriceRow = PriceRow(ownerId: Id, listId: Id, globalListId: Id, priceCents: nat, tiers: seq<Tier>)

  datatype Catalog = Catalog(productRows: seq<PriceRow>, variantRows: seq<PriceRow>)

  datatype Request = Request(productId: Id, variantId: Option<Id>, listId: Option<Id>, quantity: Positive)

  /** What a row query asks for: the price of one owner in one list. */
  datatype Slot = Slot(ownerId: Id, listId: Id)

  datatype Key = Key(productId: Id, variantId: Option<Id>, listId: Id)

  datatype PriceError = InvalidPriceListForItem | PriceOutOfDate

  // ----- One row -----

  predicate Qualifies(t: Tier, quantity: int) {
    quantity >= t.minQuantity && t.priceCents > 0
  }

  function BestTier(tiers: seq<Tier>, quantity: int): Option<Tier> {
    if tiers == [] then None
    else
      var best := BestTier(tiers[..|tiers| - 1], quantity);
      var t := tiers[|tiers| - 1];
      if Qualifies(t, quantity) && (best.None? || t.minQuantity > best.value.minQuantity) then Some(t) else best
  }

  function SelectEffectivePrice(baseCents: nat, tiers: seq<Tier>, quantity: int): nat {
    match BestTier(tiers, quantity)
    case Some(t) => t.priceCents
    case None => baseCents
  }

  /** The price is that of the highest positive tier the quantity reaches, or the base price when it reaches none. */
  lemma {:induction false} EffectivePriceIsHighestTier(tiers: seq<Tier>, quantity: int)
    ensures BestTier(tiers, quantity).None? <==> forall t :: t in tiers ==> !Qualifies(t, quantity)
    ensures BestTier(tiers, quantity).Some? ==>
              var best := BestTier(tiers, quantity).value;
              && best in tiers && Qualifies(best, quantity)
              && forall t :: t in tiers && Qualifies(t, quantity) ==> t.minQuantity <= best.minQuantity
  {
    if tiers != [] {
      EffectivePriceIsHighestTier(tiers[..|tiers| - 1], quantity);
    }
  }

  // ----- Tier lists -----

  datatype TierError = NegativeThreshold | DuplicateThreshold(value: int) | NotAscending(before: int, value: int)

  ghost predicate Ascending(thresholds: seq<int>) {
    (forall i :: 0 <= i < |thresholds| ==> 0 <= thresholds[i]) &&
    forall i, j :: 0 <= i < j < |thresholds| ==> thresholds[i] < thresholds[j]
  }

  /** The first threshold that breaks the order, and why. */
  ghost predicate FaultAt(thresholds: seq<int>, i: nat, e: TierError) {
    && i < |thresholds| && Ascending(thresholds[..i])
    && match e
       case NegativeThreshold => thresholds[i] < 0
       case DuplicateThreshold(v) => v == thresholds[i] >= 0 && v in thresholds[..i]
       case NotAscending(b, v) => v == thresholds[i] >= 0 && v !in thresholds[..i] && 0 < i && b == thresholds[i - 1] > v
  }

  lemma AscendingNext(thresholds: seq<int>, i: nat)
    requires i < |thresholds| && Ascending(thresholds[..i]) && 0 <= thresholds[i]
    requires 0 < i ==> thresholds[i - 1] < thresholds[i]
    ensures Ascending(thresholds[..i + 1])
  {
    assert thresholds[..i + 1] == thresholds[..i] + [thresholds[i]];
  }

  ghost predicate Faulty(thresholds: seq<int>, e: TierError) {
    exists i: nat :: FaultAt(thresholds, i, e)
  }

  lemma FaultBreaks(thresholds: seq<int>, i: nat, e: TierError)
    requires FaultAt(thresholds, i, e)
    ensures Faulty(thresholds, e) && !Ascending(thresholds)
  {
    if e.DuplicateThreshold? {
      var k :| 0 <= k < i && thresholds[..i][k] == e.value;
      assert thresholds[k] == thresholds[i];
    }
  }

  /** Accepts exactly the strictly ascending non-negative thresholds; otherwise the first fault is reported. */
  method ValidateTierPrices(thresholds: seq<int>) returns (error: Option<TierError>)
    ensures error.None? <==> Ascending(thresholds)
    ensures error.Some? ==> Faulty(thresholds, error.value)
  {
    var seen: set<int> := {};
    for i := 0 to |thresholds|
      invariant Ascending(thresholds[..i])
      invariant forall v :: v in seen <==> v in thresholds[..i]
    {
      var v := thresholds[i];
      error := None;
      if v < 0 {
        error := Some(NegativeThreshold);
      } else if v in seen {
        error := Some(DuplicateThreshold(v));
      } else if i > 0 && v <= thresholds[i - 1] {
        assert thresholds[i - 1] in thresholds[..i];
        error := Some(NotAscending(thresholds[i - 1], v));
      }
      if error.Some? {
        FaultBreaks(thresholds, i, error.value);
        return;
      }
      AscendingNext(thresholds, i);
      seen := seen + {v};
      assert thresholds[..i + 1] == thresholds[..i] + [v];
    }
    assert thresholds[..|thresholds|] == thresholds;
    error := None;
  }

  ghost predicate DistinctTiers(tiers: seq<Tier>) {
    forall s, t :: s in tiers && t in tiers && s.minQuantity == t.minQuantity ==> s == t
  }

  /** Once thresholds are unique, the price depends on which tiers there are and not on the order a query lists them in. */
  lemma TierOrderIsIrrelevant(baseCents: nat, tiers: seq<Tier>, other: seq<Tier>, quantity: int)
    requires DistinctTiers(tiers) && forall t :: t in tiers <==> t in other
    ensures SelectEffectivePrice(baseCents, tiers, quantity) == SelectEffectivePrice(baseCents, other, quantity)
  {
    EffectivePriceIsHighestTier(tiers, quantity);
    EffectivePriceIsHighestTier(other, quantity);
    if BestTier(tiers, quantity).Some? && BestTier(other, quantity).Some? {
      var a, b := BestTier(tiers, quantity).value, BestTier(other, quantity).value;
      assert a in tiers && b in tiers && a.minQuantity == b.minQuantity;
    }
  }

  // ----- Asking for one price -----

  predicate Answers(r: PriceRow, ownerId: Id, listId: Id) {
    r.ownerId == ownerId && (r.listId == listId || r.globalListId == listId)
  }

  predicate AnswersSlot(r: PriceRow, k: Slot) {
    Answers(r, k.ownerId, k.listId)
  }

  function FindRow(rows: seq<PriceRow>, ownerId: Id, listId: Id): (r: Option<PriceRow>)
    ensures r.Some? ==> r.value in rows && Answers(r.value, ownerId, listId)
    ensures r.None? ==> forall x :: x in rows ==> !Answers(x, ownerId, listId)
  {
    if rows == [] then None
    else if Answers(rows[0], ownerId, listId) then Some(rows[0])
    else FindRow(rows[1..], ownerId, listId)
  }

  /** One price per owner and list, and list ids disjoint from shared-list ids: what the schema's unique keys give. */
  ghost predicate Unambiguous(rows: seq<PriceRow>) {
    forall r, s, listId: Id :: r in rows && s in rows && Answers(r, r.ownerId, listId) && Answers(s, r.ownerId, listId) ==> r == s
  }

  lemma UniqueKeysAreUnambiguous(rows: seq<PriceRow>)
    requires forall i, j :: 0 <= i < j < |rows| && rows[i].ownerId == rows[j].ownerId ==>
                              rows[i].listId != rows[j].listId && rows[i].globalListId != rows[j].globalListId
    requires forall r, s :: r in rows && s in rows ==> r.listId != s.globalListId
    ensures Unambiguous(rows)
  {
    forall r, s, listId: Id | r in rows && s in rows && Answers(r, r.ownerId, listId) && Answers(s, r.ownerId, listId)
      ensures r == s
    {
      var i :| 0 <= i < |rows| && rows[i] == r;
      var j :| 0 <= j < |rows| && rows[j] == s;
    }
  }

  ghost predicate ValidCatalog(c: Catalog) {
    Unambiguous(c.productRows) && Unambiguous(c.variantRows)
  }

  function Table(c: Catalog, variantId: Option<Id>): seq<PriceRow> {
    if variantId.Some? then c.variantRows else c.productRows
  }

  /** The simple form: the price of one owner in one list (its own id or the shared one) at one quantity. */
  function Resolve(c: Catalog, productId: Id, variantId: Option<Id>, listId: Id, quantity: int): Option<nat> {
    match FindRow(Table(c, variantId), variantId.GetOr(productId), listId)
    case None => None
    case Some(r) => Some(SelectEffectivePrice(r.priceCents, r.tiers, quantity))
  }

  datatype Applicable = Applicable(listId: Id, priceCents: nat)

  function GetApplicablePrices(rows: seq<PriceRow>, ownerId: Id, quantity: int): seq<Applicable> {
    if rows == [] then []
    else
      var rest := GetApplicablePrices(rows[1..], ownerId, quantity);
      var r := rows[0];
      if r.ownerId == ownerId
      then [Applicable(r.listId, SelectEffectivePrice(r.priceCents, r.tiers, quantity))] + rest else rest
  }

  function FirstForList(prices: seq<Applicable>, listId: Id): Option<nat> {
    if prices == [] then None
    else if prices[0].listId == listId then Some(prices[0].priceCents)
    else FirstForList(prices[1..], listId)
  }

  function ResolveListPrice(c: Catalog, listId: Id, productId: Id, variantId: Option<Id>, quantity: int): Result<nat, PriceError> {
    match FirstForList(GetApplicablePrices(Table(c, variantId), variantId.GetOr(productId), quantity), listId)
    case Some(cents) => Ok(cents)
    case None => Err(InvalidPriceListForItem)
  }

  /** Looking a list up by its own id finds what the resolver finds, and fails exactly when no such row exists. */
  lemma ListPriceAgrees(c: Catalog, listId: Id, productId: Id, variantId: Option<Id>, quantity: int)
    requires ValidCatalog(c)
    requires forall r :: r in Table(c, variantId) ==> r.globalListId != listId
    ensures ResolveListPrice(c, listId, productId, variantId, quantity) ==
            match Resolve(c, productId, variantId, listId, quantity)
            case Some(cents) => Ok(cents)
            case None => Err(InvalidPriceListForItem)
  {
    ApplicableAgrees(Table(c, variantId), variantId.GetOr(productId), listId, quantity);
  }

  lemma {:induction false} ApplicableAgrees(rows: seq<PriceRow>, ownerId: Id, listId: Id, quantity: int)
    requires forall r :: r in rows ==> r.globalListId != listId
    ensures FirstForList(GetApplicablePrices(rows, ownerId, quantity), listId) ==
            match FindRow(rows, ownerId, listId)
            case None => None
            case Some(r) => Some(SelectEffectivePrice(r.priceCents, r.tiers, quantity))
  {
    if rows != [] {
      ApplicableAgrees(rows[1..], ownerId, listId, quantity);
    }
  }

  // ----- Asking for many -----

  type PriceMap = map<Key, map<int, nat>>

  function KeyOf(q: Request): Key
    requires q.listId.Some?
  {
    Key(q.productId, q.variantId, q.listId.value)
  }

  function OwnerOf(q: Request): Id {
    q.variantId.GetOr(q.productId)
  }

  function Lookup(m: PriceMap, q: Request): Option<nat>
    requires q.listId.Some?
  {
    if KeyOf(q) in m && q.quantity in m[KeyOf(q)] then Some(m[KeyOf(q)][q.quantity]) else None
  }

  function Select(inputs: seq<Request>, variants: bool): (r: seq<Request>)
    ensures forall q :: q in r <==> q in inputs && q.variantId.Some? == variants && q.listId.Some?
  {
    if inputs == [] then []
    else
      var rest := Select(inputs[1..], variants);
      var q := inputs[0];
      if q.variantId.Some? == variants && q.listId.Some? then [q] + rest else rest
  }

  /** Every recorded price is the one its key and quantity resolve to alone, and somebody asked for it. */
  ghost predicate Faithful(m: PriceMap, c: Catalog, inputs: seq<Request>) {
    forall k, n :: k in m && n in m[k] ==>
      && Resolve(c, k.productId, k.variantId, k.listId, n) == Some(m[k][n])
      && exists q :: q in inputs && q.listId.Some? && KeyOf(q) == k && q.quantity == n
  }

  /** A row query: the rows of the table that answer some requested slot, in no promised order. */
  ghost predicate Queried(rows: seq<PriceRow>, table: seq<PriceRow>, keys: set<Slot>) {
    forall r :: r in rows <==> r in table && exists k :: k in keys && AnswersSlot(r, k)
  }

  method FindMany(table: seq<PriceRow>, keys: set<Slot>) returns (rows: seq<PriceRow>)
    ensures Queried(rows, table, keys)
  {
    rows := [];
    for i := 0 to |table|
      invariant forall r :: r in rows <==> r in table[..i] && exists k :: k in keys && AnswersSlot(r, k)
    {
      if exists k :: k in keys && AnswersSlot(table[i], k) {
        rows := rows + [table[i]];
      }
    }
    assert table[..|table|] == table;
  }

  ghost predicate IndexSound(index: map<Slot, PriceRow>, rows: seq<PriceRow>) {
    forall k {:trigger AnswersSlot(index[k], k)} :: k in index ==> index[k] in rows && AnswersSlot(index[k], k)
  }

  ghost predicate IndexCovers(index: map<Slot, PriceRow>, rows: seq<PriceRow>) {
    forall r :: r in rows ==> Slot(r.ownerId, r.listId) in index && Slot(r.ownerId, r.globalListId) in index
  }

  method IndexRows(rows: seq<PriceRow>) returns (index: map<Slot, PriceRow>)
    ensures IndexSound(index, rows) && IndexCovers(index, rows)
  {
    index := map[];
    for i := 0 to |rows|
      invariant IndexSound(index, rows[..i]) && IndexCovers(index, rows[..i])
    {
      ghost var was := index;
      var row := rows[i];
      index := index[Slot(row.ownerId, row.listId) := row];
      index := index[Slot(row.ownerId, row.globalListId) := row];
      IndexStep(was, index, rows, i);
    }
    assert rows[..|rows|] == rows;
  }

  lemma IndexStep(was: map<Slot, PriceRow>, index: map<Slot, PriceRow>, rows: seq<PriceRow>, i: nat)
    requires i < |rows| && IndexSound(was, rows[..i]) && IndexCovers(was, rows[..i])
    requires index == was[Slot(rows[i].ownerId, rows[i].listId) := rows[i]][Slot(rows[i].ownerId, rows[i].globalListId) := rows[i]]
    ensures IndexSound(index, rows[..i + 1]) && IndexCovers(index, rows[..i + 1])
  {
    IndexStepSound(was, index, rows[..i], rows[i]);
    IndexStepCovers(was, index, rows[..i], rows[i]);
    assert rows[..i + 1] == rows[..i] + [rows[i]];
  }

  lemma IndexStepSound(was: map<Slot, PriceRow>, index: map<Slot, PriceRow>, rows: seq<PriceRow>, row: PriceRow)
    requires IndexSound(was, rows)
    requires index == was[Slot(row.ownerId, row.listId) := row][Slot(row.ownerId, row.globalListId) := row]
    ensures IndexSound(index, rows + [row])
  {
    forall k | k in index
      ensures index[k] in rows + [row] && AnswersSlot(index[k], k)
    {
      assert k in was ==> AnswersSlot(was[k], k);
    }
  }

  lemma IndexStepCovers(was: map<Slot, PriceRow>, index: map<Slot, PriceRow>, rows: seq<PriceRow>, row: PriceRow)
    requires IndexCovers(was, rows)
    requires index == was[Slot(row.ownerId, row.listId) := row][Slot(row.ownerId, row.globalListId) := row]
    ensures IndexCovers(index, rows + [row])
  {
  }

  lemma AnswerIsFound(rows: seq<PriceRow>, r: PriceRow, ownerId: Id, listId: Id)
    requires Unambiguous(rows) && r in rows && Answers(r, ownerId, listId)
    ensures FindRow(rows, ownerId, listId) == Some(r)
  {
    var found := FindRow(rows, ownerId, listId).value;
    assert Answers(found, r.ownerId, listId);
  }

  /** Whenever the request has a price of its own, the map has one for it. */
  ghost predicate Covered(m: PriceMap, c: Catalog, q: Request)
    requires q.listId.Some?
  {
    Resolve(c, q.productId, q.variantId, q.listId.value, q.quantity).Some? ==> Lookup(m, q).Some?
  }

  function Record(m: PriceMap, q: Request, cents: nat): PriceMap
    requires q.listId.Some?
  {
    var inner := if KeyOf(q) in m then m[KeyOf(q)] else map[];
    m[KeyOf(q) := inner[q.quantity := cents]]
  }

  lemma RecordKeeps(m: PriceMap, c: Catalog, inputs: seq<Request>, q: Request, cents: nat)
    requires Faithful(m, c, inputs) && q in inputs && q.listId.Some?
    requires Resolve(c, q.productId, q.variantId, q.listId.value, q.quantity) == Some(cents)
    ensures Faithful(Record(m, q, cents), c, inputs)
    ensures Covered(Record(m, q, cents), c, q)
    ensures forall x: Request :: x.listId.Some? && Covered(m, c, x) ==> Covered(Record(m, q, cents), c, x)
  {
    var m' := Record(m, q, cents);
    forall k, n | k in m' && n in m'[k]
      ensures Resolve(c, k.productId, k.variantId, k.listId, n) == Some(m'[k][n])
      ensures exists x :: x in inputs && x.listId.Some? && KeyOf(x) == k && x.quantity == n
    {
      if k == KeyOf(q) && n == q.quantity {
      } else {
        assert k in m && n in m[k] && m'[k][n] == m[k][n];
      }
    }
  }

  method KeysOf(group: seq<Request>) returns (keys: set<Slot>)
    requires forall q :: q in group ==> q.listId.Some?
    ensures forall q :: q in group ==> Slot(OwnerOf(q), q.listId.value) in keys
  {
    keys := {};
    for i := 0 to |group|
      invariant forall j :: 0 <= j < i ==> Slot(OwnerOf(group[j]), group[j].listId.value) in keys
    {
      keys := keys + {Slot(OwnerOf(group[i]), group[i].listId.value)};
    }
  }

  /** The index over a side's table answers every queried slot that has an answer. */
  ghost predicate Complete(index: map<Slot, PriceRow>, table: seq<PriceRow>, keys: set<Slot>) {
    forall k, r :: k in keys && r in table && AnswersSlot(r, k) ==> k in index
  }

  lemma QueriedSound(index: map<Slot, PriceRow>, rows: seq<PriceRow>, table: seq<PriceRow>, keys: set<Slot>)
    requires Queried(rows, table, keys) && IndexSound(index, rows)
    ensures IndexSound(index, table)
  {
    forall k | k in index
      ensures index[k] in table && AnswersSlot(index[k], k)
    {
      assert AnswersSlot(index[k], k) && index[k] in rows;
    }
  }

  lemma QueriedComplete(index: map<Slot, PriceRow>, rows: seq<PriceRow>, table: seq<PriceRow>, keys: set<Slot>)
    requires Queried(rows, table, keys) && IndexCovers(index, rows)
    ensures Complete(index, table, keys)
  {
    forall k, r | k in keys && r in table && AnswersSlot(r, k)
      ensures k in index
    {
      assert r in rows;
      assert k == Slot(r.ownerId, r.listId) || k == Slot(r.ownerId, r.globalListId);
    }
  }

  /** Reads the row of one request off the index and records its price. */
  method ResolveOne(c: Catalog, inputs: seq<Request>, index: map<Slot, PriceRow>, q: Request, m: PriceMap,
                    ghost keys: set<Slot>)
    returns (outer: PriceMap)
    requires ValidCatalog(c) && Faithful(m, c, inputs)
    requires q in inputs && q.listId.Some? && Slot(OwnerOf(q), q.listId.value) in keys
    requires IndexSound(index, Table(c, q.variantId)) && Complete(index, Table(c, q.variantId), keys)
    ensures Faithful(outer, c, inputs) && Covered(outer, c, q)
    ensures forall x: Request :: x.listId.Some? && Covered(m, c, x) ==> Covered(outer, c, x)
  {
    var k := Slot(OwnerOf(q), q.listId.value);
    if k in index {
      var row := index[k];
      assert AnswersSlot(index[k], k);
      AnswerIsFound(Table(c, q.variantId), row, k.ownerId, k.listId);
      var cents := SelectEffectivePrice(row.priceCents, row.tiers, q.quantity);
      RecordKeeps(m, c, inputs, q, cents);
      outer := Record(m, q, cents);
    } else {
      outer := m;
      assert FindRow(Table(c, q.variantId), k.ownerId, k.listId).None?;
    }
  }

  /** One row query per side, indexed by owner and list. */
  method QueryIndex(table: seq<PriceRow>, group: seq<Request>)
    returns (index: map<Slot, PriceRow>, ghost keys: set<Slot>)
    requires forall q :: q in group ==> q.listId.Some?
    ensures IndexSound(index, table) && Complete(index, table, keys)
    ensures forall q :: q in group ==> Slot(OwnerOf(q), q.listId.value) in keys
  {
    var ks := KeysOf(group);
    keys := ks;
    var rows := FindMany(table, ks);
    index := IndexRows(rows);
    QueriedSound(index, rows, table, ks);
    QueriedComplete(index, rows, table, ks);
  }

  /** One side (products or variants) of the batch. */
  method ResolveGroup(c: Catalog, inputs: seq<Request>, group: seq<Request>, variants: bool, m: PriceMap)
    returns (outer: PriceMap)
    requires ValidCatalog(c) && Faithful(m, c, inputs)
    requires forall q :: q in group ==> q in inputs && q.listId.Some? && q.variantId.Some? == variants
    ensures Faithful(outer, c, inputs)
    ensures forall q: Request :: q.listId.Some? && Covered(m, c, q) ==> Covered(outer, c, q)
    ensures forall q :: q in group ==> Covered(outer, c, q)
  {
    var table := if variants then c.variantRows else c.productRows;
    var index, keys := QueryIndex(table, group);
    outer := m;
    for i := 0 to |group|
      invariant Faithful(outer, c, inputs)
      invariant forall q: Request :: q.listId.Some? && Covered(m, c, q) ==> Covered(outer, c, q)
      invariant forall q :: q in group[..i] ==> Covered(outer, c, q)
    {
      var q := group[i];
      assert q in group;
      assert Table(c, q.variantId) == table;
      outer := ResolveOne(c, inputs, index, q, outer, keys);
      assert group[..i + 1] == group[..i] + [q];
    }
    assert group[..|group|] == group;
  }

  /** The fast form refines the simple one: every request is answered as if asked alone, and nothing else is recorded. */
  method BatchResolvePriceMap(c: Catalog, inputs: seq<Request>) returns (outer: PriceMap)
    requires ValidCatalog(c)
    ensures forall q :: q in inputs && q.listId.Some? ==>
                          Lookup(outer, q) == Resolve(c, q.productId, q.variantId, q.listId.value, q.quantity)
    ensures forall k, n :: k in outer && n in outer[k] ==>
                             exists q :: q in inputs && q.listId.Some? && KeyOf(q) == k && q.quantity == n
  {
    outer := map[];
    if |inputs| == 0 {
      return;
    }
    var variantInputs := Select(inputs, true);
    var productInputs := Select(inputs, false);
    outer := ResolveGroup(c, inputs, variantInputs, true, outer);
    outer := ResolveGroup(c, inputs, productInputs, false, outer);
    forall q | q in inputs && q.listId.Some?
      ensures Lookup(outer, q) == Resolve(c, q.productId, q.variantId, q.listId.value, q.quantity)
    {
      assert q in variantInputs || q in productInputs;
    }
  }
}
