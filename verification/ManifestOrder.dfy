/** The plan does not depend on how the manifest lists things: desiredRows and the final sorts in
prisma/editorial-production-vocabulary-plan.ts. */
module ManifestOrder {
  import opened Common
  import opened Json
  import opened Permutations
  import opened Sorting
  import opened Vocabulary
  import opened VocabularyConvergence
  import opened VocabularyManifest
  import opened VocabularyOrder
  import opened VocabularyRanks
  import opened VocabularyReport

  // ----- Manifests with the order of their lists forgotten -----

  datatype FamilyBag = FamilyBag(code: string, fields: Fields, bindings: multiset<Coded>)

  datatype GroupBag = GroupBag(code: string, caption: string, optionCodes: multiset<string>)

  datatype ChoicesBag<G> = ChoicesBag(options: multiset<Coded>, groups: multiset<G>, aliases: multiset<Alias>)

  datatype DefinitionBag<G> = DefinitionBag(code: string, fields: Fields, units: multiset<Coded>, choices: Option<ChoicesBag<G>>)

  function BagFamily(f: Family): FamilyBag {
    FamilyBag(f.code, f.fields, multiset(f.bindings))
  }

  function BagGroup(g: Group): GroupBag {
    GroupBag(g.code, g.caption, multiset(g.optionCodes))
  }

  ghost function BagChoices<G>(c: Option<Choices>, view: Group -> G): Option<ChoicesBag<G>> {
    if c.None? then None
    else Some(ChoicesBag(multiset(c.value.options), multiset(Mapped(c.value.groups, view)), multiset(c.value.aliases)))
  }

  ghost function BagDefinition<G>(view: Group -> G): Definition -> DefinitionBag<G> {
    (d: Definition) => DefinitionBag(d.code, d.fields, multiset(d.units), BagChoices(d.choices, view))
  }

  /** The same manifest with its lists in another order, at every level; `view` says what of a group is kept. */
  ghost predicate Rearranged<G>(a: Manifest, b: Manifest, view: Group -> G) {
    && a.version == b.version
    && multiset(Mapped(a.families, BagFamily)) == multiset(Mapped(b.families, BagFamily))
    && multiset(Mapped(a.definitions, BagDefinition(view))) == multiset(Mapped(b.definitions, BagDefinition(view)))
  }

  /** A desired row with its references in order. */
  function TidiedEntry(e: Entry): Entry {
    e.(refs := Sort(e.refs, TargetRank))
  }

  // ----- Collecting the same rows -----

  ghost function RowBag(rows: seq<Entry>, normal: Entry -> Entry): multiset<Entry> {
    multiset(Mapped(rows, normal))
  }

  lemma RowBagAppend(a: seq<Entry>, b: seq<Entry>, normal: Entry -> Entry)
    ensures RowBag(a + b, normal) == RowBag(a, normal) + RowBag(b, normal)
  {
    MappedAppend(a, b, normal);
  }

  lemma {:induction false} FlattenedAppend<A(!new)>(s: seq<A>, t: seq<A>, rows: A -> seq<Entry>)
    ensures Flattened(s + t, rows) == Flattened(s, rows) + Flattened(t, rows)
  {
    if t == [] {
      assert s + t == s;
    } else {
      var n := |t| - 1;
      FlattenedAppend(s, t[..n], rows);
      assert (s + t)[..|s| + n] == s + t[..n];
    }
  }

  lemma FlattenedOne<A(!new)>(a: A, rows: A -> seq<Entry>)
    ensures Flattened([a], rows) == rows(a)
  {
    assert [a][..0] == [];
  }

  lemma FlattenedMiddle<A(!new)>(left: seq<A>, a: A, right: seq<A>, rows: A -> seq<Entry>, normal: Entry -> Entry)
    ensures RowBag(Flattened(left + [a] + right, rows), normal) == RowBag(Flattened(left + right, rows), normal) + RowBag(rows(a), normal)
  {
    FlattenedAppend(left + [a], right, rows);
    FlattenedAppend(left, [a], rows);
    FlattenedAppend(left, right, rows);
    FlattenedOne(a, rows);
    RowBagAppend(Flattened(left, rows) + rows(a), Flattened(right, rows), normal);
    RowBagAppend(Flattened(left, rows), rows(a), normal);
    RowBagAppend(Flattened(left, rows), Flattened(right, rows), normal);
  }

  lemma FlattenedWithout<A(!new)>(t: seq<A>, p: nat, rows: A -> seq<Entry>, normal: Entry -> Entry)
    requires p < |t|
    ensures RowBag(Flattened(t, rows), normal) == RowBag(Flattened(Without(t, p), rows), normal) + RowBag(rows(t[p]), normal)
  {
    var left, right := Around(t, p);
    FlattenedMiddle(left, t[p], right, rows, normal);
  }

  /** Blocks that `bag` does not tell apart give the same rows, so rearranged lists of blocks do. */
  lemma {:induction false} FlattenedMoves<A(!new), B(!new)>(s: seq<A>, t: seq<A>, bag: A -> B, rows: A -> seq<Entry>, normal: Entry -> Entry)
    requires multiset(Mapped(s, bag)) == multiset(Mapped(t, bag))
    requires forall x, y :: bag(x) == bag(y) ==> RowBag(rows(x), normal) == RowBag(rows(y), normal)
    ensures RowBag(Flattened(s, rows), normal) == RowBag(Flattened(t, rows), normal)
  {
    if s == [] {
      SameElements(Mapped(s, bag), Mapped(t, bag));
    } else {
      var p := Peel(s, t, bag);
      FlattenedMoves(s[..|s| - 1], Without(t, p), bag, rows, normal);
      RowBagAppend(Flattened(s[..|s| - 1], rows), rows(s[|s| - 1]), normal);
      FlattenedWithout(t, p, rows, normal);
    }
  }

  /** Children rendered by `f` on one side and by `g` on the other. */
  lemma ChildrenMove<A(!new), B(!new)>(s: seq<A>, t: seq<A>, view: A -> B, f: A -> Entry, g: A -> Entry, normal: Entry -> Entry)
    requires multiset(Mapped(s, view)) == multiset(Mapped(t, view))
    requires forall x, y :: view(x) == view(y) ==> normal(f(x)) == normal(g(y))
    ensures RowBag(Mapped(s, f), normal) == RowBag(Mapped(t, g), normal)
  {
    var shown := (x: A) => normal(f(x));
    assert Mapped(Mapped(s, f), normal) == Mapped(s, shown);
    assert Mapped(Mapped(t, g), normal) == Mapped(t, shown);
    MappedMoves(s, t, view, shown);
  }

  lemma CodedMove(s: seq<Coded>, t: seq<Coded>, f: Coded -> Entry, g: Coded -> Entry, normal: Entry -> Entry)
    requires multiset(s) == multiset(t) && forall x :: f(x) == g(x)
    ensures RowBag(Mapped(s, f), normal) == RowBag(Mapped(t, g), normal)
  {
    assert Mapped(s, Same<Coded>) == s && Mapped(t, Same<Coded>) == t;
    ChildrenMove(s, t, Same<Coded>, f, g, normal);
  }

  lemma AliasesMove(s: seq<Alias>, t: seq<Alias>, f: Alias -> Entry, g: Alias -> Entry, normal: Entry -> Entry)
    requires multiset(s) == multiset(t) && forall x :: f(x) == g(x)
    ensures RowBag(Mapped(s, f), normal) == RowBag(Mapped(t, g), normal)
  {
    assert Mapped(s, Same<Alias>) == s && Mapped(t, Same<Alias>) == t;
    ChildrenMove(s, t, Same<Alias>, f, g, normal);
  }

  lemma FamilyMoves(x: Family, y: Family, normal: Entry -> Entry)
    requires BagFamily(x) == BagFamily(y)
    ensures RowBag(FamilyRows(x), normal) == RowBag(FamilyRows(y), normal)
  {
    var f, g := (b: Coded) => BindingRow(x, b), (b: Coded) => BindingRow(y, b);
    assert BindingRows(x) == Mapped(x.bindings, f) && BindingRows(y) == Mapped(y.bindings, g);
    CodedMove(x.bindings, y.bindings, f, g, normal);
    RowBagAppend([Entry(FamilyKey(x.code), x.fields, [])], BindingRows(x), normal);
    RowBagAppend([Entry(FamilyKey(y.code), y.fields, [])], BindingRows(y), normal);
  }

  /** Groups `view` does not tell apart give the same row once normalized. */
  ghost predicate Respects<G>(view: Group -> G, normal: Entry -> Entry) {
    forall d: Definition, e: Definition, g, h :: d.code == e.code && view(g) == view(h) ==> normal(GroupRow(d, g)) == normal(GroupRow(e, h))
  }

  lemma UnitsMove(x: Definition, y: Definition, normal: Entry -> Entry)
    requires x.code == y.code && multiset(x.units) == multiset(y.units)
    ensures RowBag(UnitRows(x), normal) == RowBag(UnitRows(y), normal)
  {
    var f, g := (u: Coded) => UnitRow(x, u), (u: Coded) => UnitRow(y, u);
    assert UnitRows(x) == Mapped(x.units, f) && UnitRows(y) == Mapped(y.units, g);
    CodedMove(x.units, y.units, f, g, normal);
  }

  lemma OptionsMove(x: Definition, y: Definition, normal: Entry -> Entry)
    requires x.code == y.code && multiset(Options(x)) == multiset(Options(y))
    ensures RowBag(OptionRows(x), normal) == RowBag(OptionRows(y), normal)
  {
    var f, g := (o: Coded) => OptionRow(x, o), (o: Coded) => OptionRow(y, o);
    assert OptionRows(x) == Mapped(Options(x), f) && OptionRows(y) == Mapped(Options(y), g);
    CodedMove(Options(x), Options(y), f, g, normal);
  }

  lemma GroupsMove<G(!new)>(x: Definition, y: Definition, view: Group -> G, normal: Entry -> Entry)
    requires x.code == y.code && multiset(Mapped(Groups(x), view)) == multiset(Mapped(Groups(y), view)) && Respects(view, normal)
    ensures RowBag(GroupRows(x), normal) == RowBag(GroupRows(y), normal)
  {
    var f, g := (r: Group) => GroupRow(x, r), (r: Group) => GroupRow(y, r);
    assert GroupRows(x) == Mapped(Groups(x), f) && GroupRows(y) == Mapped(Groups(y), g);
    ChildrenMove(Groups(x), Groups(y), view, f, g, normal);
  }

  lemma AliasRowsMove(x: Definition, y: Definition, normal: Entry -> Entry)
    requires x.code == y.code && multiset(Aliases(x)) == multiset(Aliases(y))
    ensures RowBag(AliasRows(x), normal) == RowBag(AliasRows(y), normal)
  {
    var f, g := (a: Alias) => AliasRow(x, a), (a: Alias) => AliasRow(y, a);
    assert AliasRows(x) == Mapped(Aliases(x), f) && AliasRows(y) == Mapped(Aliases(y), g);
    AliasesMove(Aliases(x), Aliases(y), f, g, normal);
  }

  lemma DefinitionBagParts(d: Definition, normal: Entry -> Entry)
    ensures RowBag(DefinitionRows(d), normal) ==
            RowBag([Entry(DefinitionKey(d.code), d.fields, [])], normal) + RowBag(UnitRows(d), normal) + RowBag(OptionRows(d), normal)
            + RowBag(GroupRows(d), normal) + RowBag(AliasRows(d), normal)
  {
    RowBagAppend([Entry(DefinitionKey(d.code), d.fields, [])], ChildRows(d), normal);
    RowBagAppend(UnitRows(d) + OptionRows(d) + GroupRows(d), AliasRows(d), normal);
    RowBagAppend(UnitRows(d) + OptionRows(d), GroupRows(d), normal);
    RowBagAppend(UnitRows(d), OptionRows(d), normal);
  }

  lemma ChoicesAlike<G(!new)>(x: Definition, y: Definition, view: Group -> G)
    requires BagChoices(x.choices, view) == BagChoices(y.choices, view)
    ensures multiset(Options(x)) == multiset(Options(y)) && multiset(Aliases(x)) == multiset(Aliases(y))
    ensures multiset(Mapped(Groups(x), view)) == multiset(Mapped(Groups(y), view))
  {
  }

  lemma DefinitionMoves<G(!new)>(x: Definition, y: Definition, view: Group -> G, normal: Entry -> Entry)
    requires BagDefinition(view)(x) == BagDefinition(view)(y) && Respects(view, normal)
    ensures RowBag(DefinitionRows(x), normal) == RowBag(DefinitionRows(y), normal)
  {
    ChoicesAlike(x, y, view);
    DefinitionBagParts(x, normal);
    DefinitionBagParts(y, normal);
    UnitsMove(x, y, normal);
    OptionsMove(x, y, normal);
    GroupsMove(x, y, view, normal);
    AliasRowsMove(x, y, normal);
  }

  lemma CollectedMove<G(!new)>(a: Manifest, b: Manifest, view: Group -> G, normal: Entry -> Entry)
    requires Rearranged(a, b, view) && Respects(view, normal)
    ensures RowBag(CollectedRows(a), normal) == RowBag(CollectedRows(b), normal)
  {
    forall x: Family, y: Family | BagFamily(x) == BagFamily(y)
      ensures RowBag(FamilyRows(x), normal) == RowBag(FamilyRows(y), normal)
    {
      FamilyMoves(x, y, normal);
    }
    FlattenedMoves(a.families, b.families, BagFamily, FamilyRows, normal);
    var bag := BagDefinition(view);
    forall x: Definition, y: Definition | bag(x) == bag(y)
      ensures RowBag(DefinitionRows(x), normal) == RowBag(DefinitionRows(y), normal)
    {
      DefinitionMoves(x, y, view, normal);
    }
    FlattenedMoves(a.definitions, b.definitions, bag, DefinitionRows, normal);
    RowBagAppend(Flattened(a.families, FamilyRows), Flattened(a.definitions, DefinitionRows), normal);
    RowBagAppend(Flattened(b.families, FamilyRows), Flattened(b.definitions, DefinitionRows), normal);
  }

  // ----- Planning the same rows -----

  /** Desired rows that agree as a bag, up to the order of each row's references. */
  ghost predicate SameDesired(d: seq<Entry>, e: seq<Entry>) {
    RowBag(d, TidiedEntry) == RowBag(e, TidiedEntry)
  }

  lemma TidiedMeans(x: Entry, y: Entry)
    requires TidiedEntry(x) == TidiedEntry(y)
    ensures x.key == y.key && x.fields == y.fields && multiset(x.refs) == multiset(y.refs)
  {
    TargetsFaithful();
    SortForgetsOrder(x.refs, y.refs, TargetRank);
  }

  lemma EntryMoves(d: seq<Entry>, e: seq<Entry>, x: Entry) returns (moved: Entry)
    requires SameDesired(d, e) && x in d
    ensures moved in e && TidiedEntry(moved) == TidiedEntry(x)
  {
    var i :| 0 <= i < |d| && d[i] == x;
    var p := ElementMoves(Mapped(d, TidiedEntry), Mapped(e, TidiedEntry), i);
    moved := e[p];
  }

  lemma DesiredKeysPermute(d: seq<Entry>, e: seq<Entry>)
    requires SameDesired(d, e)
    ensures multiset(EntryKeys(d)) == multiset(EntryKeys(e))
  {
    assert EntryKeys(d) == Mapped(d, EntryKey) && EntryKeys(e) == Mapped(e, EntryKey);
    MappedMoves(d, e, TidiedEntry, EntryKey);
  }

  lemma {:induction false} NoneMissingPermutes(stored: seq<Key>, x: seq<Key>, y: seq<Key>)
    requires multiset(x) == multiset(y)
    ensures MissingTargets(stored, x) == [] <==> MissingTargets(stored, y) == []
  {
    SameElements(x, y);
    EmptyAlike(MissingTargets(stored, x), MissingTargets(stored, y));
  }

  lemma EntryConflictsAlike(rows: seq<Row>, x: Entry, y: Entry, c: Conflict)
    requires TidiedEntry(x) == TidiedEntry(y)
    ensures MergeConflict(rows, x, c) <==> MergeConflict(rows, y, c)
  {
    TidiedMeans(x, y);
    if !Twice(Keys(rows), x.key) && Lookup(rows, x.key).Some? {
      NoneMissingPermutes(Targets(Lookup(rows, x.key).value.refs), x.refs, y.refs);
    }
  }

  lemma DesiredConflictMoves(s: Snapshot, d: seq<Entry>, e: seq<Entry>, version: string, c: Conflict)
    requires SameDesired(d, e) && Conflicting(s, d, version, c)
    ensures Conflicting(s, e, version, c)
  {
    DesiredKeysPermute(d, e);
    if c.DuplicateIdentity? {
      OncePermutes(EntryKeys(d), EntryKeys(e), c.who);
    }
    if x :| x in d && Malformed(x.key, x.refs, EntryKeys(d), c) {
      var y := EntryMoves(d, e, x);
      TidiedMeans(x, y);
      MalformedPermutes(x.key, x.refs, y.refs, EntryKeys(d), EntryKeys(e), c);
    } else if x :| x in d && MergeConflict(s.rows, x, c) {
      var y := EntryMoves(d, e, x);
      EntryConflictsAlike(s.rows, x, y, c);
    }
  }

  function PlannedIn(rows: seq<Row>): Key -> PlannedRef {
    (t: Key) => Vocabulary.Planned(rows, t)
  }

  lemma PlannedPermutes(rows: seq<Row>, x: seq<Key>, y: seq<Key>)
    requires multiset(x) == multiset(y)
    ensures Sort(PlannedRefs(rows, x), PlannedRank) == Sort(PlannedRefs(rows, y), PlannedRank)
  {
    assert PlannedRefs(rows, x) == Mapped(x, PlannedIn(rows)) && PlannedRefs(rows, y) == Mapped(y, PlannedIn(rows));
    BagMapped(x, y, PlannedIn(rows));
    PlannedFaithful();
    SortForgetsOrder(PlannedRefs(rows, x), PlannedRefs(rows, y), PlannedRank);
  }

  lemma {:induction false} MissingCount(stored: seq<Key>, desired: seq<Key>, t: Key)
    ensures multiset(MissingTargets(stored, desired))[t] == if t in stored then 0 else multiset(desired)[t]
  {
    if desired != [] {
      LastApart(desired);
      MissingCount(stored, desired[..|desired| - 1], t);
    }
  }

  lemma MissingPermutes(stored: seq<Key>, x: seq<Key>, y: seq<Key>)
    requires multiset(x) == multiset(y)
    ensures multiset(MissingTargets(stored, x)) == multiset(MissingTargets(stored, y))
  {
    forall t
      ensures multiset(MissingTargets(stored, x))[t] == multiset(MissingTargets(stored, y))[t]
    {
      MissingCount(stored, x, t);
      MissingCount(stored, y, t);
    }
  }

  lemma AdditionAlike(rows: seq<Row>, x: Entry, y: Entry)
    requires TidiedEntry(x) == TidiedEntry(y)
    ensures ArrangedIf(AdditionFor(rows, x)) == ArrangedIf(AdditionFor(rows, y))
  {
    TidiedMeans(x, y);
    if !Twice(Keys(rows), x.key) {
      if Lookup(rows, x.key).None? {
        PlannedPermutes(rows, x.refs, y.refs);
      } else {
        var stored := Targets(Lookup(rows, x.key).value.refs);
        MissingPermutes(stored, x.refs, y.refs);
        NoneMissingPermutes(stored, x.refs, y.refs);
        PlannedPermutes(rows, MissingTargets(stored, x.refs), MissingTargets(stored, y.refs));
      }
    }
  }

  lemma {:induction false} AdditionsAlike(rows: seq<Row>, d: seq<Entry>, e: seq<Entry>)
    requires Mapped(d, TidiedEntry) == Mapped(e, TidiedEntry)
    ensures ReportedAdditions(rows, d) == ReportedAdditions(rows, e)
  {
    assert |d| == |Mapped(d, TidiedEntry)| == |e|;
    if d != [] {
      MappedTail(d, TidiedEntry);
      MappedTail(e, TidiedEntry);
      AdditionsAlike(rows, d[1..], e[1..]);
      AdditionAlike(rows, d[0], e[0]);
      AdditionsStep(rows, d);
      AdditionsStep(rows, e);
    }
  }

  function Needed(rows: seq<Row>): Entry -> Option<Addition> {
    (e: Entry) => ArrangedIf(AdditionFor(rows, e))
  }

  function Somes(s: seq<Option<Addition>>): seq<Addition> {
    if s == [] then [] else if s[0].None? then Somes(s[1..]) else [s[0].value] + Somes(s[1..])
  }

  lemma {:induction false} SomesCount(s: seq<Option<Addition>>, a: Addition)
    ensures multiset(Somes(s))[a] == multiset(s)[Some(a)]
  {
    if s != [] {
      SomesCount(s[1..], a);
      assert s == [s[0]] + s[1..];
      CountCons(s[0], s[1..], Some(a));
      if s[0].Some? {
        CountCons(s[0].value, Somes(s[1..]), a);
      }
    }
  }

  lemma {:induction false} AdditionsAreSomes(rows: seq<Row>, d: seq<Entry>)
    ensures ReportedAdditions(rows, d) == Somes(Mapped(d, Needed(rows)))
  {
    if d != [] {
      AdditionsStep(rows, d);
      MappedTail(d, Needed(rows));
      AdditionsAreSomes(rows, d[1..]);
    }
  }

  /** No addition is gained, lost or altered, whatever order the desired rows come in. */
  lemma AdditionsMove(rows: seq<Row>, d: seq<Entry>, e: seq<Entry>)
    requires SameDesired(d, e)
    ensures multiset(ReportedAdditions(rows, d)) == multiset(ReportedAdditions(rows, e))
  {
    forall x: Entry, y: Entry | TidiedEntry(x) == TidiedEntry(y)
      ensures Needed(rows)(x) == Needed(rows)(y)
    {
      AdditionAlike(rows, x, y);
    }
    MappedMoves(d, e, TidiedEntry, Needed(rows));
    AdditionsAreSomes(rows, d);
    AdditionsAreSomes(rows, e);
    forall a
      ensures multiset(ReportedAdditions(rows, d))[a] == multiset(ReportedAdditions(rows, e))[a]
    {
      SomesCount(Mapped(d, Needed(rows)), a);
      SomesCount(Mapped(e, Needed(rows)), a);
    }
  }

  // ----- Sorting the same rows -----

  /** Rows without a shared key are ordered by key alone, so tidying their references keeps them in order. */
  lemma TidiedOrdered(s: seq<Entry>)
    requires Ordered(s, EntryRank) && DistinctKeys(EntryKeys(s))
    ensures Ordered(Mapped(s, TidiedEntry), EntryRank)
  {
    var r := Mapped(s, TidiedEntry);
    forall i, j | 0 <= i < j < |r|
      ensures !Precedes(EntryRank(r[j]), EntryRank(r[i]))
    {
      assert EntryKeys(s)[i] != EntryKeys(s)[j];
      IdentityInjective(s[i].key, s[j].key);
    }
  }

  lemma SortedAlike(d: seq<Entry>, e: seq<Entry>)
    requires SameDesired(d, e) && DistinctKeys(EntryKeys(d))
    ensures Mapped(Sort(d, EntryRank), TidiedEntry) == Mapped(Sort(e, EntryRank), TidiedEntry)
  {
    var x, y := Sort(d, EntryRank), Sort(e, EntryRank);
    DesiredKeysPermute(d, e);
    DistinctPermutes(EntryKeys(d), EntryKeys(e));
    SortedApart(d);
    SortedApart(e);
    EntriesFaithful();
    OrderedUnique(Mapped(x, TidiedEntry), Mapped(y, TidiedEntry), EntryRank);
  }

  lemma SortedApart(d: seq<Entry>)
    requires DistinctKeys(EntryKeys(d))
    ensures Ordered(Mapped(Sort(d, EntryRank), TidiedEntry), EntryRank)
    ensures RowBag(Sort(d, EntryRank), TidiedEntry) == RowBag(d, TidiedEntry)
  {
    var x := Sort(d, EntryRank);
    SortPermutes(d, EntryRank);
    SortOrdered(d, EntryRank);
    EntryKeysPermute(d, x);
    DistinctPermutes(EntryKeys(d), EntryKeys(x));
    TidiedOrdered(x);
    BagMapped(x, d, TidiedEntry);
  }

  // ----- Main results -----

  lemma GroupsRespected()
    ensures Respects(BagGroup, TidiedEntry)
  {
    forall d: Definition, e: Definition, g, h | d.code == e.code && BagGroup(g) == BagGroup(h)
      ensures TidiedEntry(GroupRow(d, g)) == TidiedEntry(GroupRow(e, h))
    {
      GroupRowAlike(d, e, g, h);
    }
  }

  lemma GroupRowAlike(d: Definition, e: Definition, g: Group, h: Group)
    requires d.code == e.code && BagGroup(g) == BagGroup(h)
    ensures TidiedEntry(GroupRow(d, g)) == TidiedEntry(GroupRow(e, h))
  {
    var member := (c: string) => OptionKey(d.code, c);
    assert Members(d, g) == Mapped(g.optionCodes, member) && Members(e, h) == Mapped(h.optionCodes, member);
    BagMapped(g.optionCodes, h.optionCodes, member);
    TargetsFaithful();
    SortForgetsOrder(GroupRow(d, g).refs, GroupRow(e, h).refs, TargetRank);
  }

  /** Rearranging any list of the manifest but the members of a group gives the same desired rows, row for row. */
  lemma DesiredRowsForgetOrder(a: Manifest, b: Manifest)
    requires Rearranged(a, b, Same<Group>)
    ensures DesiredRows(a) == DesiredRows(b)
  {
    CollectedMove(a, b, Same<Group>, Same<Entry>);
    assert Mapped(CollectedRows(a), Same<Entry>) == CollectedRows(a) && Mapped(CollectedRows(b), Same<Entry>) == CollectedRows(b);
    EntriesFaithful();
    SortForgetsOrder(CollectedRows(a), CollectedRows(b), EntryRank);
  }

  lemma RearrangedDesired(a: Manifest, b: Manifest)
    requires Rearranged(a, b, BagGroup)
    ensures SameDesired(CollectedRows(a), CollectedRows(b)) && SameDesired(DesiredRows(a), DesiredRows(b))
  {
    GroupsRespected();
    CollectedMove(a, b, BagGroup, TidiedEntry);
    SortPermutes(CollectedRows(a), EntryRank);
    SortPermutes(CollectedRows(b), EntryRank);
    BagMapped(DesiredRows(a), CollectedRows(a), TidiedEntry);
    BagMapped(DesiredRows(b), CollectedRows(b), TidiedEntry);
  }

  lemma RearrangedConflicts(a: Manifest, b: Manifest, s: Snapshot, c: Conflict)
    requires Rearranged(a, b, BagGroup)
    ensures Conflicting(s, DesiredRows(a), a.version, c) <==> Conflicting(s, DesiredRows(b), b.version, c)
  {
    RearrangedDesired(a, b);
    if Conflicting(s, DesiredRows(a), a.version, c) {
      DesiredConflictMoves(s, DesiredRows(a), DesiredRows(b), a.version, c);
    } else if Conflicting(s, DesiredRows(b), b.version, c) {
      DesiredConflictMoves(s, DesiredRows(b), DesiredRows(a), b.version, c);
    }
  }

  /** Rearranging the manifest, group members included, changes no conflict, preservation or verdict, and gains, loses or
  alters no addition; when no two desired rows share a key, as in every applicable plan, the additions keep their places. */
  lemma ReportIgnoresManifestOrder(a: Manifest, b: Manifest, s: Snapshot, p: Plan, q: Plan)
    requires Rearranged(a, b, BagGroup)
    requires IsPlan(p, s, DesiredRows(a), a.version) && IsPlan(q, s, DesiredRows(b), b.version)
    ensures p.(additions := []) == q.(additions := []) && multiset(p.additions) == multiset(q.additions)
    ensures DistinctKeys(EntryKeys(DesiredRows(a))) ==> p == q
    ensures p.applicable ==> p == q
  {
    forall c
      ensures Conflicting(s, DesiredRows(a), a.version, c) <==> Conflicting(s, DesiredRows(b), b.version, c)
    {
      RearrangedConflicts(a, b, s, c);
    }
    SameListing(a, b, s, p.conflicts, q.conflicts);
    BlockedIffListed(p, s, DesiredRows(a), a.version);
    BlockedIffListed(q, s, DesiredRows(b), b.version);
    ApplicableMeans(s, DesiredRows(a), a.version);
    RearrangedDesired(a, b);
    AdditionsMove(s.rows, DesiredRows(a), DesiredRows(b));
    if DistinctKeys(EntryKeys(DesiredRows(a))) {
      SortPermutes(CollectedRows(a), EntryRank);
      EntryKeysPermute(DesiredRows(a), CollectedRows(a));
      DistinctPermutes(EntryKeys(DesiredRows(a)), EntryKeys(CollectedRows(a)));
      SortedAlike(CollectedRows(a), CollectedRows(b));
      AdditionsAlike(s.rows, DesiredRows(a), DesiredRows(b));
    }
  }

  lemma SameListing(a: Manifest, b: Manifest, s: Snapshot, p: seq<Finding>, q: seq<Finding>)
    requires Listing(p, s, DesiredRows(a), a.version) && Listing(q, s, DesiredRows(b), b.version)
    requires forall c :: Conflicting(s, DesiredRows(a), a.version, c) <==> Conflicting(s, DesiredRows(b), b.version, c)
    ensures p == q
  {
    forall f
      ensures f in p <==> f in q
    {
      FoundIn(a, b, s, f);
      FoundIn(b, a, s, f);
    }
    FindingsFaithful();
    StrictUnique(p, q, FindingRank);
  }

  lemma FoundIn(a: Manifest, b: Manifest, s: Snapshot, f: Finding)
    requires forall c :: Conflicting(s, DesiredRows(a), a.version, c) <==> Conflicting(s, DesiredRows(b), b.version, c)
    ensures Found(s, DesiredRows(a), a.version, f) ==> Found(s, DesiredRows(b), b.version, f)
  {
    if Found(s, DesiredRows(a), a.version, f) {
      var c :| Conflicting(s, DesiredRows(a), a.version, c) && FindingOf(c) == f;
      assert Conflicting(s, DesiredRows(b), b.version, c);
    }
  }
}
