/** The rows a manifest asks for: desiredRows in prisma/editorial-production-vocabulary-plan.ts.

A manifest nests bindings in families, and units, options, groups and aliases in definitions. The planner flattens it
into rows that refer to each other by key; the question is which manifests give rows without a conflict.
*/
module VocabularyManifest {
  import opened Common
  import opened Json
  import opened Permutations
  import opened Sorting
  import opened Vocabulary
  import opened VocabularyConvergence
  import opened VocabularyOrder
  import opened VocabularyRanks
  import opened VocabularyReport

  /** A coded child with the fields it carries: a binding (coded by its definition), a unit or an option. */
  datatype Coded = Coded(code: string, fields: Fields)

  datatype Family = Family(code: string, fields: Fields, bindings: seq<Coded>)

  datatype Group = Group(code: string, caption: string, optionCodes: seq<string>)

  datatype Alias = Alias(caption: string, optionCode: string)

  datatype Choices = Choices(options: seq<Coded>, groups: seq<Group>, aliases: seq<Alias>)

  /** Only choice definitions have options, only numeric ones units; `fields` holds label, type and numeric policy. */
  datatype Definition = Definition(code: string, fields: Fields, units: seq<Coded>, choices: Option<Choices>)

  datatype Manifest = Manifest(version: string, families: seq<Family>, definitions: seq<Definition>)

  // ----- The rows -----

  function FamilyKey(code: string): Key {
    Key(FamilyKind, "", code)
  }

  function DefinitionKey(code: string): Key {
    Key(DefinitionKind, "", code)
  }

  function OptionKey(scope: string, code: string): Key {
    Key(OptionKind, scope, code)
  }

  function Options(d: Definition): seq<Coded> {
    if d.choices.None? then [] else d.choices.value.options
  }

  function Groups(d: Definition): seq<Group> {
    if d.choices.None? then [] else d.choices.value.groups
  }

  function Aliases(d: Definition): seq<Alias> {
    if d.choices.None? then [] else d.choices.value.aliases
  }

  function BindingRow(f: Family, b: Coded): Entry {
    Entry(Key(BindingKind, f.code, b.code), b.fields, [FamilyKey(f.code), DefinitionKey(b.code)])
  }

  function UnitRow(d: Definition, u: Coded): Entry {
    Entry(Key(UnitKind, d.code, u.code), u.fields, [DefinitionKey(d.code)])
  }

  function OptionRow(d: Definition, o: Coded): Entry {
    Entry(OptionKey(d.code, o.code), o.fields, [DefinitionKey(d.code)])
  }

  function Members(d: Definition, g: Group): (r: seq<Key>)
    ensures |r| == |g.optionCodes| && forall i :: 0 <= i < |r| ==> r[i] == OptionKey(d.code, g.optionCodes[i])
  {
    seq(|g.optionCodes|, i requires 0 <= i < |g.optionCodes| => OptionKey(d.code, g.optionCodes[i]))
  }

  function GroupRow(d: Definition, g: Group): Entry {
    Entry(Key(GroupKind, d.code, g.code), map["label" := Text(g.caption)], [DefinitionKey(d.code)] + Members(d, g))
  }

  function AliasRow(d: Definition, a: Alias): Entry {
    Entry(Key(AliasKind, d.code, a.caption), map[], [DefinitionKey(d.code), OptionKey(d.code, a.optionCode)])
  }

  function BindingRows(f: Family): seq<Entry> {
    Mapped(f.bindings, b => BindingRow(f, b))
  }

  function UnitRows(d: Definition): seq<Entry> {
    Mapped(d.units, u => UnitRow(d, u))
  }

  function OptionRows(d: Definition): seq<Entry> {
    Mapped(Options(d), o => OptionRow(d, o))
  }

  function GroupRows(d: Definition): seq<Entry> {
    Mapped(Groups(d), g => GroupRow(d, g))
  }

  function AliasRows(d: Definition): seq<Entry> {
    Mapped(Aliases(d), a => AliasRow(d, a))
  }

  function FamilyRows(f: Family): seq<Entry> {
    [Entry(FamilyKey(f.code), f.fields, [])] + BindingRows(f)
  }

  function ChildRows(d: Definition): seq<Entry> {
    UnitRows(d) + OptionRows(d) + GroupRows(d) + AliasRows(d)
  }

  function DefinitionRows(d: Definition): seq<Entry> {
    [Entry(DefinitionKey(d.code), d.fields, [])] + ChildRows(d)
  }

  function Flattened<A(!new)>(s: seq<A>, rows: A -> seq<Entry>): seq<Entry> {
    if s == [] then [] else Flattened(s[..|s| - 1], rows) + rows(s[|s| - 1])
  }

  function CollectedRows(m: Manifest): seq<Entry> {
    Flattened(m.families, FamilyRows) + Flattened(m.definitions, DefinitionRows)
  }

  /** The desired rows: everything the manifest asks for, in the planner's order. */
  function DesiredRows(m: Manifest): seq<Entry> {
    Sort(CollectedRows(m), EntryRank)
  }

  // ----- Collecting them loop by loop -----

  method CollectBindings(f: Family) returns (rows: seq<Entry>)
    ensures rows == BindingRows(f)
  {
    rows := [];
    for k := 0 to |f.bindings|
      invariant |rows| == k && forall i :: 0 <= i < k ==> rows[i] == BindingRow(f, f.bindings[i])
    {
      rows := rows + [BindingRow(f, f.bindings[k])];
    }
  }

  method CollectUnits(d: Definition) returns (rows: seq<Entry>)
    ensures rows == UnitRows(d)
  {
    rows := [];
    for k := 0 to |d.units|
      invariant |rows| == k && forall i :: 0 <= i < k ==> rows[i] == UnitRow(d, d.units[i])
    {
      rows := rows + [UnitRow(d, d.units[k])];
    }
  }

  method CollectOptions(d: Definition) returns (rows: seq<Entry>)
    ensures rows == OptionRows(d)
  {
    rows := [];
    for k := 0 to |Options(d)|
      invariant |rows| == k && forall i :: 0 <= i < k ==> rows[i] == OptionRow(d, Options(d)[i])
    {
      rows := rows + [OptionRow(d, Options(d)[k])];
    }
  }

  method CollectGroups(d: Definition) returns (rows: seq<Entry>)
    ensures rows == GroupRows(d)
  {
    rows := [];
    for k := 0 to |Groups(d)|
      invariant |rows| == k && forall i :: 0 <= i < k ==> rows[i] == GroupRow(d, Groups(d)[i])
    {
      rows := rows + [GroupRow(d, Groups(d)[k])];
    }
  }

  method CollectAliases(d: Definition) returns (rows: seq<Entry>)
    ensures rows == AliasRows(d)
  {
    rows := [];
    for k := 0 to |Aliases(d)|
      invariant |rows| == k && forall i :: 0 <= i < k ==> rows[i] == AliasRow(d, Aliases(d)[i])
    {
      rows := rows + [AliasRow(d, Aliases(d)[k])];
    }
  }

  method CollectFamilies(families: seq<Family>) returns (rows: seq<Entry>)
    ensures rows == Flattened(families, FamilyRows)
  {
    rows := [];
    for n := 0 to |families|
      invariant rows == Flattened(families[..n], FamilyRows)
    {
      var f := families[n];
      var bindings := CollectBindings(f);
      rows := rows + ([Entry(FamilyKey(f.code), f.fields, [])] + bindings);
      FlattenedNext(families, FamilyRows, n);
    }
    assert families[..|families|] == families;
  }

  method CollectDefinitions(definitions: seq<Definition>) returns (rows: seq<Entry>)
    ensures rows == Flattened(definitions, DefinitionRows)
  {
    rows := [];
    for n := 0 to |definitions|
      invariant rows == Flattened(definitions[..n], DefinitionRows)
    {
      var d := definitions[n];
      var children := CollectUnits(d);
      if d.choices.Some? {
        var options := CollectOptions(d);
        var groups := CollectGroups(d);
        var aliases := CollectAliases(d);
        children := children + options + groups + aliases;
      }
      assert children == ChildRows(d);
      rows := rows + ([Entry(DefinitionKey(d.code), d.fields, [])] + children);
      FlattenedNext(definitions, DefinitionRows, n);
    }
    assert definitions[..|definitions|] == definitions;
  }

  lemma FlattenedNext<A(!new)>(s: seq<A>, rows: A -> seq<Entry>, n: nat)
    requires n < |s|
    ensures Flattened(s[..n + 1], rows) == Flattened(s[..n], rows) + rows(s[n])
  {
    assert s[..n + 1][..n] == s[..n];
  }

  method CollectRows(m: Manifest) returns (rows: seq<Entry>)
    ensures rows == DesiredRows(m)
    ensures multiset(rows) == multiset(CollectedRows(m)) && Ordered(rows, EntryRank)
  {
    rows := CollectFamilies(m.families);
    var more := CollectDefinitions(m.definitions);
    rows := Sort(rows + more, EntryRank);
    SortPermutes(CollectedRows(m), EntryRank);
    SortOrdered(CollectedRows(m), EntryRank);
  }

  // ----- Coherent manifests -----

  ghost predicate Apart(codes: seq<string>) {
    forall i, j :: 0 <= i < j < |codes| ==> codes[i] != codes[j]
  }

  function CodeOf(c: Coded): string { c.code }
  function GroupCode(g: Group): string { g.code }
  function CaptionOf(a: Alias): string { a.caption }
  function FamilyCode(f: Family): string { f.code }
  function DefinitionCode(d: Definition): string { d.code }

  function OptionCodes(d: Definition): seq<string> {
    Mapped(Options(d), CodeOf)
  }

  ghost predicate ChildrenApart(d: Definition) {
    && Apart(Mapped(d.units, CodeOf)) && Apart(OptionCodes(d))
    && Apart(Mapped(Groups(d), GroupCode)) && Apart(Mapped(Aliases(d), CaptionOf))
  }

  /** Bindings sit under a code and name definitions that exist. */
  ghost predicate BoundFamily(m: Manifest, f: Family) {
    forall b :: b in f.bindings ==> f.code != "" && b.code in Mapped(m.definitions, DefinitionCode)
  }

  /** Children sit under a code, group members and alias targets are options of the same definition. */
  ghost predicate LinkedDefinition(d: Definition) {
    && (d.code == "" ==> d.units == [] && Options(d) == [] && Groups(d) == [] && Aliases(d) == [])
    && (forall g :: g in Groups(d) ==> Apart(g.optionCodes) && forall c :: c in g.optionCodes ==> c in OptionCodes(d))
    && (forall a :: a in Aliases(d) ==> a.optionCode in OptionCodes(d))
  }

  /** Codes unique where they live, children under a code, bindings to definitions and members to options that exist. */
  ghost predicate Coherent(m: Manifest) {
    && Apart(Mapped(m.families, FamilyCode)) && Apart(Mapped(m.definitions, DefinitionCode))
    && (forall f :: f in m.families ==> Apart(Mapped(f.bindings, CodeOf)) && BoundFamily(m, f))
    && (forall d :: d in m.definitions ==> ChildrenApart(d) && LinkedDefinition(d))
  }

  // ----- Distinct keys -----

  lemma KeysAppend(a: seq<Entry>, b: seq<Entry>)
    ensures EntryKeys(a + b) == EntryKeys(a) + EntryKeys(b)
  {
  }

  lemma DistinctConcat(a: seq<Key>, b: seq<Key>)
    ensures DistinctKeys(a + b) <==> DistinctKeys(a) && DistinctKeys(b) && forall k :: k in a ==> k !in b
  {
    var c := a + b;
    if DistinctKeys(c) {
      forall i, j | 0 <= i < j < |a|
        ensures a[i] != a[j]
      {
        assert c[i] == a[i] && c[j] == a[j];
      }
      forall i, j | 0 <= i < j < |b|
        ensures b[i] != b[j]
      {
        assert c[|a| + i] == b[i] && c[|a| + j] == b[j];
      }
      forall i, j | 0 <= i < |a| && 0 <= j < |b|
        ensures a[i] != b[j]
      {
        assert c[i] == a[i] && c[|a| + j] == b[j];
      }
    } else {
      var i, j :| 0 <= i < j < |c| && c[i] == c[j];
      assert i < |a| ==> c[i] in a;
      assert |a| <= j ==> c[j] in b;
    }
  }

  /** The keys are those of one kind under one scope with these codes. */
  ghost predicate KeysOf(keys: seq<Key>, kind: Kind, scope: string, codes: seq<string>) {
    forall k :: k in keys <==> k.kind == kind && k.scope == scope && k.code in codes
  }

  lemma CodedDistinct(entries: seq<Entry>, kind: Kind, scope: string, codes: seq<string>)
    requires |entries| == |codes| && forall i :: 0 <= i < |codes| ==> entries[i].key == Key(kind, scope, codes[i])
    ensures DistinctKeys(EntryKeys(entries)) <==> Apart(codes)
    ensures KeysOf(EntryKeys(entries), kind, scope, codes) && OfKinds(EntryKeys(entries), {kind})
  {
    forall k
      ensures k in EntryKeys(entries) <==> k.kind == kind && k.scope == scope && k.code in codes
    {
      if k.kind == kind && k.scope == scope && k.code in codes {
        var i :| 0 <= i < |codes| && codes[i] == k.code;
        assert EntryKeys(entries)[i] == k;
      }
    }
  }

  ghost predicate OfKinds(keys: seq<Key>, kinds: set<Kind>) {
    forall k :: k in keys ==> k.kind in kinds
  }

  /** Rows of different kinds never share a key. */
  lemma DistinctByKind(a: seq<Key>, b: seq<Key>, kinds: set<Kind>, others: set<Kind>)
    requires OfKinds(a, kinds) && OfKinds(b, others) && kinds !! others
    ensures DistinctKeys(a + b) <==> DistinctKeys(a) && DistinctKeys(b)
    ensures OfKinds(a + b, kinds + others)
  {
    DistinctConcat(a, b);
  }

  /** The code of the family or definition a row sits under. */
  function Owner(k: Key): string {
    if k.kind == FamilyKind || k.kind == DefinitionKind then k.code else k.scope
  }

  /** Every row of a block sits under the block's code, and its head is there. */
  ghost predicate Owned<A(!new)>(rows: A -> seq<Entry>, code: A -> string, kind: Kind) {
    forall a ::
      && Key(kind, "", code(a)) in EntryKeys(rows(a))
      && forall k :: k in EntryKeys(rows(a)) ==> Owner(k) == code(a)
  }

  lemma {:induction false} FlattenedKeys<A(!new)>(s: seq<A>, rows: A -> seq<Entry>, k: Key)
    ensures k in EntryKeys(Flattened(s, rows)) <==> exists a :: a in s && k in EntryKeys(rows(a))
  {
    if s != [] {
      var n := |s| - 1;
      FlattenedKeys(s[..n], rows, k);
      KeysAppend(Flattened(s[..n], rows), rows(s[n]));
      assert s == s[..n] + [s[n]];
    }
  }

  lemma {:induction false} FlattenedDistinct<A(!new)>(s: seq<A>, rows: A -> seq<Entry>, code: A -> string, kind: Kind)
    requires Owned(rows, code, kind) && (kind == FamilyKind || kind == DefinitionKind)
    ensures DistinctKeys(EntryKeys(Flattened(s, rows))) <==>
            Apart(Mapped(s, code)) && forall a :: a in s ==> DistinctKeys(EntryKeys(rows(a)))
  {
    if s != [] {
      var n := |s| - 1;
      var before, last := s[..n], s[n];
      FlattenedDistinct(before, rows, code, kind);
      KeysAppend(Flattened(before, rows), rows(last));
      DistinctConcat(EntryKeys(Flattened(before, rows)), EntryKeys(rows(last)));
      BlocksMeet(before, last, rows, code, kind);
      CodesSnoc(before, last, code);
      assert s == before + [last];
    }
  }

  lemma CodesSnoc<A>(before: seq<A>, last: A, code: A -> string)
    ensures Apart(Mapped(before + [last], code)) <==> Apart(Mapped(before, code)) && code(last) !in Mapped(before, code)
  {
    assert Mapped(before + [last], code) == Mapped(before, code) + [code(last)];
    ApartSnoc(Mapped(before, code), code(last));
  }

  lemma ApartSnoc(codes: seq<string>, c: string)
    ensures Apart(codes + [c]) <==> Apart(codes) && c !in codes
  {
    var all := codes + [c];
    if Apart(all) {
      forall i | 0 <= i < |codes|
        ensures codes[i] != c
      {
        assert all[i] == codes[i] && all[|codes|] == c;
      }
      forall i, j | 0 <= i < j < |codes|
        ensures codes[i] != codes[j]
      {
        assert all[i] == codes[i] && all[j] == codes[j];
      }
    }
  }

  /** Two blocks share a key exactly when they share their code. */
  lemma BlocksMeet<A(!new)>(before: seq<A>, last: A, rows: A -> seq<Entry>, code: A -> string, kind: Kind)
    requires Owned(rows, code, kind) && (kind == FamilyKind || kind == DefinitionKind)
    ensures (forall k :: k in EntryKeys(Flattened(before, rows)) ==> k !in EntryKeys(rows(last))) <==>
            code(last) !in Mapped(before, code)
  {
    var head := Key(kind, "", code(last));
    if code(last) in Mapped(before, code) {
      var i :| 0 <= i < |before| && code(before[i]) == code(last);
      assert Key(kind, "", code(before[i])) in EntryKeys(rows(before[i]));
      FlattenedKeys(before, rows, head);
    } else {
      forall k | k in EntryKeys(Flattened(before, rows))
        ensures k !in EntryKeys(rows(last))
      {
        FlattenedKeys(before, rows, k);
        var a :| a in before && k in EntryKeys(rows(a));
        var i :| 0 <= i < |before| && before[i] == a;
        assert Owner(k) == code(a) && Mapped(before, code)[i] == code(a);
      }
    }
  }

  const FAMILY_KINDS := {FamilyKind, BindingKind}

  const DEFINITION_KINDS := {DefinitionKind, UnitKind, OptionKind, GroupKind, AliasKind}

  lemma FamilyBlock(f: Family)
    ensures DistinctKeys(EntryKeys(FamilyRows(f))) <==> Apart(Mapped(f.bindings, CodeOf))
    ensures OfKinds(EntryKeys(FamilyRows(f)), FAMILY_KINDS) && FamilyKey(f.code) in EntryKeys(FamilyRows(f))
    ensures forall k :: k in EntryKeys(FamilyRows(f)) ==> Owner(k) == FamilyCode(f)
  {
    var head := [Entry(FamilyKey(f.code), f.fields, [])];
    KeysAppend(head, BindingRows(f));
    assert EntryKeys(head) == [FamilyKey(f.code)];
    CodedDistinct(BindingRows(f), BindingKind, f.code, Mapped(f.bindings, CodeOf));
    DistinctByKind(EntryKeys(head), EntryKeys(BindingRows(f)), {FamilyKind}, {BindingKind});
    assert EntryKeys(FamilyRows(f))[0] == FamilyKey(f.code);
  }

  lemma DefinitionKeys(d: Definition)
    ensures EntryKeys(DefinitionRows(d)) ==
            [DefinitionKey(d.code)] +
            (EntryKeys(UnitRows(d)) + EntryKeys(OptionRows(d)) + EntryKeys(GroupRows(d)) + EntryKeys(AliasRows(d)))
  {
    KeysAppend([Entry(DefinitionKey(d.code), d.fields, [])], ChildRows(d));
    KeysAppend(UnitRows(d) + OptionRows(d) + GroupRows(d), AliasRows(d));
    KeysAppend(UnitRows(d) + OptionRows(d), GroupRows(d));
    KeysAppend(UnitRows(d), OptionRows(d));
  }

  /** One key among the children of a definition, kind by kind. */
  lemma ChildKeys(d: Definition, k: Key)
    ensures k in EntryKeys(UnitRows(d)) <==> k.kind == UnitKind && k.scope == d.code && k.code in Mapped(d.units, CodeOf)
    ensures k in EntryKeys(OptionRows(d)) <==> k.kind == OptionKind && k.scope == d.code && k.code in OptionCodes(d)
    ensures k in EntryKeys(GroupRows(d)) <==> k.kind == GroupKind && k.scope == d.code && k.code in Mapped(Groups(d), GroupCode)
    ensures k in EntryKeys(AliasRows(d)) <==> k.kind == AliasKind && k.scope == d.code && k.code in Mapped(Aliases(d), CaptionOf)
  {
    CodedDistinct(UnitRows(d), UnitKind, d.code, Mapped(d.units, CodeOf));
    CodedDistinct(OptionRows(d), OptionKind, d.code, OptionCodes(d));
    CodedDistinct(GroupRows(d), GroupKind, d.code, Mapped(Groups(d), GroupCode));
    CodedDistinct(AliasRows(d), AliasKind, d.code, Mapped(Aliases(d), CaptionOf));
  }

  lemma DefinitionChildren(d: Definition)
    ensures OfKinds(EntryKeys(UnitRows(d)), {UnitKind}) && OfKinds(EntryKeys(OptionRows(d)), {OptionKind})
    ensures OfKinds(EntryKeys(GroupRows(d)), {GroupKind}) && OfKinds(EntryKeys(AliasRows(d)), {AliasKind})
    ensures DistinctKeys(EntryKeys(UnitRows(d))) <==> Apart(Mapped(d.units, CodeOf))
    ensures DistinctKeys(EntryKeys(OptionRows(d))) <==> Apart(OptionCodes(d))
    ensures DistinctKeys(EntryKeys(GroupRows(d))) <==> Apart(Mapped(Groups(d), GroupCode))
    ensures DistinctKeys(EntryKeys(AliasRows(d))) <==> Apart(Mapped(Aliases(d), CaptionOf))
  {
    CodedDistinct(UnitRows(d), UnitKind, d.code, Mapped(d.units, CodeOf));
    CodedDistinct(OptionRows(d), OptionKind, d.code, OptionCodes(d));
    CodedDistinct(GroupRows(d), GroupKind, d.code, Mapped(Groups(d), GroupCode));
    CodedDistinct(AliasRows(d), AliasKind, d.code, Mapped(Aliases(d), CaptionOf));
  }

  /** Which keys a definition's rows have. */
  predicate Under(d: Definition, k: Key) {
    match k.kind
    case DefinitionKind => k == DefinitionKey(d.code)
    case UnitKind => k.scope == d.code && k.code in Mapped(d.units, CodeOf)
    case OptionKind => k.scope == d.code && k.code in OptionCodes(d)
    case GroupKind => k.scope == d.code && k.code in Mapped(Groups(d), GroupCode)
    case AliasKind => k.scope == d.code && k.code in Mapped(Aliases(d), CaptionOf)
    case _ => false
  }

  lemma InFiveParts(k: Key, h: seq<Key>, u: seq<Key>, o: seq<Key>, g: seq<Key>, a: seq<Key>)
    ensures k in h + (u + o + g + a) <==> k in h || k in u || k in o || k in g || k in a
  {
  }

  lemma DefinitionMember(d: Definition, k: Key)
    ensures k in EntryKeys(DefinitionRows(d)) <==> Under(d, k)
  {
    DefinitionKeys(d);
    var u, o := EntryKeys(UnitRows(d)), EntryKeys(OptionRows(d));
    var g, a := EntryKeys(GroupRows(d)), EntryKeys(AliasRows(d));
    InFiveParts(k, [DefinitionKey(d.code)], u, o, g, a);
    DefinitionChild(d, k);
  }

  lemma DefinitionChild(d: Definition, k: Key)
    ensures Under(d, k) <==>
            k in [DefinitionKey(d.code)] || k in EntryKeys(UnitRows(d)) || k in EntryKeys(OptionRows(d))
            || k in EntryKeys(GroupRows(d)) || k in EntryKeys(AliasRows(d))
  {
    ChildKeys(d, k);
  }

  lemma FivePartsDistinct(h: seq<Key>, u: seq<Key>, o: seq<Key>, g: seq<Key>, a: seq<Key>)
    requires OfKinds(h, {DefinitionKind}) && OfKinds(u, {UnitKind}) && OfKinds(o, {OptionKind})
    requires OfKinds(g, {GroupKind}) && OfKinds(a, {AliasKind})
    ensures DistinctKeys(h + (u + o + g + a)) <==>
            DistinctKeys(h) && DistinctKeys(u) && DistinctKeys(o) && DistinctKeys(g) && DistinctKeys(a)
    ensures OfKinds(h + (u + o + g + a), DEFINITION_KINDS)
  {
    DistinctByKind(u, o, {UnitKind}, {OptionKind});
    DistinctByKind(u + o, g, {UnitKind} + {OptionKind}, {GroupKind});
    DistinctByKind(u + o + g, a, {UnitKind} + {OptionKind} + {GroupKind}, {AliasKind});
    DistinctByKind(h, u + o + g + a, {DefinitionKind}, {UnitKind} + {OptionKind} + {GroupKind} + {AliasKind});
    assert {DefinitionKind} + ({UnitKind} + {OptionKind} + {GroupKind} + {AliasKind}) == DEFINITION_KINDS;
  }

  lemma DefinitionDistinct(d: Definition)
    ensures DistinctKeys(EntryKeys(DefinitionRows(d))) <==>
            && Apart(Mapped(d.units, CodeOf)) && Apart(OptionCodes(d))
            && Apart(Mapped(Groups(d), GroupCode)) && Apart(Mapped(Aliases(d), CaptionOf))
    ensures OfKinds(EntryKeys(DefinitionRows(d)), DEFINITION_KINDS)
  {
    DefinitionKeys(d);
    DefinitionChildren(d);
    FivePartsDistinct([DefinitionKey(d.code)], EntryKeys(UnitRows(d)), EntryKeys(OptionRows(d)), EntryKeys(GroupRows(d)),
                      EntryKeys(AliasRows(d)));
  }

  lemma FamilyBlocks()
    ensures Owned(FamilyRows, FamilyCode, FamilyKind)
  {
    forall f: Family
      ensures Key(FamilyKind, "", FamilyCode(f)) in EntryKeys(FamilyRows(f))
      ensures forall k :: k in EntryKeys(FamilyRows(f)) ==> Owner(k) == FamilyCode(f)
    {
      FamilyBlock(f);
    }
  }

  lemma DefinitionBlocks()
    ensures Owned(DefinitionRows, DefinitionCode, DefinitionKind)
  {
    forall d: Definition
      ensures Key(DefinitionKind, "", DefinitionCode(d)) in EntryKeys(DefinitionRows(d))
      ensures forall k :: k in EntryKeys(DefinitionRows(d)) ==> Owner(k) == DefinitionCode(d)
    {
      DefinitionMember(d, DefinitionKey(d.code));
      forall k | k in EntryKeys(DefinitionRows(d))
        ensures Owner(k) == d.code
      {
        DefinitionMember(d, k);
      }
    }
  }

  lemma FlattenedKinds<A(!new)>(s: seq<A>, rows: A -> seq<Entry>, kinds: set<Kind>)
    requires forall a :: OfKinds(EntryKeys(rows(a)), kinds)
    ensures OfKinds(EntryKeys(Flattened(s, rows)), kinds)
  {
    forall k | k in EntryKeys(Flattened(s, rows))
      ensures k.kind in kinds
    {
      FlattenedKeys(s, rows, k);
      var a :| a in s && k in EntryKeys(rows(a));
      assert OfKinds(EntryKeys(rows(a)), kinds);
    }
  }

  lemma SidesApart(m: Manifest)
    ensures OfKinds(EntryKeys(Flattened(m.families, FamilyRows)), FAMILY_KINDS)
    ensures OfKinds(EntryKeys(Flattened(m.definitions, DefinitionRows)), DEFINITION_KINDS)
  {
    forall f: Family
      ensures OfKinds(EntryKeys(FamilyRows(f)), FAMILY_KINDS)
    {
      FamilyBlock(f);
    }
    forall d: Definition
      ensures OfKinds(EntryKeys(DefinitionRows(d)), DEFINITION_KINDS)
    {
      DefinitionDistinct(d);
    }
    FlattenedKinds(m.families, FamilyRows, FAMILY_KINDS);
    FlattenedKinds(m.definitions, DefinitionRows, DEFINITION_KINDS);
  }

  lemma CollectedKeys(m: Manifest)
    ensures EntryKeys(CollectedRows(m)) ==
            EntryKeys(Flattened(m.families, FamilyRows)) + EntryKeys(Flattened(m.definitions, DefinitionRows))
  {
    KeysAppend(Flattened(m.families, FamilyRows), Flattened(m.definitions, DefinitionRows));
  }

  lemma FamiliesDistinct(m: Manifest)
    ensures DistinctKeys(EntryKeys(Flattened(m.families, FamilyRows))) <==>
            Apart(Mapped(m.families, FamilyCode)) && forall f :: f in m.families ==> Apart(Mapped(f.bindings, CodeOf))
  {
    FamilyBlocks();
    FlattenedDistinct(m.families, FamilyRows, FamilyCode, FamilyKind);
    forall f: Family
      ensures DistinctKeys(EntryKeys(FamilyRows(f))) <==> Apart(Mapped(f.bindings, CodeOf))
    {
      FamilyBlock(f);
    }
  }

  lemma DefinitionsDistinct(m: Manifest)
    ensures DistinctKeys(EntryKeys(Flattened(m.definitions, DefinitionRows))) <==>
            Apart(Mapped(m.definitions, DefinitionCode)) && forall d :: d in m.definitions ==> ChildrenApart(d)
  {
    DefinitionBlocks();
    FlattenedDistinct(m.definitions, DefinitionRows, DefinitionCode, DefinitionKind);
    forall d: Definition
      ensures DistinctKeys(EntryKeys(DefinitionRows(d))) <==> ChildrenApart(d)
    {
      DefinitionDistinct(d);
    }
  }

  /** Keys are distinct exactly when codes are, level by level. */
  lemma CollectedDistinct(m: Manifest)
    ensures DistinctKeys(EntryKeys(CollectedRows(m))) <==>
            && Apart(Mapped(m.families, FamilyCode)) && Apart(Mapped(m.definitions, DefinitionCode))
            && (forall f :: f in m.families ==> Apart(Mapped(f.bindings, CodeOf)))
            && (forall d :: d in m.definitions ==> ChildrenApart(d))
  {
    FamiliesDistinct(m);
    DefinitionsDistinct(m);
    CollectedKeys(m);
    SidesApart(m);
    DistinctByKind(EntryKeys(Flattened(m.families, FamilyRows)), EntryKeys(Flattened(m.definitions, DefinitionRows)),
                   FAMILY_KINDS, DEFINITION_KINDS);
  }

  // ----- Which keys there are -----

  lemma FamilyKeyThere(m: Manifest, f: Family)
    requires f in m.families
    ensures FamilyKey(f.code) in EntryKeys(CollectedRows(m))
  {
    FamilyBlock(f);
    FlattenedKeys(m.families, FamilyRows, FamilyKey(f.code));
    CollectedKeys(m);
  }

  lemma InSecondPart(k: Key, a: seq<Key>, b: seq<Key>, kinds: set<Kind>)
    requires OfKinds(a, kinds) && k.kind !in kinds
    ensures k in a + b <==> k in b
  {
  }

  /** A key that is neither a family's nor a binding's comes from the definition it sits under. */
  lemma DefinitionSide(m: Manifest, k: Key)
    requires k.kind in DEFINITION_KINDS
    ensures k in EntryKeys(CollectedRows(m)) <==> exists d :: d in m.definitions && Under(d, k)
  {
    CollectedKeys(m);
    SidesApart(m);
    InSecondPart(k, EntryKeys(Flattened(m.families, FamilyRows)), EntryKeys(Flattened(m.definitions, DefinitionRows)), FAMILY_KINDS);
    DefinitionOwner(m, k);
  }

  lemma DefinitionOwner(m: Manifest, k: Key)
    ensures k in EntryKeys(Flattened(m.definitions, DefinitionRows)) <==> exists d :: d in m.definitions && Under(d, k)
  {
    FlattenedKeys(m.definitions, DefinitionRows, k);
    forall d: Definition
      ensures k in EntryKeys(DefinitionRows(d)) <==> Under(d, k)
    {
      DefinitionMember(d, k);
    }
  }

  lemma DefinitionKeyThere(m: Manifest, code: string)
    ensures DefinitionKey(code) in EntryKeys(CollectedRows(m)) <==> code in Mapped(m.definitions, DefinitionCode)
  {
    DefinitionSide(m, DefinitionKey(code));
    if code in Mapped(m.definitions, DefinitionCode) {
      var i :| 0 <= i < |m.definitions| && Mapped(m.definitions, DefinitionCode)[i] == code;
      assert m.definitions[i] in m.definitions && Under(m.definitions[i], DefinitionKey(code));
    }
    if d :| d in m.definitions && Under(d, DefinitionKey(code)) {
      var i :| 0 <= i < |m.definitions| && m.definitions[i] == d;
      assert Mapped(m.definitions, DefinitionCode)[i] == code;
    }
  }

  lemma OptionKeyThere(m: Manifest, d: Definition, code: string)
    requires d in m.definitions && Apart(Mapped(m.definitions, DefinitionCode))
    ensures OptionKey(d.code, code) in EntryKeys(CollectedRows(m)) <==> code in OptionCodes(d)
  {
    var k := OptionKey(d.code, code);
    DefinitionSide(m, k);
    assert Under(d, k) <==> code in OptionCodes(d);
    forall x | x in m.definitions && Under(x, k)
      ensures x == d
    {
      SameCodeSameDefinition(m, x, d);
    }
  }

  lemma SameCodeSameDefinition(m: Manifest, x: Definition, d: Definition)
    requires x in m.definitions && d in m.definitions && Apart(Mapped(m.definitions, DefinitionCode))
    ensures x.code == d.code ==> x == d
  {
    var i :| 0 <= i < |m.definitions| && m.definitions[i] == x;
    var j :| 0 <= j < |m.definitions| && m.definitions[j] == d;
    var codes := Mapped(m.definitions, DefinitionCode);
    assert codes[i] == x.code && codes[j] == d.code;
  }

  // ----- Rows without a structural conflict -----

  /** What the planner asks of one row when keys are unique. */
  ghost predicate Fine(e: Entry, keys: seq<Key>) {
    && (Parents(e.key) == {} <==> e.key.scope == "")
    && DistinctKeys(e.refs)
    && (forall t :: t in e.refs ==> t in keys && AllowedRole(e.key, t))
    && (forall p :: p in Parents(e.key) ==> p in e.refs)
    && (e.key.kind == AliasKind ==> OptionCount(e.refs) == 1)
  }

  ghost predicate Clean(e: Entry, keys: seq<Key>) {
    forall c :: !Malformed(e.key, e.refs, keys, c)
  }

  lemma FineIsClean(e: Entry, keys: seq<Key>)
    requires DistinctKeys(keys) && Fine(e, keys)
    ensures Clean(e, keys)
  {
    DistinctMeansOnce(keys);
    DistinctMeansOnce(e.refs);
  }

  lemma CleanIsFine(e: Entry, keys: seq<Key>)
    requires DistinctKeys(keys) && Clean(e, keys)
    ensures Fine(e, keys)
  {
    var k, refs := e.key, e.refs;
    DistinctMeansOnce(refs);
    assert !Malformed(k, refs, keys, InvalidScope(k)) && !Malformed(k, refs, keys, DuplicateReference(k));
    assert !Malformed(k, refs, keys, MissingParent(k)) && !Malformed(k, refs, keys, AliasNeedsOneTarget(k));
    forall t | t in refs
      ensures t in keys && AllowedRole(k, t)
    {
      assert !Malformed(k, refs, keys, DanglingReference(k, t)) && !Malformed(k, refs, keys, InvalidReferenceRole(k, t));
    }
    forall t
      ensures !Twice(refs, t)
    {
      assert Twice(refs, t) ==> t in refs;
    }
  }

  lemma BindingFine(f: Family, b: Coded, keys: seq<Key>)
    requires FamilyKey(f.code) in keys
    ensures Fine(BindingRow(f, b), keys) <==> f.code != "" && DefinitionKey(b.code) in keys
  {
  }

  lemma ChildFine(e: Entry, d: Definition, keys: seq<Key>)
    requires DefinitionKey(d.code) in keys && e.refs == [DefinitionKey(d.code)]
    requires e.key.scope == d.code && (e.key.kind == UnitKind || e.key.kind == OptionKind)
    ensures Fine(e, keys) <==> d.code != ""
  {
  }

  lemma GroupFine(d: Definition, g: Group, keys: seq<Key>)
    requires DefinitionKey(d.code) in keys
    ensures Fine(GroupRow(d, g), keys) <==>
            d.code != "" && Apart(g.optionCodes) && forall c :: c in g.optionCodes ==> OptionKey(d.code, c) in keys
  {
    var e, members := GroupRow(d, g), Members(d, g);
    DistinctConcat([DefinitionKey(d.code)], members);
    MembersApart(d, g);
    assert forall t :: t in e.refs <==> t == DefinitionKey(d.code) || t in members;
  }

  lemma MembersApart(d: Definition, g: Group)
    ensures DistinctKeys(Members(d, g)) <==> Apart(g.optionCodes)
    ensures forall k :: k in Members(d, g) <==> k.kind == OptionKind && k.scope == d.code && k.code in g.optionCodes
  {
    forall k
      ensures k in Members(d, g) <==> k.kind == OptionKind && k.scope == d.code && k.code in g.optionCodes
    {
      if k.kind == OptionKind && k.scope == d.code && k.code in g.optionCodes {
        var i :| 0 <= i < |g.optionCodes| && g.optionCodes[i] == k.code;
        assert Members(d, g)[i] == k;
      }
    }
  }

  lemma AliasFine(d: Definition, a: Alias, keys: seq<Key>)
    requires DefinitionKey(d.code) in keys
    ensures Fine(AliasRow(d, a), keys) <==> d.code != "" && OptionKey(d.code, a.optionCode) in keys
  {
    var refs := AliasRow(d, a).refs;
    assert refs[..1] == [DefinitionKey(d.code)] && refs[..1][..0] == [];
    assert OptionCount(refs[..1]) == 0;
  }

  ghost predicate AllFine(entries: seq<Entry>, keys: seq<Key>) {
    forall e :: e in entries ==> Fine(e, keys)
  }

  lemma FineAppend(a: seq<Entry>, b: seq<Entry>, keys: seq<Key>)
    ensures AllFine(a + b, keys) <==> AllFine(a, keys) && AllFine(b, keys)
  {
    assert forall e :: e in a + b <==> e in a || e in b;
  }

  lemma FamilyFine(m: Manifest, f: Family)
    requires f in m.families
    ensures AllFine(FamilyRows(f), EntryKeys(CollectedRows(m))) <==> BoundFamily(m, f)
  {
    var keys := EntryKeys(CollectedRows(m));
    FamilyKeyThere(m, f);
    FineAppend([Entry(FamilyKey(f.code), f.fields, [])], BindingRows(f), keys);
    assert Fine(Entry(FamilyKey(f.code), f.fields, []), keys);
    forall b | b in f.bindings
      ensures Fine(BindingRow(f, b), keys) <==> f.code != "" && b.code in Mapped(m.definitions, DefinitionCode)
      ensures BindingRow(f, b) in BindingRows(f)
    {
      BindingFine(f, b, keys);
      DefinitionKeyThere(m, b.code);
      var i :| 0 <= i < |f.bindings| && f.bindings[i] == b;
      assert BindingRows(f)[i] == BindingRow(f, b);
    }
  }

  lemma {:induction false} FlattenedFine<A(!new)>(s: seq<A>, rows: A -> seq<Entry>, keys: seq<Key>)
    ensures AllFine(Flattened(s, rows), keys) <==> forall a :: a in s ==> AllFine(rows(a), keys)
  {
    if s != [] {
      var n := |s| - 1;
      FlattenedFine(s[..n], rows, keys);
      FineAppend(Flattened(s[..n], rows), rows(s[n]), keys);
      assert s == s[..n] + [s[n]];
    }
  }

  lemma UnitsFine(d: Definition, keys: seq<Key>)
    requires DefinitionKey(d.code) in keys
    ensures AllFine(UnitRows(d), keys) <==> d.code != "" || d.units == []
  {
    forall i | 0 <= i < |d.units|
      ensures Fine(UnitRows(d)[i], keys) <==> d.code != ""
    {
      ChildFine(UnitRows(d)[i], d, keys);
    }
    if d.units != [] {
      assert UnitRows(d)[0] in UnitRows(d);
    }
  }

  lemma OptionsFine(d: Definition, keys: seq<Key>)
    requires DefinitionKey(d.code) in keys
    ensures AllFine(OptionRows(d), keys) <==> d.code != "" || Options(d) == []
  {
    forall i | 0 <= i < |Options(d)|
      ensures Fine(OptionRows(d)[i], keys) <==> d.code != ""
    {
      ChildFine(OptionRows(d)[i], d, keys);
    }
    if Options(d) != [] {
      assert OptionRows(d)[0] in OptionRows(d);
    }
  }

  /** A member of the definition's own options, said with keys or with codes. */
  ghost predicate SameOptions(d: Definition, keys: seq<Key>) {
    forall c :: OptionKey(d.code, c) in keys <==> c in OptionCodes(d)
  }

  lemma GroupsFine(d: Definition, keys: seq<Key>)
    requires DefinitionKey(d.code) in keys && SameOptions(d, keys)
    ensures AllFine(GroupRows(d), keys) <==>
            forall g :: g in Groups(d) ==> d.code != "" && Apart(g.optionCodes) && forall c :: c in g.optionCodes ==> c in OptionCodes(d)
  {
    forall g | g in Groups(d)
      ensures GroupRow(d, g) in GroupRows(d)
      ensures Fine(GroupRow(d, g), keys) <==>
              d.code != "" && Apart(g.optionCodes) && forall c :: c in g.optionCodes ==> c in OptionCodes(d)
    {
      var i :| 0 <= i < |Groups(d)| && Groups(d)[i] == g;
      assert GroupRows(d)[i] == GroupRow(d, g);
      GroupFine(d, g, keys);
    }
  }

  lemma AliasesFine(d: Definition, keys: seq<Key>)
    requires DefinitionKey(d.code) in keys && SameOptions(d, keys)
    ensures AllFine(AliasRows(d), keys) <==> forall a :: a in Aliases(d) ==> d.code != "" && a.optionCode in OptionCodes(d)
  {
    forall a | a in Aliases(d)
      ensures AliasRow(d, a) in AliasRows(d)
      ensures Fine(AliasRow(d, a), keys) <==> d.code != "" && a.optionCode in OptionCodes(d)
    {
      var i :| 0 <= i < |Aliases(d)| && Aliases(d)[i] == a;
      assert AliasRows(d)[i] == AliasRow(d, a);
      AliasFine(d, a, keys);
    }
  }

  lemma DefinitionFine(m: Manifest, d: Definition)
    requires d in m.definitions && Apart(Mapped(m.definitions, DefinitionCode))
    ensures AllFine(DefinitionRows(d), EntryKeys(CollectedRows(m))) <==> LinkedDefinition(d)
  {
    var keys := EntryKeys(CollectedRows(m));
    var i :| 0 <= i < |m.definitions| && m.definitions[i] == d;
    assert Mapped(m.definitions, DefinitionCode)[i] == d.code;
    DefinitionKeyThere(m, d.code);
    forall c
      ensures OptionKey(d.code, c) in keys <==> c in OptionCodes(d)
    {
      OptionKeyThere(m, d, c);
    }
    assert Fine(Entry(DefinitionKey(d.code), d.fields, []), keys);
    FineAppend([Entry(DefinitionKey(d.code), d.fields, [])], ChildRows(d), keys);
    FineAppend(UnitRows(d) + OptionRows(d) + GroupRows(d), AliasRows(d), keys);
    FineAppend(UnitRows(d) + OptionRows(d), GroupRows(d), keys);
    FineAppend(UnitRows(d), OptionRows(d), keys);
    UnitsFine(d, keys);
    OptionsFine(d, keys);
    GroupsFine(d, keys);
    AliasesFine(d, keys);
    if Groups(d) != [] {
      assert Groups(d)[0] in Groups(d);
    }
    if Aliases(d) != [] {
      assert Aliases(d)[0] in Aliases(d);
    }
  }

  lemma FineIffLinked(m: Manifest)
    requires Apart(Mapped(m.definitions, DefinitionCode))
    ensures AllFine(CollectedRows(m), EntryKeys(CollectedRows(m))) <==>
            && (forall f :: f in m.families ==> BoundFamily(m, f))
            && (forall d :: d in m.definitions ==> LinkedDefinition(d))
  {
    var keys := EntryKeys(CollectedRows(m));
    FineAppend(Flattened(m.families, FamilyRows), Flattened(m.definitions, DefinitionRows), keys);
    FlattenedFine(m.families, FamilyRows, keys);
    FlattenedFine(m.definitions, DefinitionRows, keys);
    forall f | f in m.families
      ensures AllFine(FamilyRows(f), keys) <==> BoundFamily(m, f)
    {
      FamilyFine(m, f);
    }
    forall d | d in m.definitions
      ensures AllFine(DefinitionRows(d), keys) <==> LinkedDefinition(d)
    {
      DefinitionFine(m, d);
    }
  }

  // ----- Sorting keeps them clean -----

  function EntryKey(e: Entry): Key {
    e.key
  }

  lemma EntryKeysPermute(a: seq<Entry>, b: seq<Entry>)
    requires multiset(a) == multiset(b)
    ensures multiset(EntryKeys(a)) == multiset(EntryKeys(b))
  {
    assert EntryKeys(a) == Mapped(a, EntryKey) && EntryKeys(b) == Mapped(b, EntryKey);
    BagMapped(a, b, EntryKey);
  }

  lemma DistinctPermutes(x: seq<Key>, y: seq<Key>)
    requires multiset(x) == multiset(y) && DistinctKeys(x)
    ensures DistinctKeys(y)
  {
    DistinctMeansOnce(x);
    forall t
      ensures !Twice(y, t)
    {
      TwicePermutes(y, x, t);
    }
    DistinctMeansOnce(y);
  }

  lemma CleanPermutes(a: seq<Entry>, b: seq<Entry>)
    requires multiset(a) == multiset(b) && CleanEntries(a)
    ensures CleanEntries(b)
  {
    SameElements(a, b);
    EntryKeysPermute(a, b);
    DistinctPermutes(EntryKeys(a), EntryKeys(b));
    forall e, c | e in b
      ensures !Malformed(e.key, e.refs, EntryKeys(b), c)
    {
      if Malformed(e.key, e.refs, EntryKeys(b), c) {
        MalformedPermutes(e.key, e.refs, e.refs, EntryKeys(b), EntryKeys(a), c);
      }
    }
  }

  // ----- The main results -----

  lemma CollectedClean(m: Manifest)
    ensures CleanEntries(CollectedRows(m)) <==> Coherent(m)
  {
    var rows, keys := CollectedRows(m), EntryKeys(CollectedRows(m));
    CollectedDistinct(m);
    if DistinctKeys(keys) {
      forall e | e in rows
        ensures Fine(e, keys) <==> Clean(e, keys)
      {
        if Fine(e, keys) {
          FineIsClean(e, keys);
        } else if Clean(e, keys) {
          CleanIsFine(e, keys);
        }
      }
      FineIffLinked(m);
    }
  }

  /** A manifest's rows are free of structural conflicts exactly when the manifest is coherent. */
  lemma CleanIffCoherent(m: Manifest)
    ensures CleanEntries(DesiredRows(m)) <==> Coherent(m)
  {
    CollectedClean(m);
    SortPermutes(CollectedRows(m), EntryRank);
    if CleanEntries(CollectedRows(m)) {
      CleanPermutes(CollectedRows(m), DesiredRows(m));
    } else if CleanEntries(DesiredRows(m)) {
      CleanPermutes(DesiredRows(m), CollectedRows(m));
    }
  }

  /** An empty database can be planned exactly when the manifest is coherent and the recorded version, if any, is its own. */
  lemma EmptyDatabasePlansIff(m: Manifest, version: Option<string>)
    ensures Applicable(Snapshot(version, []), DesiredRows(m), m.version) <==>
            Coherent(m) && (version.Some? ==> version.value == m.version)
  {
    ApplicableMeans(Snapshot(version, []), DesiredRows(m), m.version);
    CleanIffCoherent(m);
  }

  lemma {:induction false} CreatedKeys(desired: seq<Entry>, mint: Key -> string)
    ensures Keys(Created(ReportedAdditions([], desired), mint)) == EntryKeys(desired)
  {
    if desired != [] {
      CreatedKeys(desired[1..], mint);
      var a := AdditionFor([], desired[0]).value;
      assert Additions([], desired) == [a] + Additions([], desired[1..]);
      MappedTail(Additions([], desired), Arranged);
      assert EntryKeys(desired) == [desired[0].key] + EntryKeys(desired[1..]);
    }
  }

  /** Seeding an empty database from a coherent manifest gives exactly the manifest's rows, and a second run plans nothing. */
  lemma SeedsOnce(m: Manifest, mint: Key -> string, next: Plan)
    requires Coherent(m) && FreshIds(Snapshot(None, []), DesiredRows(m), mint)
    requires IsPlan(next, AfterReport(Snapshot(None, []), DesiredRows(m), m.version, mint), DesiredRows(m), m.version)
    ensures var after := AfterReport(Snapshot(None, []), DesiredRows(m), m.version, mint);
            Keys(after.rows) == EntryKeys(DesiredRows(m)) && after.version == Some(m.version)
    ensures next.applicable && next.additions == [] && next.metadataAddition.None? && next.conflicts == []
  {
    EmptyDatabasePlansIff(m, None);
    ReportConverges(Snapshot(None, []), DesiredRows(m), m.version, mint, next);
    CreatedKeys(DesiredRows(m), mint);
    var additions := ReportedAdditions([], DesiredRows(m));
    assert PatchedRows(additions, mint, []) + Created(additions, mint) == Created(additions, mint);
  }
}
