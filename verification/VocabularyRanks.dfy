/** How the planner orders rows and references: `identity` and `sorted` in prisma/editorial-production-vocabulary-plan.ts.

Every sorted thing is rendered as the JSON object the source holds; its rank is its identity string with the canonical
text of that object as the tie-break.
*/
module VocabularyRanks {
  import opened Common
  import opened Json
  import opened Permutations
  import opened Sorting
  import opened Vocabulary

  function KindName(k: Kind): string {
    match k
    case FamilyKind => "family"
    case DefinitionKind => "definition"
    case OptionKind => "option"
    case UnitKind => "unit"
    case GroupKind => "group"
    case AliasKind => "alias"
    case BindingKind => "binding"
  }

  /** A conflict as the report shows it. */
  datatype Finding = Finding(identity: string, reason: string)

  // ----- Rendering -----

  function Identity(k: Key): string {
    Canonical(List([Text(KindName(k.kind)), Text(k.scope), Text(k.code)]))
  }

  function Identifying(k: Key): map<string, Value> {
    map["kind" := Text(KindName(k.kind)), "scope" := Text(k.scope), "code" := Text(k.code)]
  }

  function TargetValue(k: Key): Value {
    Object(Identifying(k))
  }

  function RefValue(r: Ref): Value {
    Object(if r.id == "" then Identifying(r.target) else Identifying(r.target)["id" := Text(r.id)])
  }

  function PlannedValue(r: PlannedRef): Value {
    Object(if r.id.None? then Identifying(r.target) else Identifying(r.target)["id" := Text(r.id.value)])
  }

  function EntryValue(e: Entry): Value {
    Object(Identifying(e.key)["fields" := Object(e.fields)]["references" := List(Mapped(e.refs, TargetValue))])
  }

  function RowValue(row: Row): Value {
    Object(Identifying(row.key)["id" := Text(row.id)]["fields" := Object(row.fields)]["references" := List(Mapped(row.refs, RefValue))])
  }

  function FindingValue(f: Finding): Value {
    Object(map["identity" := Text(f.identity), "reason" := Text(f.reason)])
  }

  // ----- Ranks -----

  function RefRank(r: Ref): Rank {
    Rank(Identity(r.target), Canonical(RefValue(r)))
  }

  function PlannedRank(r: PlannedRef): Rank {
    Rank(Identity(r.target), Canonical(PlannedValue(r)))
  }

  function TargetRank(k: Key): Rank {
    Rank(Identity(k), Canonical(TargetValue(k)))
  }

  function EntryRank(e: Entry): Rank {
    Rank(Identity(e.key), Canonical(EntryValue(e)))
  }

  function RowRank(row: Row): Rank {
    Rank(Identity(row.key), Canonical(RowValue(row)))
  }

  /** Conflicts are compared by their whole text. */
  function FindingRank(f: Finding): Rank {
    Rank(Canonical(FindingValue(f)), "")
  }

  // ----- Ranks tell their elements apart -----

  lemma KindNamesDiffer(a: Kind, b: Kind)
    requires KindName(a) == KindName(b)
    ensures a == b
  {
    assert KindName(a)[0] == KindName(b)[0];
  }

  /** The identity string determines kind, scope and code. */
  lemma IdentityInjective(a: Key, b: Key)
    ensures Identity(a) == Identity(b) <==> a == b
  {
    if Identity(a) == Identity(b) {
      var x := [Text(KindName(a.kind)), Text(a.scope), Text(a.code)];
      var y := [Text(KindName(b.kind)), Text(b.scope), Text(b.code)];
      CanonicalInjective(List(x), List(y));
      assert x[0] == y[0] && x[1] == y[1] && x[2] == y[2];
      KindNamesDiffer(a.kind, b.kind);
    }
  }

  lemma IdentifyingInjective(a: Key, b: Key, m: map<string, Value>, n: map<string, Value>)
    requires m == n && forall k :: k in Identifying(a) ==> k in m && k in n && m[k] == Identifying(a)[k] && n[k] == Identifying(b)[k]
    ensures a == b
  {
    assert "kind" in Identifying(a) && "scope" in Identifying(a) && "code" in Identifying(a);
    KindNamesDiffer(a.kind, b.kind);
  }

  lemma TargetDetermined(a: Key, b: Key)
    requires TargetValue(a) == TargetValue(b)
    ensures a == b
  {
    IdentifyingInjective(a, b, Identifying(a), Identifying(b));
  }

  lemma RefDetermined(a: Ref, b: Ref)
    requires RefValue(a) == RefValue(b)
    ensures a == b
  {
    var m, n := RefValue(a).members, RefValue(b).members;
    IdentifyingInjective(a.target, b.target, m, n);
    assert "id" in m <==> a.id != "";
    assert "id" in n <==> b.id != "";
  }

  lemma PlannedDetermined(a: PlannedRef, b: PlannedRef)
    requires PlannedValue(a) == PlannedValue(b)
    ensures a == b
  {
    var m, n := PlannedValue(a).members, PlannedValue(b).members;
    IdentifyingInjective(a.target, b.target, m, n);
    assert "id" in m <==> a.id.Some?;
    assert "id" in n <==> b.id.Some?;
  }

  lemma EntryDetermined(a: Entry, b: Entry)
    requires EntryValue(a) == EntryValue(b)
    ensures a == b
  {
    var m, n := EntryValue(a).members, EntryValue(b).members;
    IdentifyingInjective(a.key, b.key, m, n);
    assert m["fields"] == n["fields"] && m["references"] == n["references"];
    var x, y := Mapped(a.refs, TargetValue), Mapped(b.refs, TargetValue);
    forall i | 0 <= i < |x|
      ensures a.refs[i] == b.refs[i]
    {
      assert x[i] == y[i];
      TargetDetermined(a.refs[i], b.refs[i]);
    }
  }

  lemma RowDetermined(a: Row, b: Row)
    requires RowValue(a) == RowValue(b)
    ensures a == b
  {
    var m, n := RowValue(a).members, RowValue(b).members;
    IdentifyingInjective(a.key, b.key, m, n);
    assert m["id"] == n["id"] && m["fields"] == n["fields"] && m["references"] == n["references"];
    var x, y := Mapped(a.refs, RefValue), Mapped(b.refs, RefValue);
    forall i | 0 <= i < |x|
      ensures a.refs[i] == b.refs[i]
    {
      assert x[i] == y[i];
      RefDetermined(a.refs[i], b.refs[i]);
    }
  }

  lemma FindingDetermined(a: Finding, b: Finding)
    requires FindingValue(a) == FindingValue(b)
    ensures a == b
  {
    var m, n := FindingValue(a).members, FindingValue(b).members;
    assert m["identity"] == n["identity"] && m["reason"] == n["reason"];
  }

  lemma TargetsFaithful()
    ensures Faithful(TargetRank)
  {
    forall x: Key, y: Key | TargetRank(x) == TargetRank(y)
      ensures x == y
    {
      IdentityInjective(x, y);
    }
  }

  lemma RefsFaithful()
    ensures Faithful(RefRank)
  {
    forall x: Ref, y: Ref | RefRank(x) == RefRank(y)
      ensures x == y
    {
      CanonicalInjective(RefValue(x), RefValue(y));
      RefDetermined(x, y);
    }
  }

  lemma PlannedFaithful()
    ensures Faithful(PlannedRank)
  {
    forall x: PlannedRef, y: PlannedRef | PlannedRank(x) == PlannedRank(y)
      ensures x == y
    {
      CanonicalInjective(PlannedValue(x), PlannedValue(y));
      PlannedDetermined(x, y);
    }
  }

  lemma EntriesFaithful()
    ensures Faithful(EntryRank)
  {
    forall x: Entry, y: Entry | EntryRank(x) == EntryRank(y)
      ensures x == y
    {
      CanonicalInjective(EntryValue(x), EntryValue(y));
      EntryDetermined(x, y);
    }
  }

  lemma RowsFaithful()
    ensures Faithful(RowRank)
  {
    forall x: Row, y: Row | RowRank(x) == RowRank(y)
      ensures x == y
    {
      CanonicalInjective(RowValue(x), RowValue(y));
      RowDetermined(x, y);
    }
  }

  lemma FindingsFaithful()
    ensures Faithful(FindingRank)
  {
    forall x: Finding, y: Finding | FindingRank(x) == FindingRank(y)
      ensures x == y
    {
      CanonicalInjective(FindingValue(x), FindingValue(y));
      FindingDetermined(x, y);
    }
  }
}
