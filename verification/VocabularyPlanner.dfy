/** The planner as the source runs it, loop by loop: prisma/editorial-production-vocabulary-plan.ts. */
module VocabularyPlanner {
  import opened Common
  import opened Json
  import opened Permutations
  import opened Sorting
  import opened Vocabulary
  import opened VocabularyManifest
  import opened VocabularyRanks
  import opened VocabularyReport

  datatype Namespace = Namespace(kind: Kind, id: string)

  method IndexConflicts(keys: seq<Key>) returns (found: set<Conflict>)
    ensures forall c :: c in found <==> c.DuplicateIdentity? && Twice(keys, c.who)
  {
    found := {};
    var index: set<Key> := {};
    for n := 0 to |keys|
      invariant forall k :: k in index <==> k in keys[..n]
      invariant forall c :: c in found <==> c.DuplicateIdentity? && Twice(keys[..n], c.who)
    {
      TwiceNext(keys, n);
      if keys[n] in index {
        found := found + {DuplicateIdentity(keys[n])};
      }
      index := index + {keys[n]};
      assert keys[..n + 1] == keys[..n] + [keys[n]];
    }
    assert keys[..|keys|] == keys;
  }

  lemma TwiceNext(keys: seq<Key>, n: nat)
    requires n < |keys|
    ensures forall k :: Twice(keys[..n + 1], k) <==> Twice(keys[..n], k) || (k == keys[n] && k in keys[..n])
  {
    forall k
      ensures Twice(keys[..n + 1], k) <==> Twice(keys[..n], k) || (k == keys[n] && k in keys[..n])
    {
      if Twice(keys[..n + 1], k) {
        var i, j :| 0 <= i < j < n + 1 && keys[..n + 1][i] == k && keys[..n + 1][j] == k;
        assert keys[..n + 1][i] == keys[..n][i];
        if j < n {
          assert keys[..n][j] == k;
        }
      }
      if Twice(keys[..n], k) {
        var i, j :| 0 <= i < j < n && keys[..n][i] == k && keys[..n][j] == k;
        assert keys[..n + 1][i] == k && keys[..n + 1][j] == k;
      }
      if k == keys[n] && k in keys[..n] {
        var i :| 0 <= i < n && keys[..n][i] == k;
        assert keys[..n + 1][i] == k && keys[..n + 1][n] == k;
      }
    }
  }

  ghost predicate IdsIndexed(ids: map<Namespace, set<Key>>, rows: seq<Row>) {
    && (forall r :: r in rows ==> Namespace(r.key.kind, r.id) in ids && r.key in ids[Namespace(r.key.kind, r.id)])
    && forall ns, k :: ns in ids && k in ids[ns] ==> exists r :: r in rows && r.key == k && Namespace(r.key.kind, r.id) == ns
  }

  method IndexIds(rows: seq<Row>) returns (ids: map<Namespace, set<Key>>)
    ensures IdsIndexed(ids, rows)
  {
    ids := map[];
    for n := 0 to |rows|
      invariant IdsIndexed(ids, rows[..n])
    {
      var ns := Namespace(rows[n].key.kind, rows[n].id);
      ghost var was := ids;
      ids := ids[ns := (if ns in ids then ids[ns] else {}) + {rows[n].key}];
      IndexIdStep(was, rows[..n], rows[n]);
      assert rows[..n + 1] == rows[..n] + [rows[n]];
    }
    assert rows[..|rows|] == rows;
  }

  lemma IndexIdStep(ids: map<Namespace, set<Key>>, rows: seq<Row>, row: Row)
    requires IdsIndexed(ids, rows)
    ensures var ns := Namespace(row.key.kind, row.id);
            IdsIndexed(ids[ns := (if ns in ids then ids[ns] else {}) + {row.key}], rows + [row])
  {
    var ns := Namespace(row.key.kind, row.id);
    var next := ids[ns := (if ns in ids then ids[ns] else {}) + {row.key}];
    forall m, k | m in next && k in next[m]
      ensures exists r :: r in rows + [row] && r.key == k && Namespace(r.key.kind, r.id) == m
    {
      if m in ids && k in ids[m] {
        var r :| r in rows && r.key == k && Namespace(r.key.kind, r.id) == m;
        assert r in rows + [row];
      } else {
        assert row in rows + [row];
      }
    }
  }

  /** What the reference loop alone has reported. */
  predicate FoundBy(k: Key, targets: seq<Key>, keys: seq<Key>, c: Conflict) {
    !c.MissingParent? && !c.AliasNeedsOneTarget? && Malformed(k, targets, keys, c)
  }

  /** What the reference `t`, with the references in `seen` before it, adds. */
  predicate AddedBy(k: Key, t: Key, seen: set<Key>, keys: seq<Key>, c: Conflict) {
    match c
    case DuplicateReference(who) => who == k && t in seen
    case DanglingReference(who, u) => who == k && u == t && !Once(keys, t)
    case InvalidReferenceRole(who, u) => who == k && u == t && !AllowedRole(k, t)
    case _ => false
  }

  method CheckReference(k: Key, t: Key, seen: set<Key>, keys: seq<Key>) returns (found: set<Conflict>)
    ensures forall c :: c in found <==> AddedBy(k, t, seen, keys, c)
  {
    found := {};
    if t in seen {
      found := found + {DuplicateReference(k)};
    }
    if !Once(keys, t) {
      found := found + {DanglingReference(k, t)};
    }
    if !AllowedRole(k, t) {
      found := found + {InvalidReferenceRole(k, t)};
    }
  }

  lemma FoundByNext(k: Key, targets: seq<Key>, n: nat, seen: set<Key>, keys: seq<Key>, c: Conflict)
    requires n < |targets| && forall t :: t in seen <==> t in targets[..n]
    ensures FoundBy(k, targets[..n + 1], keys, c) <==>
            FoundBy(k, targets[..n], keys, c) || AddedBy(k, targets[n], seen, keys, c)
  {
    TwiceNext(targets, n);
    assert targets[..n + 1] == targets[..n] + [targets[n]];
    if c.DuplicateReference? {
      assert forall t :: Twice(targets[..n], t) ==> t in targets[..n];
    }
  }

  /** The references of one row checked in order, against rows with the given keys. */
  method ValidateTargets(k: Key, targets: seq<Key>, keys: seq<Key>) returns (found: set<Conflict>)
    ensures forall c :: c in found <==> Malformed(k, targets, keys, c)
  {
    var seen, options;
    found, seen, options := ValidateReferences(k, targets, keys);
    if exists p :: p in Parents(k) && p !in seen {
      found := found + {MissingParent(k)};
    }
    if k.kind == AliasKind && options != 1 {
      found := found + {AliasNeedsOneTarget(k)};
    }
  }

  method ValidateReferences(k: Key, targets: seq<Key>, keys: seq<Key>) returns (found: set<Conflict>, seen: set<Key>, options: nat)
    ensures forall c :: c in found <==> FoundBy(k, targets, keys, c)
    ensures forall t :: t in seen <==> t in targets
    ensures options == OptionCount(targets)
  {
    found := if (Parents(k) == {}) != (k.scope == "") then {InvalidScope(k)} else {};
    seen, options := {}, 0;
    for n := 0 to |targets|
      invariant forall t :: t in seen <==> t in targets[..n]
      invariant options == OptionCount(targets[..n])
      invariant forall c :: c in found <==> FoundBy(k, targets[..n], keys, c)
    {
      var t := targets[n];
      var more := CheckReference(k, t, seen, keys);
      forall c
        ensures c in found + more <==> FoundBy(k, targets[..n + 1], keys, c)
      {
        FoundByNext(k, targets, n, seen, keys, c);
      }
      found := found + more;
      seen := seen + {t};
      if t.kind == OptionKind {
        options := options + 1;
      }
      assert targets[..n + 1] == targets[..n] + [t] && targets[..n + 1][..n] == targets[..n];
    }
    assert targets[..|targets|] == targets;
  }

  method ValidateStored(rows: seq<Row>, row: Row, ids: map<Namespace, set<Key>>) returns (found: set<Conflict>)
    requires row in rows && IdsIndexed(ids, rows)
    ensures forall c :: c in found <==> StoredConflict(rows, row, c)
  {
    found := ValidateTargets(row.key, Targets(row.refs), Keys(rows));
    if row.id == "" {
      found := found + {MissingPersistedId(row.key)};
    }
    if ids[Namespace(row.key.kind, row.id)] != {row.key} {
      found := found + {SharedPersistedId(row.key)};
    }
    ghost var structural := found;
    for n := 0 to |row.refs|
      invariant forall c :: c in found <==> c in structural || MismatchIn(rows, row, n, c)
    {
      if !Resolves(rows, row.refs[n]) {
        found := found + {ReferenceIdMismatch(row.key, row.refs[n].target)};
      }
    }
    assert forall c :: MismatchIn(rows, row, |row.refs|, c) <==> c.ReferenceIdMismatch? && StoredConflict(rows, row, c);
  }

  predicate MismatchIn(rows: seq<Row>, row: Row, n: nat, c: Conflict)
    requires n <= |row.refs|
  {
    c.ReferenceIdMismatch? && c.who == row.key && exists i :: 0 <= i < n && row.refs[i].target == c.target && !Resolves(rows, row.refs[i])
  }

  // ----- Merging one desired row -----

  /** The field conflicts found among the desired fields `seen`. */
  predicate FieldClash(stored: Fields, e: Entry, seen: set<string>, c: Conflict) {
    && c.IncompatibleField? && c.who == e.key && c.field in seen && c.field in e.fields && Considered(stored, c.field)
    && c.field in stored && c.field !in CUSTOM_FIELDS && stored[c.field] != e.fields[c.field]
  }

  predicate Unknown(stored: Fields, e: Entry, c: Conflict) {
    c.UnrecognizedField? && c.who == e.key && c.field in stored && c.field !in e.fields && c.field !in CUSTOM_FIELDS
  }

  function MissingAmong(stored: Fields, desired: Fields, seen: set<string>): Fields {
    map f | f in desired && f in seen && Considered(stored, f) && f !in stored :: desired[f]
  }

  /** What one desired field adds to the conflicts and to the missing fields. */
  lemma FieldStep(stored: Fields, e: Entry, seen: set<string>, f: string)
    requires f in e.fields && f !in seen
    ensures MissingAmong(stored, e.fields, seen + {f}) ==
            if Considered(stored, f) && f !in stored then MissingAmong(stored, e.fields, seen)[f := e.fields[f]]
            else MissingAmong(stored, e.fields, seen)
    ensures forall c :: FieldClash(stored, e, seen + {f}, c) <==>
                        FieldClash(stored, e, seen, c) || (c == IncompatibleField(e.key, f) && FieldClash(stored, e, {f}, c))
  {
  }

  /** One pass over the desired fields, in any order; canonical texts are compared, not values. */
  method MergeFields(stored: Fields, e: Entry) returns (found: set<Conflict>, fields: Fields)
    ensures forall c :: c in found <==> FieldClash(stored, e, e.fields.Keys, c)
    ensures fields == MissingFields(stored, e.fields)
  {
    found, fields := {}, map[];
    var left := e.fields.Keys;
    while left != {}
      invariant left <= e.fields.Keys
      invariant fields == MissingAmong(stored, e.fields, e.fields.Keys - left)
      invariant forall c :: c in found <==> FieldClash(stored, e, e.fields.Keys - left, c)
      decreases left
    {
      var f :| f in left;
      FieldStep(stored, e, e.fields.Keys - left, f);
      if Considered(stored, f) {
        if f !in stored {
          fields := fields[f := e.fields[f]];
        } else {
          CanonicalInjective(stored[f], e.fields[f]);
          if f !in CUSTOM_FIELDS && Canonical(stored[f]) != Canonical(e.fields[f]) {
            found := found + {IncompatibleField(e.key, f)};
          }
        }
      }
      assert e.fields.Keys - (left - {f}) == e.fields.Keys - left + {f};
      left := left - {f};
    }
    assert MissingAmong(stored, e.fields, e.fields.Keys - left) == MissingFields(stored, e.fields);
  }

  /** The stored fields the manifest does not know, customization aside. */
  method UnknownFields(stored: Fields, e: Entry) returns (found: set<Conflict>)
    ensures forall c :: c in found <==> Unknown(stored, e, c)
  {
    found := {};
    var left := stored.Keys;
    while left != {}
      invariant left <= stored.Keys
      invariant forall c :: c in found <==> Unknown(stored, e, c) && c.field !in left
      decreases left
    {
      var f :| f in left;
      if f !in e.fields && f !in CUSTOM_FIELDS {
        found := found + {UnrecognizedField(e.key, f)};
      }
      left := left - {f};
    }
  }

  /** The desired references the stored row lacks, each with the id of its target if that is stored exactly once. */
  method MissingReferences(rows: seq<Row>, stored: seq<Key>, desired: seq<Key>) returns (refs: seq<PlannedRef>)
    ensures refs == PlannedRefs(rows, MissingTargets(stored, desired))
  {
    refs := [];
    for n := 0 to |desired|
      invariant refs == PlannedRefs(rows, MissingTargets(stored, desired[..n]))
    {
      var t := desired[n];
      MissingStep(stored, desired, n);
      if t !in stored {
        var matched := if Once(Keys(rows), t) then Some(Lookup(rows, t).value.id) else None;
        refs := refs + [PlannedRef(t, matched)];
      }
    }
    assert desired[..|desired|] == desired;
  }

  lemma MissingStep(stored: seq<Key>, desired: seq<Key>, n: nat)
    requires n < |desired|
    ensures MissingTargets(stored, desired[..n + 1]) ==
            if desired[n] in stored then MissingTargets(stored, desired[..n]) else MissingTargets(stored, desired[..n]) + [desired[n]]
  {
    assert desired[..n + 1][..n] == desired[..n];
  }

  lemma {:induction false} AllMissing(desired: seq<Key>)
    ensures MissingTargets([], desired) == desired
  {
    if desired != [] {
      AllMissing(desired[..|desired| - 1]);
      assert desired == desired[..|desired| - 1] + [desired[|desired| - 1]];
    }
  }

  /** Field and reference conflicts of merging one desired row, and the addition it needs, references in order. */
  method Merge(rows: seq<Row>, e: Entry) returns (found: set<Conflict>, addition: Option<Addition>)
    ensures forall c :: c in found <==> MergeConflict(rows, e, c)
    ensures addition == ArrangedIf(AdditionFor(rows, e))
  {
    found, addition := {}, None;
    if Twice(Keys(rows), e.key) {
      return;
    }
    var stored := Lookup(rows, e.key);
    var oldFields := if stored.None? then map[] else stored.value.fields;
    var oldTargets := if stored.None? then [] else Targets(stored.value.refs);
    var clashes, fields := MergeFields(oldFields, e);
    var unknown := UnknownFields(oldFields, e);
    var refs := MissingReferences(rows, oldTargets, e.refs);
    found := clashes + unknown;
    if stored.Some? && stored.value.key.kind == AliasKind && refs != [] {
      found := found + {AliasReinterpreted(e.key)};
    }
    if stored.None? || fields != map[] || refs != [] {
      addition := Some(Addition(e.key, fields, Sort(refs, PlannedRank), if stored.None? then None else Some(stored.value.id)));
    }
    NewOrPatched(rows, e, fields, refs);
    forall c
      ensures c in found <==> MergeConflict(rows, e, c)
    {
      MergeFinds(rows, e, oldFields, refs, c);
    }
  }

  lemma MergeFinds(rows: seq<Row>, e: Entry, oldFields: Fields, refs: seq<PlannedRef>, c: Conflict)
    requires !Twice(Keys(rows), e.key)
    requires var stored := Lookup(rows, e.key);
             && oldFields == (if stored.None? then map[] else stored.value.fields)
             && |refs| == |MissingTargets(if stored.None? then [] else Targets(stored.value.refs), e.refs)|
    ensures MergeConflict(rows, e, c) <==>
            || FieldClash(oldFields, e, e.fields.Keys, c) || Unknown(oldFields, e, c)
            || (c == AliasReinterpreted(e.key) && Lookup(rows, e.key).Some? && e.key.kind == AliasKind && refs != [])
  {
  }

  /** A row that is not stored lacks every field and reference. */
  lemma NewOrPatched(rows: seq<Row>, e: Entry, fields: Fields, refs: seq<PlannedRef>)
    requires !Twice(Keys(rows), e.key)
    requires var stored := Lookup(rows, e.key);
             && fields == MissingFields(if stored.None? then map[] else stored.value.fields, e.fields)
             && refs == PlannedRefs(rows, MissingTargets(if stored.None? then [] else Targets(stored.value.refs), e.refs))
    ensures var stored := Lookup(rows, e.key);
            AdditionFor(rows, e) ==
            if stored.None? || fields != map[] || refs != []
            then Some(Addition(e.key, fields, refs, if stored.None? then None else Some(stored.value.id))) else None
  {
    if Lookup(rows, e.key).None? {
      AllMissing(e.refs);
      assert MissingFields(map[], e.fields) == e.fields;
    }
  }

  // ----- The passes -----

  predicate SomeStored(rows: seq<Row>, seen: seq<Row>, c: Conflict) {
    exists row :: row in seen && StoredConflict(rows, row, c)
  }

  predicate SomeMalformed(keys: seq<Key>, seen: seq<Entry>, c: Conflict) {
    exists e :: e in seen && Malformed(e.key, e.refs, keys, c)
  }

  predicate SomeMerge(rows: seq<Row>, seen: seq<Entry>, c: Conflict) {
    exists e :: e in seen && MergeConflict(rows, e, c)
  }

  lemma SomeStoredNext(rows: seq<Row>, n: nat, c: Conflict)
    requires n < |rows|
    ensures SomeStored(rows, rows[..n + 1], c) <==> SomeStored(rows, rows[..n], c) || StoredConflict(rows, rows[n], c)
  {
    assert rows[..n + 1] == rows[..n] + [rows[n]];
  }

  lemma SomeMalformedNext(keys: seq<Key>, desired: seq<Entry>, n: nat, c: Conflict)
    requires n < |desired|
    ensures SomeMalformed(keys, desired[..n + 1], c) <==>
            SomeMalformed(keys, desired[..n], c) || Malformed(desired[n].key, desired[n].refs, keys, c)
  {
    assert desired[..n + 1] == desired[..n] + [desired[n]];
  }

  lemma SomeMergeNext(rows: seq<Row>, desired: seq<Entry>, n: nat, c: Conflict)
    requires n < |desired|
    ensures SomeMerge(rows, desired[..n + 1], c) <==> SomeMerge(rows, desired[..n], c) || MergeConflict(rows, desired[n], c)
  {
    assert desired[..n + 1] == desired[..n] + [desired[n]];
  }

  method StoredConflicts(rows: seq<Row>) returns (found: set<Conflict>)
    ensures forall c :: c in found <==> SomeStored(rows, rows, c)
  {
    found := {};
    var ids := IndexIds(rows);
    for n := 0 to |rows|
      invariant forall c :: c in found <==> SomeStored(rows, rows[..n], c)
    {
      var more := ValidateStored(rows, rows[n], ids);
      forall c {
        SomeStoredNext(rows, n, c);
      }
      found := found + more;
    }
    assert rows[..|rows|] == rows;
  }

  method DesiredConflicts(desired: seq<Entry>) returns (found: set<Conflict>)
    ensures forall c :: c in found <==> SomeMalformed(EntryKeys(desired), desired, c)
  {
    found := {};
    var keys := EntryKeys(desired);
    for n := 0 to |desired|
      invariant forall c :: c in found <==> SomeMalformed(keys, desired[..n], c)
    {
      var more := ValidateTargets(desired[n].key, desired[n].refs, keys);
      forall c {
        SomeMalformedNext(keys, desired, n, c);
      }
      found := found + more;
    }
    assert desired[..|desired|] == desired;
  }

  lemma AdditionsNext(rows: seq<Row>, desired: seq<Entry>, n: nat, additions: seq<Addition>)
    requires n < |desired| && additions + ReportedAdditions(rows, desired[n..]) == ReportedAdditions(rows, desired)
    ensures var addition := ArrangedIf(AdditionFor(rows, desired[n]));
            (if addition.Some? then additions + [addition.value] else additions) + ReportedAdditions(rows, desired[n + 1..])
            == ReportedAdditions(rows, desired)
  {
    assert desired[n..][1..] == desired[n + 1..];
    AdditionsStep(rows, desired[n..]);
  }

  method MergeAll(rows: seq<Row>, desired: seq<Entry>) returns (found: set<Conflict>, additions: seq<Addition>)
    ensures forall c :: c in found <==> SomeMerge(rows, desired, c)
    ensures additions == ReportedAdditions(rows, desired)
  {
    found, additions := {}, [];
    assert desired[0..] == desired;
    for n := 0 to |desired|
      invariant forall c :: c in found <==> SomeMerge(rows, desired[..n], c)
      invariant additions + ReportedAdditions(rows, desired[n..]) == ReportedAdditions(rows, desired)
    {
      var more, addition := Merge(rows, desired[n]);
      AdditionsNext(rows, desired, n, additions);
      forall c {
        SomeMergeNext(rows, desired, n, c);
      }
      found := found + more;
      if addition.Some? {
        additions := additions + [addition.value];
      }
    }
    assert desired[..|desired|] == desired;
    assert desired[|desired|..] == [];
  }

  /** The five passes together report exactly the conflicts of the plan; the version check adds the last one. */
  lemma PassesAreConflicts(s: Snapshot, desired: seq<Entry>, version: string, c: Conflict)
    ensures Conflicting(s, desired, version, c) <==>
            || (c.DuplicateIdentity? && Twice(Keys(s.rows), c.who))
            || (c.DuplicateIdentity? && Twice(EntryKeys(desired), c.who))
            || SomeStored(s.rows, s.rows, c)
            || SomeMalformed(EntryKeys(desired), desired, c)
            || SomeMerge(s.rows, desired, c)
            || (c == IncompatibleVersion && s.version.Some? && s.version.value != version)
  {
  }

  method AllConflicts(s: Snapshot, desired: seq<Entry>, version: string) returns (found: set<Conflict>, additions: seq<Addition>)
    ensures forall c :: c in found <==> Conflicting(s, desired, version, c)
    ensures additions == ReportedAdditions(s.rows, desired)
  {
    var duplicates := IndexConflicts(Keys(s.rows));
    var repeated := IndexConflicts(EntryKeys(desired));
    var stored := StoredConflicts(s.rows);
    var structural := DesiredConflicts(desired);
    var merge;
    merge, additions := MergeAll(s.rows, desired);
    found := duplicates + repeated + stored + structural + merge;
    if s.version.Some? && s.version.value != version {
      found := found + {IncompatibleVersion};
    }
    forall c {
      PassesAreConflicts(s, desired, version, c);
    }
  }

  // ----- The report -----

  /** The stored rows as the report keeps them. */
  method Preserve(rows: seq<Row>) returns (kept: seq<Row>)
    ensures kept == Preservations(rows)
  {
    var tidied: seq<Row> := [];
    for n := 0 to |rows|
      invariant |tidied| == n && forall i :: 0 <= i < n ==> tidied[i] == Tidied(rows[i])
    {
      tidied := tidied + [rows[n].(refs := Sort(rows[n].refs, RefRank))];
    }
    assert tidied == Mapped(rows, Tidied);
    kept := Sort(tidied, RowRank);
  }

  /** The conflicts found, each text once, in order. */
  method ListConflicts(found: set<Conflict>) returns (listed: seq<Finding>)
    ensures Strict(listed, FindingRank)
    ensures forall f :: f in listed <==> exists c :: c in found && FindingOf(c) == f
  {
    FindingsFaithful();
    var findings := set c | c in found :: FindingOf(c);
    listed := Listed(findings, FindingRank);
    ListedStrict(findings, FindingRank);
  }

  /** The dry run: the report exactly as specified; any conflict blocks all of it. */
  method PlanProductionVocabulary(s: Snapshot, m: Manifest) returns (plan: Plan)
    ensures IsPlan(plan, s, DesiredRows(m), m.version)
  {
    var desired := CollectRows(m);
    var conflicts, additions := AllConflicts(s, desired, m.version);
    var listed := ListConflicts(conflicts);
    var kept := Preserve(s.rows);
    plan := Plan(listed == [], MetadataAddition(s, m.version), additions, kept, listed);
    ListedAre(s, desired, m.version, conflicts, listed);
  }

  lemma ListedAre(s: Snapshot, desired: seq<Entry>, version: string, conflicts: set<Conflict>, listed: seq<Finding>)
    requires forall c :: c in conflicts <==> Conflicting(s, desired, version, c)
    requires forall f :: f in listed <==> exists c :: c in conflicts && FindingOf(c) == f
    ensures forall f :: f in listed <==> Found(s, desired, version, f)
    ensures Applicable(s, desired, version) <==> listed == []
  {
    forall f
      ensures f in listed <==> Found(s, desired, version, f)
    {
      if f in listed {
        var c :| c in conflicts && FindingOf(c) == f;
        assert Conflicting(s, desired, version, c);
      }
      if Found(s, desired, version, f) {
        var c :| Conflicting(s, desired, version, c) && FindingOf(c) == f;
        assert c in conflicts;
      }
    }
    if listed != [] {
      assert listed[0] in listed;
      assert Found(s, desired, version, listed[0]);
    }
    if c :| Conflicting(s, desired, version, c) {
      assert c in conflicts;
      assert FindingOf(c) in listed;
    }
  }
}
