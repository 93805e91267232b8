/** Applying an applicable plan converges and only extends: prisma/editorial-production-vocabulary-plan.ts. */
module VocabularyConvergence {
  import opened Common
  import opened Vocabulary

  // ----- The applied rows, described row by row -----

  function EntryFor(desired: seq<Entry>, k: Key): (r: Option<Entry>)
    ensures r.Some? ==> r.value in desired && r.value.key == k
    ensures r.None? <==> k !in EntryKeys(desired)
  {
    if desired == [] then None
    else if desired[0].key == k then assert EntryKeys(desired)[0] == k; Some(desired[0])
    else
      assert EntryKeys(desired) == [desired[0].key] + EntryKeys(desired[1..]);
      EntryFor(desired[1..], k)
  }

  /** The id a key has once the plan is applied: its stored one, else a fresh one. */
  function IdAfter(rows: seq<Row>, mint: Key -> string, k: Key): string {
    if k in Keys(rows) then Lookup(rows, k).value.id else mint(k)
  }

  function NewRefs(rows: seq<Row>, mint: Key -> string, targets: seq<Key>): (r: seq<Ref>)
    ensures |r| == |targets| && forall i :: 0 <= i < |r| ==> r[i] == Ref(targets[i], IdAfter(rows, mint, targets[i]))
  {
    seq(|targets|, i requires 0 <= i < |targets| => Ref(targets[i], IdAfter(rows, mint, targets[i])))
  }

  /** A stored row after the plan: its own fields and references first, then whatever the desired row has more. */
  function Extended(rows: seq<Row>, desired: seq<Entry>, mint: Key -> string, row: Row): Row {
    match EntryFor(desired, row.key)
    case None => row
    case Some(e) =>
      row.(fields := row.fields + MissingFields(row.fields, e.fields),
           refs := row.refs + NewRefs(rows, mint, MissingTargets(Targets(row.refs), e.refs)))
  }

  function NewRow(rows: seq<Row>, mint: Key -> string, e: Entry): Row {
    Row(e.key, mint(e.key), e.fields, NewRefs(rows, mint, e.refs))
  }

  ghost predicate DistinctKeys(keys: seq<Key>) {
    forall i, j :: 0 <= i < j < |keys| ==> keys[i] != keys[j]
  }

  lemma DistinctMeansOnce(keys: seq<Key>)
    ensures DistinctKeys(keys) <==> forall k :: !Twice(keys, k)
  {
    forall i, j | 0 <= i < j < |keys| && (forall k :: !Twice(keys, k))
      ensures keys[i] != keys[j]
    {
      assert !Twice(keys, keys[i]);
    }
  }

  lemma ResolvedIsNew(rows: seq<Row>, mint: Key -> string, targets: seq<Key>)
    requires DistinctKeys(Keys(rows))
    ensures Resolved(PlannedRefs(rows, targets), mint) == NewRefs(rows, mint, targets)
  {
    DistinctMeansOnce(Keys(rows));
  }

  lemma {:induction false} PatchForAbsent(rows: seq<Row>, desired: seq<Entry>, k: Key)
    requires k !in EntryKeys(desired)
    ensures PatchFor(Additions(rows, desired), k).None?
  {
    if desired != [] {
      assert EntryKeys(desired) == [desired[0].key] + EntryKeys(desired[1..]);
      PatchForAbsent(rows, desired[1..], k);
    }
  }

  lemma TailDistinct(desired: seq<Entry>)
    requires desired != [] && DistinctKeys(EntryKeys(desired))
    ensures DistinctKeys(EntryKeys(desired[1..])) && desired[0].key !in EntryKeys(desired[1..])
    ensures EntryKeys(desired) == [desired[0].key] + EntryKeys(desired[1..])
  {
    var keys := EntryKeys(desired);
    assert keys == [desired[0].key] + EntryKeys(desired[1..]);
    assert forall i :: 0 <= i < |desired| - 1 ==> EntryKeys(desired[1..])[i] == keys[i + 1];
  }

  lemma {:induction false} PatchForEntry(rows: seq<Row>, desired: seq<Entry>, k: Key)
    requires DistinctKeys(EntryKeys(desired)) && k in Keys(rows) && forall x :: !Twice(Keys(rows), x)
    ensures PatchFor(Additions(rows, desired), k) ==
            match EntryFor(desired, k)
            case None => None
            case Some(e) => AdditionFor(rows, e)
  {
    if desired != [] {
      TailDistinct(desired);
      PatchForEntry(rows, desired[1..], k);
      if desired[0].key == k {
        PatchForAbsent(rows, desired[1..], k);
      }
    }
  }

  /** What an entry's addition does to the row it patches. */
  lemma PatchExtends(rows: seq<Row>, mint: Key -> string, row: Row, e: Entry)
    requires DistinctKeys(Keys(rows)) && Lookup(rows, e.key) == Some(row) && !Twice(Keys(rows), e.key)
    ensures PatchedBy(AdditionFor(rows, e), mint, row) ==
            row.(fields := row.fields + MissingFields(row.fields, e.fields),
                 refs := row.refs + NewRefs(rows, mint, MissingTargets(Targets(row.refs), e.refs)))
  {
    var targets := MissingTargets(Targets(row.refs), e.refs);
    ResolvedIsNew(rows, mint, targets);
    if AdditionFor(rows, e).None? {
      assert NewRefs(rows, mint, targets) == [];
      assert row.fields + map[] == row.fields;
    }
  }

  lemma PatchedIsExtended(rows: seq<Row>, desired: seq<Entry>, mint: Key -> string, row: Row)
    requires DistinctKeys(EntryKeys(desired)) && DistinctKeys(Keys(rows)) && row in rows
    ensures Patched(Additions(rows, desired), mint, row) == Extended(rows, desired, mint, row)
  {
    StoredRowFound(rows, row);
    DistinctMeansOnce(Keys(rows));
    PatchForEntry(rows, desired, row.key);
    var found := EntryFor(desired, row.key);
    if found.Some? {
      PatchExtends(rows, mint, row, found.value);
    }
  }

  lemma StoredRowFound(rows: seq<Row>, row: Row)
    requires DistinctKeys(Keys(rows)) && row in rows
    ensures row.key in Keys(rows) && Lookup(rows, row.key) == Some(row)
  {
    var i :| 0 <= i < |rows| && rows[i] == row;
    assert Keys(rows)[i] == row.key;
    var found := Lookup(rows, row.key).value;
    var j :| 0 <= j < |rows| && rows[j] == found;
    assert Keys(rows)[j] == row.key;
  }

  predicate IsNew(rows: seq<Row>, desired: seq<Entry>, mint: Key -> string, x: Row, e: Entry) {
    e in desired && e.key !in Keys(rows) && x == NewRow(rows, mint, e)
  }

  lemma {:induction false} CreatedRows(rows: seq<Row>, desired: seq<Entry>, mint: Key -> string)
    requires DistinctKeys(Keys(rows))
    ensures forall x :: x in Created(Additions(rows, desired), mint) ==> exists e :: IsNew(rows, desired, mint, x, e)
    ensures forall e :: e in desired && e.key !in Keys(rows) ==> NewRow(rows, mint, e) in Created(Additions(rows, desired), mint)
  {
    if desired != [] {
      var e := desired[0];
      CreatedRows(rows, desired[1..], mint);
      assert desired == [e] + desired[1..];
      ResolvedIsNew(rows, mint, e.refs);
      DistinctMeansOnce(Keys(rows));
      var rest := Created(Additions(rows, desired[1..]), mint);
      forall x | x in Created(Additions(rows, desired), mint)
        ensures exists f :: IsNew(rows, desired, mint, x, f)
      {
        if x in rest {
          var f :| IsNew(rows, desired[1..], mint, x, f);
          assert IsNew(rows, desired, mint, x, f);
        } else {
          assert IsNew(rows, desired, mint, x, e);
        }
      }
    }
  }

  lemma CreatedFromDesired(rows: seq<Row>, desired: seq<Entry>, mint: Key -> string, k: Key)
    requires DistinctKeys(Keys(rows)) && k !in EntryKeys(desired)
    ensures k !in Keys(Created(Additions(rows, desired), mint))
  {
    var created := Created(Additions(rows, desired), mint);
    CreatedRows(rows, desired, mint);
    forall i | 0 <= i < |created|
      ensures Keys(created)[i] != k
    {
      assert created[i] in created;
      var e :| IsNew(rows, desired, mint, created[i], e);
      var j :| 0 <= j < |desired| && desired[j] == e;
      assert EntryKeys(desired)[j] == e.key;
    }
  }

  lemma DistinctCons(row: Row, rest: seq<Row>)
    requires DistinctKeys(Keys(rest)) && row.key !in Keys(rest)
    ensures DistinctKeys(Keys([row] + rest))
  {
    assert Keys([row] + rest) == [row.key] + Keys(rest);
  }

  lemma {:induction false} CreatedKeysDistinct(rows: seq<Row>, desired: seq<Entry>, mint: Key -> string)
    requires DistinctKeys(Keys(rows)) && DistinctKeys(EntryKeys(desired))
    ensures DistinctKeys(Keys(Created(Additions(rows, desired), mint)))
  {
    if desired != [] {
      TailDistinct(desired);
      CreatedKeysDistinct(rows, desired[1..], mint);
      CreatedFromDesired(rows, desired[1..], mint, desired[0].key);
      CreatedStep(rows, desired, mint);
      var rest := Created(Additions(rows, desired[1..]), mint);
      if row: Row :| row.key == desired[0].key && Created(Additions(rows, desired), mint) == [row] + rest {
        DistinctCons(row, rest);
      }
    }
  }

  lemma CreatedStep(rows: seq<Row>, desired: seq<Entry>, mint: Key -> string)
    requires desired != []
    ensures var rest, all := Created(Additions(rows, desired[1..]), mint), Created(Additions(rows, desired), mint);
            all == rest || exists row: Row :: row.key == desired[0].key && all == [row] + rest
  {
    var rest := Created(Additions(rows, desired[1..]), mint);
    match AdditionFor(rows, desired[0])
    case None =>
    case Some(a) =>
      assert Additions(rows, desired)[1..] == Additions(rows, desired[1..]);
      if a.id.None? {
        assert Created(Additions(rows, desired), mint) == [Row(a.key, mint(a.key), a.fields, Resolved(a.refs, mint))] + rest;
      }
  }

  // ----- What applicable means -----

  ghost predicate CleanRows(rows: seq<Row>) {
    DistinctKeys(Keys(rows)) && forall row, c :: row in rows ==> !StoredConflict(rows, row, c)
  }

  ghost predicate CleanEntries(desired: seq<Entry>) {
    DistinctKeys(EntryKeys(desired)) && forall e, c :: e in desired ==> !Malformed(e.key, e.refs, EntryKeys(desired), c)
  }

  ghost predicate Mergeable(rows: seq<Row>, desired: seq<Entry>) {
    forall e, c :: e in desired ==> !MergeConflict(rows, e, c)
  }

  lemma ApplicableMeans(s: Snapshot, desired: seq<Entry>, version: string)
    ensures Applicable(s, desired, version) <==>
            && CleanRows(s.rows) && CleanEntries(desired) && Mergeable(s.rows, desired)
            && (s.version.Some? ==> s.version.value == version)
  {
    DistinctMeansOnce(Keys(s.rows));
    DistinctMeansOnce(EntryKeys(desired));
    if Applicable(s, desired, version) {
      assert !Conflicting(s, desired, version, IncompatibleVersion);
      forall k
        ensures !Twice(Keys(s.rows), k) && !Twice(EntryKeys(desired), k)
      {
        assert !Conflicting(s, desired, version, DuplicateIdentity(k));
      }
      forall row, c | row in s.rows
        ensures !StoredConflict(s.rows, row, c)
      {
        assert !Conflicting(s, desired, version, c);
      }
      forall e, c | e in desired
        ensures !Malformed(e.key, e.refs, EntryKeys(desired), c) && !MergeConflict(s.rows, e, c)
      {
        assert !Conflicting(s, desired, version, c);
      }
    }
  }

  // ----- The applied snapshot -----

  function AppliedRows(rows: seq<Row>, desired: seq<Entry>, mint: Key -> string): seq<Row> {
    PatchedRows(Additions(rows, desired), mint, rows) + Created(Additions(rows, desired), mint)
  }

  predicate IsExtended(rows: seq<Row>, desired: seq<Entry>, mint: Key -> string, x: Row, row: Row) {
    row in rows && x == Extended(rows, desired, mint, row)
  }

  lemma AppliedRow(rows: seq<Row>, desired: seq<Entry>, mint: Key -> string, x: Row)
    requires DistinctKeys(Keys(rows)) && DistinctKeys(EntryKeys(desired)) && x in AppliedRows(rows, desired, mint)
    ensures (exists row :: IsExtended(rows, desired, mint, x, row)) || exists e :: IsNew(rows, desired, mint, x, e)
  {
    var patched := PatchedRows(Additions(rows, desired), mint, rows);
    CreatedRows(rows, desired, mint);
    if x in patched {
      var i :| 0 <= i < |rows| && patched[i] == x;
      assert rows[i] in rows;
      PatchedIsExtended(rows, desired, mint, rows[i]);
      assert IsExtended(rows, desired, mint, x, rows[i]);
    }
  }

  lemma ExtendedApplied(rows: seq<Row>, desired: seq<Entry>, mint: Key -> string, row: Row)
    requires DistinctKeys(Keys(rows)) && DistinctKeys(EntryKeys(desired)) && row in rows
    ensures Extended(rows, desired, mint, row) in AppliedRows(rows, desired, mint)
  {
    var patched := PatchedRows(Additions(rows, desired), mint, rows);
    var i :| 0 <= i < |rows| && rows[i] == row;
    PatchedIsExtended(rows, desired, mint, row);
    assert patched[i] == Extended(rows, desired, mint, row);
  }

  lemma NewApplied(rows: seq<Row>, desired: seq<Entry>, mint: Key -> string, e: Entry)
    requires DistinctKeys(Keys(rows)) && e in desired && e.key !in Keys(rows)
    ensures NewRow(rows, mint, e) in AppliedRows(rows, desired, mint)
  {
    CreatedRows(rows, desired, mint);
  }

  lemma AppliedKeys(rows: seq<Row>, desired: seq<Entry>, mint: Key -> string)
    requires DistinctKeys(Keys(rows)) && DistinctKeys(EntryKeys(desired))
    ensures DistinctKeys(Keys(AppliedRows(rows, desired, mint)))
    ensures forall k :: k in Keys(rows) || k in EntryKeys(desired) ==> k in Keys(AppliedRows(rows, desired, mint))
  {
    var patched := PatchedRows(Additions(rows, desired), mint, rows);
    var created := Created(Additions(rows, desired), mint);
    assert Keys(patched) == Keys(rows);
    assert Keys(patched + created) == Keys(rows) + Keys(created);
    CreatedKeysDistinct(rows, desired, mint);
    CreatedRows(rows, desired, mint);
    forall i, j | 0 <= i < |rows| && 0 <= j < |created|
      ensures Keys(rows)[i] != Keys(created)[j]
    {
      assert created[j] in created;
      var e :| IsNew(rows, desired, mint, created[j], e);
    }
    forall k | k in EntryKeys(desired) && k !in Keys(rows)
      ensures k in Keys(created)
    {
      var i :| 0 <= i < |desired| && EntryKeys(desired)[i] == k;
      assert desired[i] in desired;
      var j :| 0 <= j < |created| && created[j] == NewRow(rows, mint, desired[i]);
      assert Keys(created)[j] == k;
    }
  }

  /** Every key of the applied rows has a row with the id planned for it. */
  lemma AppliedId(rows: seq<Row>, desired: seq<Entry>, mint: Key -> string, k: Key) returns (x: Row)
    requires DistinctKeys(Keys(rows)) && DistinctKeys(EntryKeys(desired)) && (k in Keys(rows) || k in EntryKeys(desired))
    ensures x in AppliedRows(rows, desired, mint) && x.key == k && x.id == IdAfter(rows, mint, k)
  {
    if k in Keys(rows) {
      var row := Lookup(rows, k).value;
      ExtendedApplied(rows, desired, mint, row);
      x := Extended(rows, desired, mint, row);
    } else {
      var e := EntryFor(desired, k).value;
      NewApplied(rows, desired, mint, e);
      x := NewRow(rows, mint, e);
    }
  }

  // ----- No structural conflict appears -----

  lemma MoreKeys(k: Key, targets: seq<Key>, keys: seq<Key>, more: seq<Key>, c: Conflict)
    requires !Malformed(k, targets, keys, c) && DistinctKeys(more)
    requires forall t :: t in keys ==> t in more
    ensures !Malformed(k, targets, more, c)
  {
    DistinctMeansOnce(more);
  }

  lemma {:induction false} OptionCountAppend(a: seq<Key>, b: seq<Key>)
    ensures OptionCount(a + b) == OptionCount(a) + OptionCount(b)
  {
    if b == [] {
      assert a + b == a;
    } else {
      OptionCountAppend(a, b[..|b| - 1]);
      assert (a + b)[..|a + b| - 1] == a + b[..|b| - 1];
    }
  }

  ghost predicate NoRepeat(targets: seq<Key>) {
    forall i, j :: 0 <= i < j < |targets| ==> targets[i] != targets[j]
  }

  lemma {:induction false} MissingNoRepeat(stored: seq<Key>, desired: seq<Key>)
    requires NoRepeat(desired)
    ensures NoRepeat(MissingTargets(stored, desired))
  {
    if desired != [] {
      var n := |desired| - 1;
      MissingNoRepeat(stored, desired[..n]);
      var rest := MissingTargets(stored, desired[..n]);
      assert desired[n] !in rest;
    }
  }

  lemma MergedNoRepeat(stored: seq<Key>, desired: seq<Key>)
    requires NoRepeat(stored) && NoRepeat(desired)
    ensures NoRepeat(stored + MissingTargets(stored, desired))
  {
    MissingNoRepeat(stored, desired);
    var missing := MissingTargets(stored, desired);
    assert forall i :: 0 <= i < |missing| ==> missing[i] in missing && missing[i] !in stored;
  }

  lemma CleanTargets(k: Key, targets: seq<Key>, keys: seq<Key>)
    requires forall c :: !Malformed(k, targets, keys, c)
    ensures NoRepeat(targets)
    ensures forall t :: t in targets ==> Once(keys, t) && AllowedRole(k, t)
    ensures (Parents(k) == {}) == (k.scope == "") && forall p :: p in Parents(k) ==> p in targets
    ensures k.kind == AliasKind ==> OptionCount(targets) == 1
  {
    assert !Malformed(k, targets, keys, InvalidScope(k));
    assert !Malformed(k, targets, keys, DuplicateReference(k));
    assert !Malformed(k, targets, keys, MissingParent(k));
    assert !Malformed(k, targets, keys, AliasNeedsOneTarget(k));
    forall t | t in targets
      ensures Once(keys, t) && AllowedRole(k, t)
    {
      assert !Malformed(k, targets, keys, DanglingReference(k, t));
      assert !Malformed(k, targets, keys, InvalidReferenceRole(k, t));
    }
    forall i, j | 0 <= i < j < |targets|
      ensures targets[i] != targets[j]
    {
      assert targets[i] in targets;
      assert !Twice(targets, targets[i]);
    }
  }

  /** A stored row and its desired row, each clean, merge into a clean row. */
  lemma MergedClean(k: Key, stored: seq<Key>, desired: seq<Key>, keys: seq<Key>, dkeys: seq<Key>, more: seq<Key>, c: Conflict)
    requires (forall d :: !Malformed(k, stored, keys, d)) && forall d :: !Malformed(k, desired, dkeys, d)
    requires DistinctKeys(more) && (forall t :: t in keys ==> t in more) && (forall t :: t in dkeys ==> t in more)
    requires k.kind == AliasKind ==> MissingTargets(stored, desired) == []
    ensures !Malformed(k, stored + MissingTargets(stored, desired), more, c)
  {
    CleanTargets(k, stored, keys);
    CleanTargets(k, desired, dkeys);
    MergedNoRepeat(stored, desired);
    DistinctMeansOnce(more);
    var missing := MissingTargets(stored, desired);
    assert forall t :: t in stored + missing ==> t in stored || t in missing;
    if k.kind == AliasKind {
      assert stored + missing == stored;
    }
  }

  lemma ExtendedTargets(rows: seq<Row>, desired: seq<Entry>, mint: Key -> string, row: Row)
    ensures var x := Extended(rows, desired, mint, row);
            match EntryFor(desired, row.key)
            case None => x == row
            case Some(e) => Targets(x.refs) == Targets(row.refs) + MissingTargets(Targets(row.refs), e.refs)
  {
  }

  lemma ExtendedWellFormed(rows: seq<Row>, desired: seq<Entry>, mint: Key -> string, row: Row, c: Conflict)
    requires CleanRows(rows) && CleanEntries(desired) && Mergeable(rows, desired) && row in rows
    ensures var x := Extended(rows, desired, mint, row);
            !Malformed(x.key, Targets(x.refs), Keys(AppliedRows(rows, desired, mint)), c)
  {
    var more := Keys(AppliedRows(rows, desired, mint));
    AppliedKeys(rows, desired, mint);
    ExtendedTargets(rows, desired, mint, row);
    StoredRowFound(rows, row);
    DistinctMeansOnce(Keys(rows));
    forall d
      ensures !Malformed(row.key, Targets(row.refs), Keys(rows), d)
    {
      StoredClean(rows, row, d);
    }
    match EntryFor(desired, row.key)
    case None => MoreKeys(row.key, Targets(row.refs), Keys(rows), more, c);
    case Some(e) =>
      assert !MergeConflict(rows, e, AliasReinterpreted(e.key));
      MergedClean(row.key, Targets(row.refs), e.refs, Keys(rows), EntryKeys(desired), more, c);
  }

  lemma StoredClean(rows: seq<Row>, row: Row, d: Conflict)
    requires CleanRows(rows) && row in rows
    ensures !Malformed(row.key, Targets(row.refs), Keys(rows), d)
  {
    assert !StoredConflict(rows, row, d);
  }

  lemma NewWellFormed(rows: seq<Row>, desired: seq<Entry>, mint: Key -> string, e: Entry, c: Conflict)
    requires CleanRows(rows) && CleanEntries(desired) && e in desired
    ensures var x := NewRow(rows, mint, e);
            !Malformed(x.key, Targets(x.refs), Keys(AppliedRows(rows, desired, mint)), c)
  {
    AppliedKeys(rows, desired, mint);
    assert Targets(NewRefs(rows, mint, e.refs)) == e.refs;
    MoreKeys(e.key, e.refs, EntryKeys(desired), Keys(AppliedRows(rows, desired, mint)), c);
  }

  // ----- Ids and references stay sound -----

  lemma IdsAfter(s: Snapshot, desired: seq<Entry>, mint: Key -> string, k: Key)
    requires CleanRows(s.rows) && FreshIds(s, desired, mint) && (k in Keys(s.rows) || k in EntryKeys(desired))
    ensures IdAfter(s.rows, mint, k) != ""
  {
    if k in Keys(s.rows) {
      var row := Lookup(s.rows, k).value;
      assert !StoredConflict(s.rows, row, MissingPersistedId(row.key));
    } else {
      assert EntryFor(desired, k).value in desired;
    }
  }

  lemma PlannedResolves(s: Snapshot, desired: seq<Entry>, mint: Key -> string, t: Key)
    requires CleanRows(s.rows) && CleanEntries(desired) && FreshIds(s, desired, mint)
    requires t in Keys(s.rows) || t in EntryKeys(desired)
    ensures Resolves(AppliedRows(s.rows, desired, mint), Ref(t, IdAfter(s.rows, mint, t)))
  {
    IdsAfter(s, desired, mint, t);
    var x := AppliedId(s.rows, desired, mint, t);
  }

  lemma StoredResolves(s: Snapshot, desired: seq<Entry>, mint: Key -> string, row: Row, r: Ref)
    requires CleanRows(s.rows) && CleanEntries(desired) && row in s.rows && r in row.refs
    ensures Resolves(AppliedRows(s.rows, desired, mint), r)
  {
    assert !StoredConflict(s.rows, row, ReferenceIdMismatch(row.key, r.target));
    var q :| q in s.rows && q.key == r.target && q.id == r.id;
    ExtendedApplied(s.rows, desired, mint, q);
    assert Extended(s.rows, desired, mint, q).key == r.target;
  }

  lemma RefsResolve(s: Snapshot, desired: seq<Entry>, mint: Key -> string, x: Row, r: Ref)
    requires CleanRows(s.rows) && CleanEntries(desired) && FreshIds(s, desired, mint)
    requires x in AppliedRows(s.rows, desired, mint) && r in x.refs
    ensures Resolves(AppliedRows(s.rows, desired, mint), r)
  {
    AppliedRow(s.rows, desired, mint, x);
    if row :| IsExtended(s.rows, desired, mint, x, row) {
      if r in row.refs {
        StoredResolves(s, desired, mint, row, r);
      } else {
        var e := EntryFor(desired, row.key).value;
        EntryTargets(desired, e, r.target);
        PlannedResolves(s, desired, mint, r.target);
      }
    } else {
      var e :| IsNew(s.rows, desired, mint, x, e);
      EntryTargets(desired, e, r.target);
      PlannedResolves(s, desired, mint, r.target);
    }
  }

  lemma EntryTargets(desired: seq<Entry>, e: Entry, t: Key)
    requires CleanEntries(desired) && e in desired
    ensures t in e.refs ==> t in EntryKeys(desired)
  {
    assert !Malformed(e.key, e.refs, EntryKeys(desired), DanglingReference(e.key, t));
  }

  /** Where a row of the applied snapshot got its id. */
  predicate StoredId(s: Snapshot, x: Row) {
    exists row :: row in s.rows && row.key == x.key && row.id == x.id
  }

  predicate MintedId(desired: seq<Entry>, mint: Key -> string, x: Row) {
    exists e :: e in desired && e.key == x.key && mint(e.key) == x.id
  }

  lemma IdOrigin(s: Snapshot, desired: seq<Entry>, mint: Key -> string, x: Row)
    requires CleanRows(s.rows) && CleanEntries(desired) && x in AppliedRows(s.rows, desired, mint)
    ensures StoredId(s, x) || MintedId(desired, mint, x)
  {
    AppliedRow(s.rows, desired, mint, x);
    if row :| IsExtended(s.rows, desired, mint, x, row) {
      assert row.key == x.key && row.id == x.id;
    } else {
      var e :| IsNew(s.rows, desired, mint, x, e);
    }
  }

  lemma OriginsApart(s: Snapshot, desired: seq<Entry>, mint: Key -> string, x: Row, y: Row)
    requires CleanRows(s.rows) && FreshIds(s, desired, mint)
    requires StoredId(s, x) || MintedId(desired, mint, x)
    requires StoredId(s, y) || MintedId(desired, mint, y)
    requires x.key.kind == y.key.kind && x.id == y.id
    ensures x.key == y.key && x.id != ""
  {
    if StoredId(s, x) {
      var row :| row in s.rows && row.key == x.key && row.id == x.id;
      assert !StoredConflict(s.rows, row, MissingPersistedId(row.key));
      assert !StoredConflict(s.rows, row, SharedPersistedId(row.key));
    }
  }

  lemma SharedNowhere(s: Snapshot, desired: seq<Entry>, mint: Key -> string, x: Row, y: Row)
    requires CleanRows(s.rows) && CleanEntries(desired) && FreshIds(s, desired, mint)
    requires x in AppliedRows(s.rows, desired, mint) && y in AppliedRows(s.rows, desired, mint)
    requires x.key.kind == y.key.kind && x.id == y.id
    ensures x.key == y.key && x.id != ""
  {
    IdOrigin(s, desired, mint, x);
    IdOrigin(s, desired, mint, y);
    OriginsApart(s, desired, mint, x, y);
  }

  lemma AppliedClean(s: Snapshot, desired: seq<Entry>, mint: Key -> string)
    requires CleanRows(s.rows) && CleanEntries(desired) && Mergeable(s.rows, desired) && FreshIds(s, desired, mint)
    ensures CleanRows(AppliedRows(s.rows, desired, mint))
  {
    var rows := AppliedRows(s.rows, desired, mint);
    AppliedKeys(s.rows, desired, mint);
    forall x, c | x in rows
      ensures !StoredConflict(rows, x, c)
    {
      RowStaysClean(s, desired, mint, x, c);
    }
  }

  lemma RowStaysClean(s: Snapshot, desired: seq<Entry>, mint: Key -> string, x: Row, c: Conflict)
    requires CleanRows(s.rows) && CleanEntries(desired) && Mergeable(s.rows, desired) && FreshIds(s, desired, mint)
    requires x in AppliedRows(s.rows, desired, mint)
    ensures !StoredConflict(AppliedRows(s.rows, desired, mint), x, c)
  {
    var rows := AppliedRows(s.rows, desired, mint);
    match c
    case MissingPersistedId(_) => SharedNowhere(s, desired, mint, x, x);
    case SharedPersistedId(_) =>
      forall q | q in rows && q.key.kind == x.key.kind && q.id == x.id
        ensures q.key == x.key
      {
        SharedNowhere(s, desired, mint, x, q);
      }
    case ReferenceIdMismatch(_, _) =>
      forall r | r in x.refs
        ensures Resolves(rows, r)
      {
        RefsResolve(s, desired, mint, x, r);
      }
    case _ => WellFormedAfter(s.rows, desired, mint, x, c);
  }

  lemma WellFormedAfter(rows: seq<Row>, desired: seq<Entry>, mint: Key -> string, x: Row, c: Conflict)
    requires CleanRows(rows) && CleanEntries(desired) && Mergeable(rows, desired) && x in AppliedRows(rows, desired, mint)
    ensures !Malformed(x.key, Targets(x.refs), Keys(AppliedRows(rows, desired, mint)), c)
  {
    AppliedRow(rows, desired, mint, x);
    if row :| IsExtended(rows, desired, mint, x, row) {
      ExtendedWellFormed(rows, desired, mint, row, c);
    } else {
      var e :| IsNew(rows, desired, mint, x, e);
      NewWellFormed(rows, desired, mint, e, c);
    }
  }

  // ----- Nothing is left to merge -----

  lemma {:induction false} NoneMissing(stored: seq<Key>, desired: seq<Key>)
    requires forall t :: t in desired ==> t in stored
    ensures MissingTargets(stored, desired) == []
  {
    if desired != [] {
      NoneMissing(stored, desired[..|desired| - 1]);
      assert desired[|desired| - 1] in desired;
    }
  }

  lemma FieldsMerged(stored: Fields, e: Fields)
    requires forall f :: f in e && Considered(stored, f) && f in stored && f !in CUSTOM_FIELDS ==> stored[f] == e[f]
    requires forall f :: f in stored && f !in e ==> f in CUSTOM_FIELDS
    ensures var merged := stored + MissingFields(stored, e);
            && MissingFields(merged, e) == map[]
            && (forall f :: f in e && f in merged && f !in CUSTOM_FIELDS ==> merged[f] == e[f])
            && (forall f :: f in merged && f !in e ==> f in CUSTOM_FIELDS)
            && forall f :: f in stored ==> f in merged && merged[f] == stored[f]
  {
    var merged := stored + MissingFields(stored, e);
    assert Archived(stored) ==> Archived(merged);
    assert forall f :: f in e && Considered(merged, f) ==> f in merged;
  }

  /** The row an entry ends up with has all its fields and references. */
  lemma EntryServed(rows: seq<Row>, desired: seq<Entry>, mint: Key -> string, e: Entry) returns (x: Row)
    requires CleanRows(rows) && CleanEntries(desired) && Mergeable(rows, desired) && e in desired
    ensures x in AppliedRows(rows, desired, mint) && x.key == e.key
    ensures MissingFields(x.fields, e.fields) == map[] && MissingTargets(Targets(x.refs), e.refs) == []
    ensures forall f :: f in e.fields && f in x.fields && f !in CUSTOM_FIELDS ==> x.fields[f] == e.fields[f]
    ensures forall f :: f in x.fields && f !in e.fields ==> f in CUSTOM_FIELDS
  {
    EntryFound(desired, e);
    DistinctMeansOnce(Keys(rows));
    if e.key in Keys(rows) {
      var row := Lookup(rows, e.key).value;
      forall f
        ensures f in e.fields && Considered(row.fields, f) && f in row.fields && f !in CUSTOM_FIELDS ==> row.fields[f] == e.fields[f]
        ensures f in row.fields && f !in e.fields ==> f in CUSTOM_FIELDS
      {
        assert !MergeConflict(rows, e, IncompatibleField(e.key, f));
        assert !MergeConflict(rows, e, UnrecognizedField(e.key, f));
      }
      FieldsMerged(row.fields, e.fields);
      ExtendedApplied(rows, desired, mint, row);
      ExtendedTargets(rows, desired, mint, row);
      x := Extended(rows, desired, mint, row);
      NoneMissing(Targets(x.refs), e.refs);
    } else {
      NewApplied(rows, desired, mint, e);
      x := NewRow(rows, mint, e);
      assert Targets(x.refs) == e.refs;
      NoneMissing(Targets(x.refs), e.refs);
      assert MissingFields(e.fields, e.fields) == map[];
    }
  }

  lemma EntryPlace(desired: seq<Entry>, e: Entry) returns (i: nat)
    requires e in desired
    ensures i < |desired| && desired[i] == e && EntryKeys(desired)[i] == e.key && e.key in EntryKeys(desired)
  {
    i :| 0 <= i < |desired| && desired[i] == e;
    assert EntryKeys(desired)[i] == e.key;
  }

  lemma EntryFound(desired: seq<Entry>, e: Entry)
    requires DistinctKeys(EntryKeys(desired)) && e in desired
    ensures EntryFor(desired, e.key) == Some(e)
  {
    var i := EntryPlace(desired, e);
    var found := EntryFor(desired, e.key);
    var j := EntryPlace(desired, found.value);
    assert EntryKeys(desired)[i] == EntryKeys(desired)[j];
  }

  lemma NothingToMerge(s: Snapshot, desired: seq<Entry>, mint: Key -> string, e: Entry)
    requires CleanRows(s.rows) && CleanEntries(desired) && Mergeable(s.rows, desired) && FreshIds(s, desired, mint)
    requires e in desired
    ensures AdditionFor(AppliedRows(s.rows, desired, mint), e).None?
    ensures forall c :: !MergeConflict(AppliedRows(s.rows, desired, mint), e, c)
  {
    var rows := AppliedRows(s.rows, desired, mint);
    AppliedClean(s, desired, mint);
    DistinctMeansOnce(Keys(rows));
    var x := EntryServed(s.rows, desired, mint, e);
    StoredRowFound(rows, x);
  }

  lemma {:induction false} NoAdditions(rows: seq<Row>, desired: seq<Entry>)
    requires forall e :: e in desired ==> AdditionFor(rows, e).None?
    ensures Additions(rows, desired) == []
  {
    if desired != [] {
      assert desired[0] in desired;
      NoAdditions(rows, desired[1..]);
    }
  }

  // ----- Main results -----

  function AfterPlan(s: Snapshot, desired: seq<Entry>, version: string, mint: Key -> string): Snapshot {
    Apply(s, Additions(s.rows, desired), MetadataAddition(s, version), mint)
  }

  /** Applying an applicable plan gives a snapshot whose own plan is applicable and empty. */
  lemma PlanConverges(s: Snapshot, desired: seq<Entry>, version: string, mint: Key -> string)
    requires Applicable(s, desired, version) && FreshIds(s, desired, mint)
    ensures var after := AfterPlan(s, desired, version, mint);
            && Applicable(after, desired, version)
            && Additions(after.rows, desired) == [] && MetadataAddition(after, version).None?
  {
    ApplicableMeans(s, desired, version);
    var after := AfterPlan(s, desired, version, mint);
    AppliedClean(s, desired, mint);
    forall e | e in desired
      ensures AdditionFor(after.rows, e).None?
    {
      NothingToMerge(s, desired, mint, e);
    }
    forall e, c | e in desired
      ensures !MergeConflict(after.rows, e, c)
    {
      NothingToMerge(s, desired, mint, e);
    }
    NoAdditions(after.rows, desired);
    ApplicableMeans(after, desired, version);
  }

  /** An applied plan only extends: every stored row keeps its place, key, id, field values and references. */
  lemma PlanOnlyExtends(s: Snapshot, desired: seq<Entry>, version: string, mint: Key -> string)
    requires Applicable(s, desired, version)
    ensures var after := AfterPlan(s, desired, version, mint);
            && |s.rows| <= |after.rows|
            && (s.version.Some? ==> after.version == s.version)
            && forall i :: 0 <= i < |s.rows| ==>
                 var row, x := s.rows[i], after.rows[i];
                 && x.key == row.key && x.id == row.id && row.refs <= x.refs
                 && forall f :: f in row.fields ==> f in x.fields && x.fields[f] == row.fields[f]
  {
    ApplicableMeans(s, desired, version);
    var after := AfterPlan(s, desired, version, mint);
    forall i | 0 <= i < |s.rows|
      ensures after.rows[i] == Extended(s.rows, desired, mint, s.rows[i])
    {
      assert s.rows[i] in s.rows;
      PatchedIsExtended(s.rows, desired, mint, s.rows[i]);
    }
  }
}
