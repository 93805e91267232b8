/** The plan does not depend on row or reference order: prisma/editorial-production-vocabulary-plan.ts. */
module VocabularyOrder {
  import opened Common
  import opened Permutations
  import opened Vocabulary
  import opened VocabularyConvergence

  /** A row with the order of its references forgotten. */
  datatype BaggedRow = BaggedRow(key: Key, id: string, fields: Fields, refs: multiset<Ref>)

  function Bagged(row: Row): BaggedRow {
    BaggedRow(row.key, row.id, row.fields, multiset(row.refs))
  }

  /** The same rows in another order, each with its references in another order; duplicates included. */
  ghost predicate Reordered(a: seq<Row>, b: seq<Row>) {
    multiset(Mapped(a, Bagged)) == multiset(Mapped(b, Bagged))
  }

  // ----- Keys -----

  lemma TwicePermutes(x: seq<Key>, y: seq<Key>, t: Key)
    requires multiset(x) == multiset(y)
    ensures Twice(x, t) ==> Twice(y, t)
  {
    if Twice(x, t) {
      var i, j :| 0 <= i < j < |x| && x[i] == t && x[j] == t;
      var p, q := PairMoves(x, y, i, j);
      assert y[p] == t && y[q] == t;
    }
  }

  lemma OncePermutes(x: seq<Key>, y: seq<Key>, t: Key)
    requires multiset(x) == multiset(y)
    ensures (t in x <==> t in y) && (Twice(x, t) <==> Twice(y, t)) && (Once(x, t) <==> Once(y, t))
  {
    SameElements(x, y);
    TwicePermutes(x, y, t);
    TwicePermutes(y, x, t);
  }

  lemma {:induction false} OptionCountPermutes(x: seq<Key>, y: seq<Key>)
    requires multiset(x) == multiset(y)
    ensures OptionCount(x) == OptionCount(y)
  {
    SameElements(x, y);
    if x != [] {
      var n := |x| - 1;
      var p := ElementMoves(x, y, n);
      LastApart(x);
      PlaceApart(y, p);
      OptionCountPermutes(x[..n], Without(y, p));
      OptionCountWithout(y, p);
    }
  }

  lemma OptionCountMiddle(left: seq<Key>, t: Key, right: seq<Key>)
    ensures OptionCount(left + [t] + right) == OptionCount(left + right) + if t.kind == OptionKind then 1 else 0
  {
    OptionCountAppend(left + [t], right);
    OptionCountAppend(left, right);
    assert (left + [t])[..|left|] == left;
  }

  lemma OptionCountWithout(y: seq<Key>, p: nat)
    requires p < |y|
    ensures OptionCount(y) == OptionCount(Without(y, p)) + if y[p].kind == OptionKind then 1 else 0
  {
    var left, right := Around(y, p);
    OptionCountMiddle(left, y[p], right);
  }

  /** Structural conflicts look at references and keys as bags. */
  lemma MalformedPermutes(k: Key, x: seq<Key>, y: seq<Key>, a: seq<Key>, b: seq<Key>, c: Conflict)
    requires multiset(x) == multiset(y) && multiset(a) == multiset(b) && Malformed(k, x, a, c)
    ensures Malformed(k, y, b, c)
  {
    SameElements(x, y);
    match c
    case DuplicateReference(_) =>
      var t :| t in x && Twice(x, t);
      TwicePermutes(x, y, t);
    case DanglingReference(_, t) => OncePermutes(a, b, t);
    case MissingParent(_) =>
      var p :| p in Parents(k) && p !in x;
      assert p !in y;
    case AliasNeedsOneTarget(_) => OptionCountPermutes(x, y);
    case _ =>
  }

  function TargetOf(r: Ref): Key {
    r.target
  }

  lemma TargetsPermute(a: seq<Ref>, b: seq<Ref>)
    requires multiset(a) == multiset(b)
    ensures multiset(Targets(a)) == multiset(Targets(b)) && forall t :: t in Targets(a) <==> t in Targets(b)
  {
    assert Targets(a) == Mapped(a, TargetOf) && Targets(b) == Mapped(b, TargetOf);
    BagMapped(a, b, TargetOf);
    SameElements(Targets(a), Targets(b));
  }

  // ----- Rows -----

  lemma RowMoves(a: seq<Row>, b: seq<Row>, row: Row) returns (moved: Row)
    requires Reordered(a, b) && row in a
    ensures moved in b && Bagged(moved) == Bagged(row)
  {
    var i :| 0 <= i < |a| && a[i] == row;
    var p := ElementMoves(Mapped(a, Bagged), Mapped(b, Bagged), i);
    moved := b[p];
  }

  function KeyOf(row: Row): Key {
    row.key
  }

  lemma KeysPermute(a: seq<Row>, b: seq<Row>)
    requires Reordered(a, b)
    ensures multiset(Keys(a)) == multiset(Keys(b))
  {
    assert Keys(a) == Mapped(a, KeyOf) && Keys(b) == Mapped(b, KeyOf);
    MappedMoves(a, b, Bagged, KeyOf);
  }

  lemma OnceMoves(a: seq<Row>, b: seq<Row>, k: Key)
    requires Reordered(a, b)
    ensures Once(Keys(a), k) == Once(Keys(b), k) && Twice(Keys(a), k) == Twice(Keys(b), k) && (k in Keys(a)) == (k in Keys(b))
  {
    KeysPermute(a, b);
    OncePermutes(Keys(a), Keys(b), k);
  }

  lemma UniqueRow(rows: seq<Row>, x: Row)
    requires x in rows && !Twice(Keys(rows), x.key)
    ensures Lookup(rows, x.key) == Some(x)
  {
    var i :| 0 <= i < |rows| && rows[i] == x;
    assert Keys(rows)[i] == x.key;
    var found := Lookup(rows, x.key).value;
    var j :| 0 <= j < |rows| && rows[j] == found;
    assert Keys(rows)[j] == x.key;
  }

  lemma LookupMoves(a: seq<Row>, b: seq<Row>, k: Key)
    requires Reordered(a, b) && !Twice(Keys(a), k)
    ensures Lookup(a, k).Some? == Lookup(b, k).Some?
    ensures Lookup(a, k).Some? ==> Bagged(Lookup(a, k).value) == Bagged(Lookup(b, k).value)
  {
    OnceMoves(a, b, k);
    if Lookup(a, k).Some? {
      var moved := RowMoves(a, b, Lookup(a, k).value);
      UniqueRow(b, moved);
    }
  }

  // ----- Conflicts -----

  lemma StoredConflictMoves(a: seq<Row>, b: seq<Row>, row: Row, moved: Row, c: Conflict)
    requires Reordered(a, b) && Bagged(moved) == Bagged(row) && StoredConflict(a, row, c)
    ensures StoredConflict(b, moved, c)
  {
    match c
    case MissingPersistedId(_) =>
    case SharedPersistedId(_) =>
      var q :| q in a && q.key.kind == row.key.kind && q.id == row.id && q.key != row.key;
      var other := RowMoves(a, b, q);
      assert other.key == q.key && other.id == q.id;
    case ReferenceIdMismatch(_, t) =>
      var r :| r in row.refs && r.target == t && !Resolves(a, r);
      assert r in multiset(row.refs);
      if Resolves(b, r) {
        var q :| q in b && q.key == r.target && q.id == r.id;
        var back := RowMoves(b, a, q);
      }
    case _ =>
      TargetsPermute(row.refs, moved.refs);
      KeysPermute(a, b);
      MalformedPermutes(row.key, Targets(row.refs), Targets(moved.refs), Keys(a), Keys(b), c);
  }

  lemma {:induction false} SameMissing(x: seq<Key>, y: seq<Key>, desired: seq<Key>)
    requires forall t :: t in x <==> t in y
    ensures MissingTargets(x, desired) == MissingTargets(y, desired)
  {
    if desired != [] {
      SameMissing(x, y, desired[..|desired| - 1]);
    }
  }

  lemma MissingMoves(x: seq<Ref>, y: seq<Ref>, desired: seq<Key>)
    requires multiset(x) == multiset(y)
    ensures MissingTargets(Targets(x), desired) == MissingTargets(Targets(y), desired)
  {
    TargetsPermute(x, y);
    SameMissing(Targets(x), Targets(y), desired);
  }

  lemma MergeConflictMoves(a: seq<Row>, b: seq<Row>, e: Entry, c: Conflict)
    requires Reordered(a, b) && MergeConflict(a, e, c)
    ensures MergeConflict(b, e, c)
  {
    LookupMoves(a, b, e.key);
    OnceMoves(a, b, e.key);
    MissingMoves(Lookup(a, e.key).value.refs, Lookup(b, e.key).value.refs, e.refs);
  }

  lemma ConflictMoves(a: seq<Row>, b: seq<Row>, v: Option<string>, desired: seq<Entry>, version: string, c: Conflict)
    requires Reordered(a, b) && Conflicting(Snapshot(v, a), desired, version, c)
    ensures Conflicting(Snapshot(v, b), desired, version, c)
  {
    if c.DuplicateIdentity? && Twice(Keys(a), c.who) {
      OnceMoves(a, b, c.who);
    } else if row :| row in a && StoredConflict(a, row, c) {
      var moved := RowMoves(a, b, row);
      StoredConflictMoves(a, b, row, moved, c);
    } else if e :| e in desired && MergeConflict(a, e, c) {
      MergeConflictMoves(a, b, e, c);
    }
  }

  // ----- Additions -----

  lemma PlannedMoves(a: seq<Row>, b: seq<Row>, targets: seq<Key>)
    requires Reordered(a, b)
    ensures PlannedRefs(a, targets) == PlannedRefs(b, targets)
  {
    forall i | 0 <= i < |targets|
      ensures Vocabulary.Planned(a, targets[i]) == Vocabulary.Planned(b, targets[i])
    {
      OnceMoves(a, b, targets[i]);
      if Once(Keys(a), targets[i]) {
        LookupMoves(a, b, targets[i]);
      }
    }
  }

  lemma AdditionMoves(a: seq<Row>, b: seq<Row>, e: Entry)
    requires Reordered(a, b)
    ensures AdditionFor(a, e) == AdditionFor(b, e)
  {
    OnceMoves(a, b, e.key);
    if !Twice(Keys(a), e.key) {
      LookupMoves(a, b, e.key);
      PlannedMoves(a, b, e.refs);
      if Lookup(a, e.key).Some? {
        var x, y := Lookup(a, e.key).value, Lookup(b, e.key).value;
        MissingMoves(x.refs, y.refs, e.refs);
        PlannedMoves(a, b, MissingTargets(Targets(x.refs), e.refs));
      }
    }
  }

  lemma {:induction false} AdditionsMove(a: seq<Row>, b: seq<Row>, desired: seq<Entry>)
    requires Reordered(a, b)
    ensures Additions(a, desired) == Additions(b, desired)
  {
    if desired != [] {
      AdditionMoves(a, b, desired[0]);
      AdditionsMove(a, b, desired[1..]);
    }
  }

  /** Permuting the stored rows, or any row's references, changes no conflict and no addition. */
  lemma PlanIgnoresOrder(a: seq<Row>, b: seq<Row>, v: Option<string>, desired: seq<Entry>, version: string)
    requires Reordered(a, b)
    ensures forall c :: Conflicting(Snapshot(v, a), desired, version, c) <==> Conflicting(Snapshot(v, b), desired, version, c)
    ensures Applicable(Snapshot(v, a), desired, version) <==> Applicable(Snapshot(v, b), desired, version)
    ensures Additions(a, desired) == Additions(b, desired)
  {
    forall c
      ensures Conflicting(Snapshot(v, a), desired, version, c) <==> Conflicting(Snapshot(v, b), desired, version, c)
    {
      if Conflicting(Snapshot(v, a), desired, version, c) {
        ConflictMoves(a, b, v, desired, version, c);
      } else if Conflicting(Snapshot(v, b), desired, version, c) {
        ConflictMoves(b, a, v, desired, version, c);
      }
    }
    AdditionsMove(a, b, desired);
  }
}
