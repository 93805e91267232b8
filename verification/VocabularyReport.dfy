/** The report the planner returns: every list sorted, conflicts listed once; prisma/editorial-production-vocabulary-plan.ts.

The report is a value. It depends on the stored rows only up to their order and the order of their references, and
applying the additions it lists does what the convergence results say of the unsorted ones.
*/
module VocabularyReport {
  import opened Common
  import opened Json
  import opened Permutations
  import opened Sorting
  import opened Vocabulary
  import opened VocabularyConvergence
  import opened VocabularyOrder
  import opened VocabularyRanks

  datatype Plan = Plan(
    applicable: bool,
    metadataAddition: Option<string>,
    additions: seq<Addition>,
    preservations: seq<Row>,
    conflicts: seq<Finding>
  )

  // ----- The parts of a report -----

  function Tidied(row: Row): Row {
    row.(refs := Sort(row.refs, RefRank))
  }

  /** Every stored row, its references in order, in order. */
  function Preservations(rows: seq<Row>): seq<Row> {
    Sort(Mapped(rows, Tidied), RowRank)
  }

  function Arranged(a: Addition): Addition {
    a.(refs := Sort(a.refs, PlannedRank))
  }

  function ArrangedIf(a: Option<Addition>): Option<Addition> {
    if a.None? then None else Some(Arranged(a.value))
  }

  /** The additions as listed, each with its references in order. */
  function ReportedAdditions(rows: seq<Row>, desired: seq<Entry>): seq<Addition> {
    Mapped(Additions(rows, desired), Arranged)
  }

  lemma AdditionsStep(rows: seq<Row>, d: seq<Entry>)
    requires d != []
    ensures ReportedAdditions(rows, d) ==
            match ArrangedIf(AdditionFor(rows, d[0]))
            case None => ReportedAdditions(rows, d[1..])
            case Some(a) => [a] + ReportedAdditions(rows, d[1..])
  {
    var rest := Additions(rows, d[1..]);
    match AdditionFor(rows, d[0])
    case None =>
    case Some(a) =>
      assert Additions(rows, d) == [a] + rest;
      MappedCons(a, rest, Arranged);
  }

  function FindingOf(c: Conflict): Finding {
    match c
    case DuplicateIdentity(who) => Finding(Identity(who), "duplicate identity")
    case MissingPersistedId(who) => Finding(Identity(who), "missing persisted ID")
    case SharedPersistedId(who) => Finding(Identity(who), "persisted ID resolves multiple rows")
    case InvalidScope(who) => Finding(Identity(who), "invalid scope")
    case DuplicateReference(who) => Finding(Identity(who), "duplicate reference")
    case DanglingReference(who, t) => Finding(Identity(who), "dangling or ambiguous reference: " + Identity(t))
    case ReferenceIdMismatch(who, t) => Finding(Identity(who), "reference ID mismatch: " + Identity(t))
    case InvalidReferenceRole(who, t) => Finding(Identity(who), "invalid reference role: " + Identity(t))
    case MissingParent(who) => Finding(Identity(who), "missing parent reference")
    case AliasNeedsOneTarget(who) => Finding(Identity(who), "alias requires one target")
    case IncompatibleVersion => Finding("semanticsVersion", "incompatible semantics version")
    case IncompatibleField(who, f) => Finding(Identity(who), "incompatible field: " + f)
    case UnrecognizedField(who, f) => Finding(Identity(who), "unrecognized semantic field: " + f)
    case AliasReinterpreted(who) => Finding(Identity(who), "alias target reinterpretation")
  }

  ghost predicate Found(s: Snapshot, desired: seq<Entry>, version: string, f: Finding) {
    exists c :: Conflicting(s, desired, version, c) && FindingOf(c) == f
  }

  /** The conflicts, each once, in the order of their texts. */
  ghost predicate Listing(conflicts: seq<Finding>, s: Snapshot, desired: seq<Entry>, version: string) {
    Strict(conflicts, FindingRank) && forall f :: f in conflicts <==> Found(s, desired, version, f)
  }

  ghost predicate IsPlan(p: Plan, s: Snapshot, desired: seq<Entry>, version: string) {
    && (p.applicable <==> Applicable(s, desired, version))
    && p.metadataAddition == MetadataAddition(s, version)
    && p.additions == ReportedAdditions(s.rows, desired)
    && p.preservations == Preservations(s.rows)
    && Listing(p.conflicts, s, desired, version)
  }

  // ----- Order does not matter -----

  lemma TidiedForgets(x: Row, y: Row)
    ensures Tidied(x) == Tidied(y) <==> Bagged(x) == Bagged(y)
  {
    RefsFaithful();
    SortForgetsOrder(x.refs, y.refs, RefRank);
  }

  /** Two sets of stored rows are preserved alike exactly when they are the same rows up to order, duplicates included. */
  lemma PreservationsForgetOrder(a: seq<Row>, b: seq<Row>)
    ensures Preservations(a) == Preservations(b) <==> Reordered(a, b)
  {
    forall x: Row, y: Row
      ensures Tidied(x) == Tidied(y) <==> Bagged(x) == Bagged(y)
    {
      TidiedForgets(x, y);
    }
    RowsFaithful();
    SortForgetsOrder(Mapped(a, Tidied), Mapped(b, Tidied), RowRank);
    if Reordered(a, b) {
      MappedMoves(a, b, Bagged, Tidied);
    } else if Preservations(a) == Preservations(b) {
      MappedMoves(a, b, Tidied, Bagged);
    }
  }

  lemma ListingsAgree(p: seq<Finding>, q: seq<Finding>, a: seq<Row>, b: seq<Row>, v: Option<string>, desired: seq<Entry>, version: string)
    requires Listing(p, Snapshot(v, a), desired, version) && Listing(q, Snapshot(v, b), desired, version) && Reordered(a, b)
    ensures p == q
  {
    PlanIgnoresOrder(a, b, v, desired, version);
    FindingsFaithful();
    forall f
      ensures f in p <==> f in q
    {
      FoundAlike(Snapshot(v, a), Snapshot(v, b), desired, version, f);
    }
    StrictUnique(p, q, FindingRank);
  }

  lemma FoundAlike(s: Snapshot, t: Snapshot, desired: seq<Entry>, version: string, f: Finding)
    requires forall c :: Conflicting(s, desired, version, c) <==> Conflicting(t, desired, version, c)
    ensures Found(s, desired, version, f) <==> Found(t, desired, version, f)
  {
    if Found(s, desired, version, f) {
      var c :| Conflicting(s, desired, version, c) && FindingOf(c) == f;
      assert Conflicting(t, desired, version, c);
    }
    if Found(t, desired, version, f) {
      var c :| Conflicting(t, desired, version, c) && FindingOf(c) == f;
      assert Conflicting(s, desired, version, c);
    }
  }

  /** Two snapshots of one version get the same report, list by list, exactly when they hold the same rows up to order. */
  lemma ReportIgnoresOrder(p: Plan, q: Plan, a: seq<Row>, b: seq<Row>, v: Option<string>, desired: seq<Entry>, version: string)
    requires IsPlan(p, Snapshot(v, a), desired, version) && IsPlan(q, Snapshot(v, b), desired, version)
    ensures p == q <==> Reordered(a, b)
  {
    PreservationsForgetOrder(a, b);
    if Reordered(a, b) {
      PlanIgnoresOrder(a, b, v, desired, version);
      ListingsAgree(p.conflicts, q.conflicts, a, b, v, desired, version);
    }
  }

  /** A report blocks exactly when it lists a conflict. */
  lemma BlockedIffListed(p: Plan, s: Snapshot, desired: seq<Entry>, version: string)
    requires IsPlan(p, s, desired, version)
    ensures p.applicable <==> p.conflicts == []
  {
    if p.conflicts != [] {
      assert p.conflicts[0] in p.conflicts;
      assert Found(s, desired, version, p.conflicts[0]);
    }
    if !Applicable(s, desired, version) {
      var c :| Conflicting(s, desired, version, c);
      assert Found(s, desired, version, FindingOf(c));
      assert FindingOf(c) in p.conflicts;
    }
  }

  // ----- Applying a report -----

  function AfterReport(s: Snapshot, desired: seq<Entry>, version: string, mint: Key -> string): Snapshot {
    Apply(s, ReportedAdditions(s.rows, desired), MetadataAddition(s, version), mint)
  }

  function Resolver(mint: Key -> string): PlannedRef -> Ref {
    (r: PlannedRef) => Ref(r.target, r.id.GetOr(mint(r.target)))
  }

  lemma ResolvedMoves(refs: seq<PlannedRef>, mint: Key -> string)
    ensures multiset(Resolved(Sort(refs, PlannedRank), mint)) == multiset(Resolved(refs, mint))
  {
    SortPermutes(refs, PlannedRank);
    BagMapped(Sort(refs, PlannedRank), refs, Resolver(mint));
    assert Resolved(refs, mint) == Mapped(refs, Resolver(mint));
    assert Resolved(Sort(refs, PlannedRank), mint) == Mapped(Sort(refs, PlannedRank), Resolver(mint));
  }

  lemma {:induction false} PatchArranged(additions: seq<Addition>, k: Key)
    ensures PatchFor(Mapped(additions, Arranged), k) ==
            match PatchFor(additions, k) case None => None case Some(a) => Some(Arranged(a))
  {
    if additions != [] {
      MappedTail(additions, Arranged);
      PatchArranged(additions[1..], k);
    }
  }

  lemma RowPatchedAlike(additions: seq<Addition>, mint: Key -> string, row: Row)
    ensures Bagged(Patched(Mapped(additions, Arranged), mint, row)) == Bagged(Patched(additions, mint, row))
  {
    PatchArranged(additions, row.key);
    match PatchFor(additions, row.key)
    case None =>
    case Some(a) => ResolvedMoves(a.refs, mint);
  }

  lemma {:induction false} CreatedAlike(additions: seq<Addition>, mint: Key -> string)
    ensures Mapped(Created(Mapped(additions, Arranged), mint), Bagged) == Mapped(Created(additions, mint), Bagged)
  {
    if additions != [] {
      MappedTail(additions, Arranged);
      CreatedAlike(additions[1..], mint);
      ResolvedMoves(additions[0].refs, mint);
      var a, rest, other := additions[0], Created(additions[1..], mint), Created(Mapped(additions[1..], Arranged), mint);
      if a.id.None? {
        MappedCons(Row(a.key, mint(a.key), a.fields, Resolved(a.refs, mint)), rest, Bagged);
        MappedCons(Row(a.key, mint(a.key), a.fields, Resolved(Sort(a.refs, PlannedRank), mint)), other, Bagged);
      }
    }
  }

  lemma AfterAlike(s: Snapshot, desired: seq<Entry>, version: string, mint: Key -> string)
    ensures var after, plain := AfterReport(s, desired, version, mint), AfterPlan(s, desired, version, mint);
            after.version == plain.version && Mapped(after.rows, Bagged) == Mapped(plain.rows, Bagged)
  {
    var additions := Additions(s.rows, desired);
    var sorted := ReportedAdditions(s.rows, desired);
    forall i | 0 <= i < |s.rows|
      ensures Bagged(Patched(sorted, mint, s.rows[i])) == Bagged(Patched(additions, mint, s.rows[i]))
    {
      RowPatchedAlike(additions, mint, s.rows[i]);
    }
    assert Mapped(PatchedRows(sorted, mint, s.rows), Bagged) == Mapped(PatchedRows(additions, mint, s.rows), Bagged);
    CreatedAlike(additions, mint);
    MappedAppend(PatchedRows(sorted, mint, s.rows), Created(sorted, mint), Bagged);
    MappedAppend(PatchedRows(additions, mint, s.rows), Created(additions, mint), Bagged);
  }

  // ----- Main results -----

  /** Applying an applicable report gives a snapshot whose own report is applicable and lists nothing to add. */
  lemma ReportConverges(s: Snapshot, desired: seq<Entry>, version: string, mint: Key -> string, next: Plan)
    requires Applicable(s, desired, version) && FreshIds(s, desired, mint)
    requires IsPlan(next, AfterReport(s, desired, version, mint), desired, version)
    ensures next.applicable && next.additions == [] && next.metadataAddition.None? && next.conflicts == []
  {
    var after, plain := AfterReport(s, desired, version, mint), AfterPlan(s, desired, version, mint);
    PlanConverges(s, desired, version, mint);
    AfterAlike(s, desired, version, mint);
    PlanIgnoresOrder(after.rows, plain.rows, plain.version, desired, version);
    assert after == Snapshot(plain.version, after.rows) && plain == Snapshot(plain.version, plain.rows);
    BlockedIffListed(next, after, desired, version);
  }

  /** Applying a report only extends: every stored row keeps its place, key, id, field values and references. */
  lemma ReportOnlyExtends(s: Snapshot, desired: seq<Entry>, version: string, mint: Key -> string)
    requires Applicable(s, desired, version)
    ensures var after := AfterReport(s, desired, version, mint);
            && |s.rows| <= |after.rows|
            && (s.version.Some? ==> after.version == s.version)
            && forall i :: 0 <= i < |s.rows| ==>
                 var row, x := s.rows[i], after.rows[i];
                 && x.key == row.key && x.id == row.id && row.refs <= x.refs
                 && forall f :: f in row.fields ==> f in x.fields && x.fields[f] == row.fields[f]
  {
    var after, plain := AfterReport(s, desired, version, mint), AfterPlan(s, desired, version, mint);
    PlanOnlyExtends(s, desired, version, mint);
    AfterAlike(s, desired, version, mint);
    assert |after.rows| == |Mapped(after.rows, Bagged)| == |plain.rows|;
    forall i | 0 <= i < |s.rows|
      ensures Bagged(after.rows[i]) == Bagged(plain.rows[i]) && s.rows[i].refs <= after.rows[i].refs
    {
      assert Mapped(after.rows, Bagged)[i] == Mapped(plain.rows, Bagged)[i];
      assert after.rows[i] == Patched(ReportedAdditions(s.rows, desired), mint, s.rows[i]);
    }
  }
}
