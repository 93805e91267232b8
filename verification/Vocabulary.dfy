/** The editorial vocabulary planner: prisma/editorial-production-vocabulary-plan.ts.

A plan compares a stored graph of typed rows with a desired one and says what to add. The datatype `Key` stands for
the identity string, which determines it (`VocabularyRanks.IdentityInjective`), and equality of `Value` for equality of
canonical JSON (`Json.CanonicalInjective`).
*/
module Vocabulary {
  import opened Common
  import opened Json

  datatype Kind = FamilyKind | DefinitionKind | OptionKind | UnitKind | GroupKind | AliasKind | BindingKind

  datatype Key = Key(kind: Kind, scope: string, code: string)

  type Fields = map<string, Value>

  /** A stored reference; `id` is empty when the snapshot supplies none. */
  datatype Ref = Ref(target: Key, id: string)

  datatype Row = Row(key: Key, id: string, fields: Fields, refs: seq<Ref>)

  /** A desired row; its references are symbolic. */
  datatype Entry = Entry(key: Key, fields: Fields, refs: seq<Key>)

  datatype Snapshot = Snapshot(version: Option<string>, rows: seq<Row>)

  datatype PlannedRef = PlannedRef(target: Key, id: Option<string>)

  /** Without an id a new row; with one, a patch of only missing fields and references. */
  datatype Addition = Addition(key: Key, fields: Fields, refs: seq<PlannedRef>, id: Option<string>)

  datatype Conflict =
    | DuplicateIdentity(who: Key)
    | MissingPersistedId(who: Key)
    | SharedPersistedId(who: Key)
    | InvalidScope(who: Key)
    | DuplicateReference(who: Key)
    | DanglingReference(who: Key, target: Key)
    | ReferenceIdMismatch(who: Key, target: Key)
    | InvalidReferenceRole(who: Key, target: Key)
    | MissingParent(who: Key)
    | AliasNeedsOneTarget(who: Key)
    | IncompatibleVersion
    | IncompatibleField(who: Key, field: string)
    | UnrecognizedField(who: Key, field: string)
    | AliasReinterpreted(who: Key)

  const CUSTOM_FIELDS := {"label", "description", "sortOrder", "archived", "archivedAt"}

  // ----- Looking rows up -----

  function Keys(rows: seq<Row>): (r: seq<Key>)
    ensures |r| == |rows| && forall i :: 0 <= i < |r| ==> r[i] == rows[i].key
  {
    seq(|rows|, i requires 0 <= i < |rows| => rows[i].key)
  }

  function EntryKeys(entries: seq<Entry>): (r: seq<Key>)
    ensures |r| == |entries| && forall i :: 0 <= i < |r| ==> r[i] == entries[i].key
  {
    seq(|entries|, i requires 0 <= i < |entries| => entries[i].key)
  }

  function Targets(refs: seq<Ref>): (r: seq<Key>)
    ensures |r| == |refs| && forall i :: 0 <= i < |r| ==> r[i] == refs[i].target
  {
    seq(|refs|, i requires 0 <= i < |refs| => refs[i].target)
  }

  predicate Twice(keys: seq<Key>, k: Key) {
    exists i, j :: 0 <= i < j < |keys| && keys[i] == k && keys[j] == k
  }

  predicate Once(keys: seq<Key>, k: Key) {
    k in keys && !Twice(keys, k)
  }

  function Lookup(rows: seq<Row>, k: Key): (r: Option<Row>)
    ensures r.Some? ==> r.value in rows && r.value.key == k
    ensures r.None? <==> k !in Keys(rows)
  {
    if rows == [] then None
    else if rows[0].key == k then assert Keys(rows)[0] == k; Some(rows[0])
    else
      assert Keys(rows) == [rows[0].key] + Keys(rows[1..]);
      Lookup(rows[1..], k)
  }

  // ----- Structure -----

  function Parents(k: Key): set<Key> {
    match k.kind
    case BindingKind => {Key(FamilyKind, "", k.scope), Key(DefinitionKind, "", k.code)}
    case FamilyKind => {}
    case DefinitionKind => {}
    case _ => {Key(DefinitionKind, "", k.scope)}
  }

  predicate AllowedRole(k: Key, target: Key) {
    || target in Parents(k)
    || (target.kind == OptionKind && target.scope == k.scope && (k.kind == GroupKind || k.kind == AliasKind))
  }

  function OptionCount(targets: seq<Key>): nat {
    if targets == [] then 0
    else OptionCount(targets[..|targets| - 1]) + if targets[|targets| - 1].kind == OptionKind then 1 else 0
  }

  /** Structural conflicts of one row, stored or desired, among rows with the given keys. */
  predicate Malformed(k: Key, targets: seq<Key>, keys: seq<Key>, c: Conflict) {
    match c
    case InvalidScope(who) => who == k && (Parents(k) == {}) != (k.scope == "")
    case DuplicateReference(who) => who == k && exists t :: t in targets && Twice(targets, t)
    case DanglingReference(who, t) => who == k && t in targets && !Once(keys, t)
    case InvalidReferenceRole(who, t) => who == k && t in targets && !AllowedRole(k, t)
    case MissingParent(who) => who == k && exists p :: p in Parents(k) && p !in targets
    case AliasNeedsOneTarget(who) => who == k && k.kind == AliasKind && OptionCount(targets) != 1
    case _ => false
  }

  predicate Resolves(rows: seq<Row>, r: Ref) {
    r.id != "" && exists q :: q in rows && q.key == r.target && q.id == r.id
  }

  predicate StoredConflict(rows: seq<Row>, row: Row, c: Conflict) {
    match c
    case MissingPersistedId(who) => who == row.key && row.id == ""
    case SharedPersistedId(who) =>
      who == row.key && exists q :: q in rows && q.key.kind == row.key.kind && q.id == row.id && q.key != row.key
    case ReferenceIdMismatch(who, t) => who == row.key && exists r :: r in row.refs && r.target == t && !Resolves(rows, r)
    case _ => Malformed(row.key, Targets(row.refs), Keys(rows), c)
  }

  // ----- Merging -----

  predicate Truthy(v: Value) {
    match v
    case Null => false
    case Bool(b) => b
    case Number(n) => n != 0
    case Text(s) => s != ""
    case _ => true
  }

  predicate Archived(fields: Fields) {
    "archivedAt" in fields && Truthy(fields["archivedAt"])
  }

  /** A desired field the merge looks at; an archived row keeps its own `archived` flag. */
  predicate Considered(stored: Fields, field: string) {
    !(Archived(stored) && field == "archived")
  }

  function MissingFields(stored: Fields, desired: Fields): Fields {
    map f | f in desired && Considered(stored, f) && f !in stored :: desired[f]
  }

  function MissingTargets(stored: seq<Key>, desired: seq<Key>): (r: seq<Key>)
    ensures forall t :: t in r <==> t in desired && t !in stored
  {
    if desired == [] then []
    else
      var rest := MissingTargets(stored, desired[..|desired| - 1]);
      var t := desired[|desired| - 1];
      if t in stored then rest else rest + [t]
  }

  function Planned(rows: seq<Row>, t: Key): PlannedRef {
    PlannedRef(t, if Once(Keys(rows), t) then Some(Lookup(rows, t).value.id) else None)
  }

  function PlannedRefs(rows: seq<Row>, targets: seq<Key>): (r: seq<PlannedRef>)
    ensures |r| == |targets| && forall i :: 0 <= i < |r| ==> r[i] == Planned(rows, targets[i])
  {
    seq(|targets|, i requires 0 <= i < |targets| => Planned(rows, targets[i]))
  }

  predicate MergeConflict(rows: seq<Row>, e: Entry, c: Conflict) {
    && !Twice(Keys(rows), e.key) && Lookup(rows, e.key).Some?
    && var stored := Lookup(rows, e.key).value;
       match c
       case IncompatibleField(who, f) =>
         && who == e.key && f in e.fields && Considered(stored.fields, f)
         && f in stored.fields && f !in CUSTOM_FIELDS && stored.fields[f] != e.fields[f]
       case UnrecognizedField(who, f) => who == e.key && f in stored.fields && f !in e.fields && f !in CUSTOM_FIELDS
       case AliasReinterpreted(who) =>
         who == e.key && e.key.kind == AliasKind && MissingTargets(Targets(stored.refs), e.refs) != []
       case _ => false
  }

  function AdditionFor(rows: seq<Row>, e: Entry): Option<Addition> {
    if Twice(Keys(rows), e.key) then None
    else
      match Lookup(rows, e.key)
      case None => Some(Addition(e.key, e.fields, PlannedRefs(rows, e.refs), None))
      case Some(stored) =>
        var fields := MissingFields(stored.fields, e.fields);
        var targets := MissingTargets(Targets(stored.refs), e.refs);
        if fields == map[] && targets == [] then None
        else Some(Addition(e.key, fields, PlannedRefs(rows, targets), Some(stored.id)))
  }

  function Additions(rows: seq<Row>, desired: seq<Entry>): seq<Addition> {
    if desired == [] then []
    else
      var rest := Additions(rows, desired[1..]);
      match AdditionFor(rows, desired[0])
      case None => rest
      case Some(a) => [a] + rest
  }

  // ----- The plan -----

  /** Every conflict a plan reports, and nothing else. */
  predicate Conflicting(s: Snapshot, desired: seq<Entry>, version: string, c: Conflict) {
    || (c.DuplicateIdentity? && (Twice(Keys(s.rows), c.who) || Twice(EntryKeys(desired), c.who)))
    || (exists row :: row in s.rows && StoredConflict(s.rows, row, c))
    || (exists e :: e in desired && Malformed(e.key, e.refs, EntryKeys(desired), c))
    || (exists e :: e in desired && MergeConflict(s.rows, e, c))
    || (c == IncompatibleVersion && s.version.Some? && s.version.value != version)
  }

  ghost predicate Applicable(s: Snapshot, desired: seq<Entry>, version: string) {
    forall c :: !Conflicting(s, desired, version, c)
  }

  function MetadataAddition(s: Snapshot, version: string): Option<string> {
    if s.version.None? then Some(version) else None
  }

  // ----- Applying a plan -----

  function Resolved(refs: seq<PlannedRef>, mint: Key -> string): (r: seq<Ref>)
    ensures |r| == |refs| && forall i :: 0 <= i < |r| ==> r[i] == Ref(refs[i].target, refs[i].id.GetOr(mint(refs[i].target)))
  {
    seq(|refs|, i requires 0 <= i < |refs| => Ref(refs[i].target, refs[i].id.GetOr(mint(refs[i].target))))
  }

  function PatchFor(additions: seq<Addition>, k: Key): Option<Addition> {
    if additions == [] then None
    else if additions[0].key == k && additions[0].id.Some? then Some(additions[0])
    else PatchFor(additions[1..], k)
  }

  /** A stored row with its patch merged in; rows the plan does not mention stay as they are. */
  function Patched(additions: seq<Addition>, mint: Key -> string, row: Row): Row {
    PatchedBy(PatchFor(additions, row.key), mint, row)
  }

  function PatchedBy(patch: Option<Addition>, mint: Key -> string, row: Row): Row {
    match patch
    case None => row
    case Some(a) => row.(fields := row.fields + a.fields, refs := row.refs + Resolved(a.refs, mint))
  }

  function PatchedRows(additions: seq<Addition>, mint: Key -> string, rows: seq<Row>): (r: seq<Row>)
    ensures |r| == |rows| && forall i :: 0 <= i < |r| ==> r[i] == Patched(additions, mint, rows[i])
  {
    seq(|rows|, i requires 0 <= i < |rows| => Patched(additions, mint, rows[i]))
  }

  /** The additions without an id, as rows with fresh ids. */
  function Created(additions: seq<Addition>, mint: Key -> string): seq<Row> {
    if additions == [] then []
    else
      var a := additions[0];
      var rest := Created(additions[1..], mint);
      if a.id.Some? then rest else [Row(a.key, mint(a.key), a.fields, Resolved(a.refs, mint))] + rest
  }

  function Apply(s: Snapshot, additions: seq<Addition>, metadata: Option<string>, mint: Key -> string): Snapshot {
    Snapshot(if metadata.Some? then metadata else s.version,
             PatchedRows(additions, mint, s.rows) + Created(additions, mint))
  }

  /** Fresh ids are real, distinct, and unused among the rows of their kind. */
  ghost predicate FreshIds(s: Snapshot, desired: seq<Entry>, mint: Key -> string) {
    && (forall e :: e in desired ==> mint(e.key) != "")
    && (forall e, f :: e in desired && f in desired && mint(e.key) == mint(f.key) ==> e.key == f.key)
    && forall e, row :: e in desired && row in s.rows && row.key.kind == e.key.kind ==> row.id != mint(e.key)
  }
}
