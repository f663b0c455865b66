/**
 The recorded history of installed module migrations: what each successful
 migration transaction writes about every module, how strictly it is read back,
 and what the next transaction must agree with before it may run. A recorded
 revision is never removed or rewritten and a module's version never falls; a
 written row reads back exactly when its module is canonical, and agrees with the
 plan it came from exactly when its version parses.
 */
module MigrationHistory {
  import opened Wrappers
  import opened Paths
  import opened Sorting

  type ModuleId = nat
  type RevisionId = nat
  type Text = nat

  const FORMAT: int := 2

  datatype Source = Source(owner: ModuleId, namespace: Text, location: Text, distribution: Text)

  datatype Revision = Revision(
    id: RevisionId, owner: ModuleId, parents: seq<RevisionId>, dependencies: seq<RevisionId>, labels: seq<Text>,
    location: Text, distribution: Text, fingerprint: Text)

  datatype Plan = Plan(sources: seq<Source>, revisions: seq<Revision>)

  /** A registered module that has migrations. */
  datatype Registered = Registered(id: ModuleId, version: Text, namespace: Text)

  datatype StoredRevision = StoredRevision(
    id: RevisionId, parents: seq<RevisionId>, dependencies: seq<RevisionId>, labels: seq<Text>,
    location: Text, distribution: Text, fingerprint: Text)

  datatype Row = Row(
    version: Text, namespace: Text, locations: seq<Text>, revisionIds: seq<RevisionId>,
    distribution: Option<Text>, format: Option<int>, manifest: seq<StoredRevision>)

  /** The canonical patterns, and the ordering number of a version text that parses. */
  datatype Rules = Rules(
    isModule: ModuleId -> bool, isNamespace: Text -> bool, isRevision: RevisionId -> bool, isLocation: Text -> bool,
    isDistribution: Text -> bool, isFingerprint: Text -> bool, version: Text -> Option<int>)

  type Rows = map<ModuleId, Row>

  datatype Problem =
    | Malformed | RevisionsUnavailable | PackageUnavailable | NamespaceChanged | LocationChanged | DistributionChanged
    | RevisionRemoved | Downgrade | BadVersion | HistoryRemoved | HistoryRewritten | SchemaFailed

  // ---- What is written ----

  predicate UpTo(a: nat, b: nat) {
    a <= b
  }

  function Sorted(s: seq<nat>): seq<nat> {
    Sort(s, UpTo)
  }

  predicate ById(a: Revision, b: Revision) {
    a.id <= b.id
  }

  function SourcesOf(plan: Plan, m: ModuleId): (r: seq<Source>)
    ensures forall x :: x in r <==> x in plan.sources && x.owner == m
  {
    Keep(plan.sources, (x: Source) => x.owner == m)
  }

  function RevisionsOf(plan: Plan, m: ModuleId): (r: seq<Revision>)
    ensures forall x :: x in r <==> x in plan.revisions && x.owner == m
  {
    Keep(plan.revisions, (x: Revision) => x.owner == m)
  }

  function Keep<T(!new)>(s: seq<T>, wanted: T -> bool): (r: seq<T>)
    ensures forall x :: x in r <==> x in s && wanted(x)
  {
    if s == [] then [] else if wanted(s[0]) then [s[0]] + Keep(s[1..], wanted) else Keep(s[1..], wanted)
  }

  function Each<T, U>(s: seq<T>, f: T -> U): (r: seq<U>)
    ensures |r| == |s| && forall i :: 0 <= i < |s| ==> r[i] == f(s[i])
  {
    seq(|s|, i requires 0 <= i < |s| => f(s[i]))
  }

  function IdsOf(revisions: seq<Revision>): seq<RevisionId> {
    Each(revisions, (x: Revision) => x.id)
  }

  function LocationsOf(sources: seq<Source>): seq<Text> {
    Each(sources, (x: Source) => x.location)
  }

  function Recorded(x: Revision): StoredRevision {
    StoredRevision(x.id, Sorted(x.parents), Sorted(x.dependencies), Sorted(x.labels), x.location, x.distribution,
      x.fingerprint)
  }

  /** The manifest of a module's revisions, in revision order. */
  function ManifestOf(revisions: seq<Revision>): seq<StoredRevision> {
    Each(Sort(revisions, ById), Recorded)
  }

  function NewRow(plan: Plan, m: Registered): Row
    requires SourcesOf(plan, m.id) != []
  {
    Row(m.version, m.namespace, Sorted(LocationsOf(SourcesOf(plan, m.id))), Sorted(IdsOf(RevisionsOf(plan, m.id))),
        Some(SourcesOf(plan, m.id)[0].distribution), Some(FORMAT), ManifestOf(RevisionsOf(plan, m.id)))
  }

  function Persist(rows: Rows, plan: Plan, modules: seq<Registered>): Result<Rows, Problem>
    decreases |modules|
  {
    if modules == [] then Ok(rows)
    else
      var n := |modules| - 1;
      match Persist(rows, plan, modules[..n])
      case Err(problem) => Err(problem)
      case Ok(before) =>
        if SourcesOf(plan, modules[n].id) == [] then Err(PackageUnavailable)
        else Ok(before[modules[n].id := NewRow(plan, modules[n])])
  }

  // ---- What is read back ----

  predicate Canonical(s: seq<nat>, pattern: nat -> bool) {
    Distinct(s) && forall i :: 0 <= i < |s| ==> pattern(s[i])
  }

  predicate ReadsRevision(rules: Rules, x: StoredRevision) {
    && rules.isRevision(x.id) && Canonical(x.parents, rules.isRevision) && Canonical(x.dependencies, rules.isRevision)
    && Canonical(x.labels, rules.isNamespace)
    && rules.isLocation(x.location) && rules.isDistribution(x.distribution) && rules.isFingerprint(x.fingerprint)
  }

  function StoredIds(manifest: seq<StoredRevision>): seq<RevisionId> {
    Each(manifest, (x: StoredRevision) => x.id)
  }

  /** The strict reader of the current format. */
  predicate ReadsCurrent(rules: Rules, m: ModuleId, row: Row) {
    && rules.isModule(m) && rules.version(row.version).Some? && rules.isNamespace(row.namespace)
    && row.locations != [] && Canonical(row.locations, rules.isLocation)
    && row.revisionIds != [] && Canonical(row.revisionIds, rules.isRevision)
    && row.distribution.Some? && rules.isDistribution(row.distribution.value)
    && row.manifest != [] && Distinct(StoredIds(row.manifest)) && StoredIds(row.manifest) == row.revisionIds
    && ManifestReads(rules, row.locations, row.distribution.value, row.manifest)
  }

  /** Every entry is canonical and belongs to this row's locations and distribution. */
  predicate ManifestReads(rules: Rules, locations: seq<Text>, distribution: Text, manifest: seq<StoredRevision>) {
    forall i :: 0 <= i < |manifest| ==>
      ReadsRevision(rules, manifest[i]) && manifest[i].location in locations && manifest[i].distribution == distribution
  }

  /** Rows of the format before it, or of none, carry no manifest. */
  predicate ReadsLegacy(rules: Rules, m: ModuleId, row: Row) {
    && (row.format.None? || row.format == Some(1))
    && rules.isModule(m) && rules.version(row.version).Some? && rules.isNamespace(row.namespace)
    && row.locations != [] && Canonical(row.locations, rules.isLocation)
    && row.revisionIds != [] && Canonical(row.revisionIds, rules.isRevision)
  }

  predicate Reads(rules: Rules, m: ModuleId, row: Row) {
    if row.format == Some(FORMAT) then ReadsCurrent(rules, m, row) else ReadsLegacy(rules, m, row)
  }

  // ---- What the next plan must agree with ----

  function StoredManifest(row: Row): seq<StoredRevision> {
    if row.format == Some(FORMAT) then row.manifest else []
  }

  /** The manifest entry of an id in the present plan; ids are unique there. */
  predicate StillRecorded(plan: Plan, m: ModuleId, x: StoredRevision) {
    x in ManifestOf(RevisionsOf(plan, m))
  }

  predicate StillListed(plan: Plan, m: ModuleId, id: RevisionId) {
    id in IdsOf(RevisionsOf(plan, m))
  }

  function StoredProblem(rules: Rules, plan: Plan, m: ModuleId, stored: Row, current: Option<Text>): Option<Problem> {
    var sources := SourcesOf(plan, m);
    if sources == [] then Some(PackageUnavailable)
    else if stored.namespace != sources[0].namespace then Some(NamespaceChanged)
    else if Sorted(stored.locations) != Sorted(LocationsOf(sources)) then Some(LocationChanged)
    else if stored.format == Some(FORMAT) && stored.distribution != Some(sources[0].distribution)
      then Some(DistributionChanged)
    else if exists i :: 0 <= i < |stored.revisionIds| && !StillListed(plan, m, stored.revisionIds[i])
      then Some(RevisionRemoved)
    else if current.None? || rules.version(current.value).None? || rules.version(stored.version).None?
      then Some(BadVersion)
    else if rules.version(current.value).value < rules.version(stored.version).value then Some(Downgrade)
    else
      var manifest := StoredManifest(stored);
      if exists i :: 0 <= i < |manifest| && !StillListed(plan, m, manifest[i].id) then Some(HistoryRemoved)
      else if exists i :: 0 <= i < |manifest| && !StillRecorded(plan, m, manifest[i]) then Some(HistoryRewritten)
      else None
  }

  function VersionOf(modules: seq<Registered>, m: ModuleId): Option<Text> {
    if modules == [] then None else if modules[0].id == m then Some(modules[0].version) else VersionOf(modules[1..], m)
  }

  /** The first disagreement with the stored modules, in module order. */
  function StoredProblems(
    rules: Rules, plan: Plan, modules: seq<Registered>, rows: Rows, order: seq<ModuleId>): Option<Problem>
    requires forall m :: m in order ==> m in rows
    decreases |order|
  {
    if order == [] then None
    else
      var first := StoredProblem(rules, plan, order[0], rows[order[0]], VersionOf(modules, order[0]));
      if first.Some? then first else StoredProblems(rules, plan, modules, rows, order[1..])
  }

  // ---- One migration transaction ----

  datatype State = State(rows: Rows, applied: set<RevisionId>)

  /** One attempt: its plan and modules, and the revisions applied afterwards if the schema steps succeed. */
  datatype Attempt = Attempt(plan: Plan, modules: seq<Registered>, applied: Option<set<RevisionId>>)

  function Known(plan: Plan): (ids: set<RevisionId>)
    ensures forall id :: id in ids <==> exists x :: x in plan.revisions && x.id == id
  {
    set x | x in plan.revisions :: x.id
  }

  function Inspect(rules: Rules, s: State, a: Attempt): Option<Problem> {
    if !(s.applied <= Known(a.plan)) then Some(RevisionsUnavailable)
    else if exists m :: m in s.rows && !Reads(rules, m, s.rows[m]) then Some(Malformed)
    else if exists m :: m in s.rows && SourcesOf(a.plan, m) == [] then Some(PackageUnavailable)
    else StoredProblems(rules, a.plan, a.modules, s.rows, Ascending(s.rows.Keys))
  }

  /** Check, migrate, record, commit; any failure leaves the database as it was. */
  function Migrate(rules: Rules, s: State, a: Attempt): Result<State, Problem> {
    var problem := Inspect(rules, s, a);
    if problem.Some? then Err(problem.value)
    else if a.applied.None? then Err(SchemaFailed)
    else
      match Persist(s.rows, a.plan, a.modules)
      case Err(p) => Err(p)
      case Ok(rows) => Ok(State(rows, a.applied.value))
  }

  function Next(rules: Rules, s: State, a: Attempt): State {
    match Migrate(rules, s, a)
    case Ok(n) => n
    case Err(_) => s
  }

  function Run(rules: Rules, s: State, attempts: seq<Attempt>): State
    decreases |attempts|
  {
    if attempts == [] then s else Run(rules, Next(rules, s, attempts[0]), attempts[1..])
  }

  // ---- History is append-only ----

  /** A module is registered once, which is how the registry hands modules out. */
  predicate OncePerModule(modules: seq<Registered>) {
    forall i, j :: 0 <= i < j < |modules| ==> modules[i].id != modules[j].id
  }

  lemma {:induction false} PersistFacts(rows: Rows, plan: Plan, modules: seq<Registered>)
    requires Persist(rows, plan, modules).Ok?
    ensures
      var n := Persist(rows, plan, modules).value;
      && (forall m :: m in rows ==> m in n)
      && (forall m :: m in n ==> (m in rows && n[m] == rows[m]) || WrittenFor(plan, modules, m, n[m]))
      && (forall r :: r in modules ==> r.id in n)
    decreases |modules|
  {
    if modules != [] {
      hide NewRow, SourcesOf, WrittenFor, WrittenBy, Persist;
      var n := |modules| - 1;
      PersistUnfolds(rows, plan, modules);
      PersistFacts(rows, plan, modules[..n]);
      LastIsWritten(plan, modules);
      var before, after := Persist(rows, plan, modules[..n]).value, Persist(rows, plan, modules).value;
      forall m | m in after ensures (m in rows && after[m] == rows[m]) || WrittenFor(plan, modules, m, after[m]) {
        if m in before && WrittenFor(plan, modules[..n], m, before[m]) {
          StillWritten(plan, modules, m, before[m]);
        }
      }
      FirstOnes(modules);
    }
  }

  lemma FirstOnes(modules: seq<Registered>)
    requires modules != []
    ensures forall r :: r in modules ==> r in modules[..|modules| - 1] || r == modules[|modules| - 1]
  {
    assert modules == modules[..|modules| - 1] + [modules[|modules| - 1]];
  }

  lemma PersistUnfolds(rows: Rows, plan: Plan, modules: seq<Registered>)
    requires modules != [] && Persist(rows, plan, modules).Ok?
    ensures
      var n := |modules| - 1;
      && Persist(rows, plan, modules[..n]).Ok? && SourcesOf(plan, modules[n].id) != []
      && Persist(rows, plan, modules).value ==
           Persist(rows, plan, modules[..n]).value[modules[n].id := NewRow(plan, modules[n])]
  {
    hide NewRow, SourcesOf;
  }

  lemma StillWritten(plan: Plan, modules: seq<Registered>, m: ModuleId, row: Row)
    requires modules != [] && WrittenFor(plan, modules[..|modules| - 1], m, row)
    ensures WrittenFor(plan, modules, m, row)
  {
    hide WrittenBy;
    var i :| 0 <= i < |modules| - 1 && WrittenBy(plan, modules[..|modules| - 1][i], m, row);
    assert WrittenBy(plan, modules[i], m, row);
  }

  lemma LastIsWritten(plan: Plan, modules: seq<Registered>)
    requires modules != [] && SourcesOf(plan, modules[|modules| - 1].id) != []
    ensures WrittenFor(plan, modules, modules[|modules| - 1].id, NewRow(plan, modules[|modules| - 1]))
  {
    hide SourcesOf, NewRow;
    assert WrittenBy(plan, modules[|modules| - 1], modules[|modules| - 1].id, NewRow(plan, modules[|modules| - 1]));
  }

  predicate WrittenBy(plan: Plan, r: Registered, m: ModuleId, row: Row) {
    r.id == m && SourcesOf(plan, r.id) != [] && row == NewRow(plan, r)
  }

  predicate WrittenFor(plan: Plan, modules: seq<Registered>, m: ModuleId, row: Row) {
    exists i :: 0 <= i < |modules| && WrittenBy(plan, modules[i], m, row)
  }

  /**
   A later row of a module agrees with an earlier one: its recorded revisions are kept
   word for word and its version has not fallen.
   */
  ghost predicate Continues(rules: Rules, before: Row, after: Row) {
    && (before.format == Some(FORMAT) ==>
          after.format == Some(FORMAT) && forall x :: x in before.manifest ==> x in after.manifest)
    && (rules.version(before.version).Some? ==>
          rules.version(after.version).Some?
            && rules.version(before.version).value <= rules.version(after.version).value)
  }

  ghost predicate HistoryContinues(rules: Rules, s: State, n: State) {
    forall m :: m in s.rows ==> m in n.rows && Continues(rules, s.rows[m], n.rows[m])
  }

  lemma {:induction false} NoStoredProblem(
    rules: Rules, plan: Plan, modules: seq<Registered>, rows: Rows, order: seq<ModuleId>, m: ModuleId)
    requires (forall k :: k in order ==> k in rows) && m in order
    requires StoredProblems(rules, plan, modules, rows, order).None?
    ensures StoredProblem(rules, plan, m, rows[m], VersionOf(modules, m)).None?
    decreases |order|
  {
    hide StoredProblem;
    if order[0] != m {
      NoStoredProblem(rules, plan, modules, rows, order[1..], m);
    }
  }

  lemma {:induction false} VersionOfRegistered(modules: seq<Registered>, i: nat)
    requires OncePerModule(modules) && i < |modules|
    ensures VersionOf(modules, modules[i].id) == Some(modules[i].version)
    decreases |modules|
  {
    if i > 0 {
      VersionOfRegistered(modules[1..], i - 1);
    }
  }

  /** A row the present plan agrees with is continued by the row the plan writes. */
  lemma AgreedRowContinues(rules: Rules, plan: Plan, r: Registered, stored: Row)
    requires StoredProblem(rules, plan, r.id, stored, Some(r.version)).None?
    ensures Continues(rules, stored, NewRow(plan, r))
  {
    hide StoredProblem, NewRow, StillRecorded;
    AgreementFacts(rules, plan, r.id, stored, r.version);
    NewRowFields(plan, r);
    forall x | stored.format == Some(FORMAT) && x in stored.manifest ensures x in NewRow(plan, r).manifest {
      RecordedIsWritten(plan, r, x);
    }
  }

  lemma AgreementFacts(rules: Rules, plan: Plan, m: ModuleId, stored: Row, current: Text)
    requires StoredProblem(rules, plan, m, stored, Some(current)).None?
    ensures SourcesOf(plan, m) != []
    ensures stored.format == Some(FORMAT) ==> forall x :: x in stored.manifest ==> StillRecorded(plan, m, x)
    ensures rules.version(current).Some? && rules.version(stored.version).Some?
    ensures rules.version(stored.version).value <= rules.version(current).value
  {
    hide StillRecorded, StillListed, Sorted, SourcesOf;
    forall x | stored.format == Some(FORMAT) && x in stored.manifest ensures StillRecorded(plan, m, x) {
      var i :| 0 <= i < |stored.manifest| && stored.manifest[i] == x;
      assert StoredManifest(stored)[i] == x;
    }
  }

  lemma NewRowFields(plan: Plan, r: Registered)
    requires SourcesOf(plan, r.id) != []
    ensures NewRow(plan, r).format == Some(FORMAT) && NewRow(plan, r).version == r.version
  {
    hide SourcesOf, Sorted, ManifestOf;
  }

  lemma RecordedIsWritten(plan: Plan, r: Registered, x: StoredRevision)
    requires SourcesOf(plan, r.id) != [] && StillRecorded(plan, r.id, x)
    ensures x in NewRow(plan, r).manifest
  {
    hide SourcesOf, Sorted, ManifestOf;
  }

  /** No migration transaction removes or rewrites a recorded revision or lowers a recorded version. */
  lemma MigrationContinuesHistory(rules: Rules, s: State, a: Attempt)
    requires OncePerModule(a.modules)
    ensures HistoryContinues(rules, s, Next(rules, s, a))
  {
    hide Continues, NewRow, StoredProblem, SourcesOf, WrittenFor;
    var n := Next(rules, s, a);
    if Migrate(rules, s, a).Ok? {
      PersistFacts(s.rows, a.plan, a.modules);
      forall m | m in s.rows ensures m in n.rows && Continues(rules, s.rows[m], n.rows[m]) {
        if n.rows[m] == s.rows[m] {
          Unchanged(rules, s.rows[m]);
        } else {
          RewrittenRowContinues(rules, s, a, m, n.rows[m]);
        }
      }
    } else {
      forall m | m in s.rows ensures Continues(rules, s.rows[m], n.rows[m]) {
        Unchanged(rules, s.rows[m]);
      }
    }
  }

  lemma Unchanged(rules: Rules, row: Row)
    ensures Continues(rules, row, row)
  {
  }

  lemma RewrittenRowContinues(rules: Rules, s: State, a: Attempt, m: ModuleId, row: Row)
    requires OncePerModule(a.modules) && m in s.rows && Inspect(rules, s, a).None?
    requires WrittenFor(a.plan, a.modules, m, row)
    ensures Continues(rules, s.rows[m], row)
  {
    hide StoredProblem, Continues, NewRow, SourcesOf, Inspect, WrittenBy;
    InspectFacts(rules, s, a);
    var i :| 0 <= i < |a.modules| && WrittenBy(a.plan, a.modules[i], m, row);
    VersionOfRegistered(a.modules, i);
    NoStoredProblem(rules, a.plan, a.modules, s.rows, Ascending(s.rows.Keys), m);
    WrittenFields(a.plan, a.modules[i], m, row);
    AgreedRowContinues(rules, a.plan, a.modules[i], s.rows[m]);
  }

  lemma InspectFacts(rules: Rules, s: State, a: Attempt)
    requires Inspect(rules, s, a).None?
    ensures StoredProblems(rules, a.plan, a.modules, s.rows, Ascending(s.rows.Keys)).None?
  {
    hide StoredProblems, Reads, SourcesOf;
  }

  lemma WrittenFields(plan: Plan, r: Registered, m: ModuleId, row: Row)
    requires WrittenBy(plan, r, m, row)
    ensures r.id == m && SourcesOf(plan, r.id) != [] && row == NewRow(plan, r)
  {
  }

  lemma ContinuesTransitive(rules: Rules, s: State, m: State, n: State)
    requires HistoryContinues(rules, s, m) && HistoryContinues(rules, m, n)
    ensures HistoryContinues(rules, s, n)
  {
  }

  /** Over any sequence of migration attempts, failed ones included, recorded history only grows. */
  lemma {:induction false} HistoryIsAppendOnly(rules: Rules, s: State, attempts: seq<Attempt>)
    requires forall i :: 0 <= i < |attempts| ==> OncePerModule(attempts[i].modules)
    ensures HistoryContinues(rules, s, Run(rules, s, attempts))
    decreases |attempts|
  {
    hide Next, HistoryContinues, OncePerModule;
    if attempts == [] {
      HistoryContinuesItself(rules, s);
    } else {
      MigrationContinuesHistory(rules, s, attempts[0]);
      HistoryIsAppendOnly(rules, Next(rules, s, attempts[0]), attempts[1..]);
      ContinuesTransitive(rules, s, Next(rules, s, attempts[0]), Run(rules, s, attempts));
    }
  }

  lemma HistoryContinuesItself(rules: Rules, s: State)
    ensures HistoryContinues(rules, s, s)
  {
  }

  // ---- What is written can be read back ----

  predicate CanonicalRevision(rules: Rules, x: Revision) {
    && rules.isRevision(x.id) && Canonical(x.parents, rules.isRevision) && Canonical(x.dependencies, rules.isRevision)
    && Canonical(x.labels, rules.isNamespace)
    && rules.isLocation(x.location) && rules.isDistribution(x.distribution) && rules.isFingerprint(x.fingerprint)
  }

  /**
   Everything a module contributes to the plan is canonical and unique, and its revisions
   come from its own sources.
   */
  predicate CanonicalModule(rules: Rules, plan: Plan, r: Registered)
    requires SourcesOf(plan, r.id) != []
  {
    var sources, revisions := SourcesOf(plan, r.id), RevisionsOf(plan, r.id);
    && rules.isModule(r.id) && rules.version(r.version).Some? && rules.isNamespace(r.namespace)
    && Canonical(LocationsOf(sources), rules.isLocation) && rules.isDistribution(sources[0].distribution)
    && revisions != [] && Distinct(IdsOf(revisions))
    && OwnRevisions(rules, revisions, LocationsOf(sources), sources[0].distribution)
  }

  lemma UpToIsTotal()
    ensures TotalPreorder(UpTo)
  {
  }

  lemma SortedFacts(s: seq<nat>)
    ensures |Sorted(s)| == |s| && (forall x :: x in Sorted(s) <==> x in s)
    ensures Distinct(Sorted(s)) <==> Distinct(s)
    ensures Sorted(Sorted(s)) == Sorted(s)
  {
    UpToIsTotal();
    SameMembers(s, UpTo);
    SortKeepsDistinct(s, UpTo);
    SortSorts(s, UpTo);
    SortedIsFixed(Sorted(s), UpTo);
  }

  lemma CanonicalSorted(s: seq<nat>, pattern: nat -> bool)
    ensures Canonical(Sorted(s), pattern) <==> Canonical(s, pattern)
  {
    SortedFacts(s);
    AllMembers(s, pattern);
    AllMembers(Sorted(s), pattern);
    hide Sorted, Distinct;
  }

  lemma AllMembers(s: seq<nat>, pattern: nat -> bool)
    ensures (forall i :: 0 <= i < |s| ==> pattern(s[i])) <==> forall x :: x in s ==> pattern(x)
  {
  }

  lemma IdsCons(x: Revision, s: seq<Revision>)
    ensures IdsOf([x] + s) == [x.id] + IdsOf(s)
  {
  }

  lemma IdsTail(s: seq<Revision>)
    requires s != []
    ensures IdsOf(s) != [] && IdsOf(s)[0] == s[0].id && IdsOf(s)[1..] == IdsOf(s[1..])
  {
  }

  lemma {:induction false} InsertIds(x: Revision, s: seq<Revision>)
    ensures IdsOf(Insert(x, s, ById)) == Insert(x.id, IdsOf(s), UpTo)
    decreases |s|
  {
    hide IdsOf;
    IdsCons(x, s);
    if s == [] {
      NoIds();
    } else {
      IdsTail(s);
      if !ById(x, s[0]) {
        InsertIds(x, s[1..]);
        IdsCons(s[0], Insert(x, s[1..], ById));
      }
    }
  }

  lemma NoIds()
    ensures IdsOf([]) == []
  {
  }

  /** Sorting revisions by id sorts their ids. */
  lemma {:induction false} SortIds(revisions: seq<Revision>)
    ensures IdsOf(Sort(revisions, ById)) == Sorted(IdsOf(revisions))
    decreases |revisions|
  {
    if revisions == [] {
      assert IdsOf([]) == [];
    } else {
      SortIds(revisions[1..]);
      InsertIds(revisions[0], Sort(revisions[1..], ById));
      assert IdsOf(revisions)[1..] == IdsOf(revisions[1..]);
    }
  }

  lemma ManifestFacts(revisions: seq<Revision>)
    ensures StoredIds(ManifestOf(revisions)) == Sorted(IdsOf(revisions))
    ensures |ManifestOf(revisions)| == |revisions|
  {
    SortIds(revisions);
    SameMembers(revisions, ById);
    hide Sorted, Sort;
    assert StoredIds(ManifestOf(revisions)) == IdsOf(Sort(revisions, ById));
  }

  lemma EntryOf(revisions: seq<Revision>, x: Revision)
    requires x in revisions
    ensures Recorded(x) in ManifestOf(revisions)
  {
    SameMembers(revisions, ById);
    hide Sort, Recorded;
    var ordered := Sort(revisions, ById);
    var i :| 0 <= i < |ordered| && ordered[i] == x;
    assert ManifestOf(revisions)[i] == Recorded(x);
  }

  lemma RevisionOf(revisions: seq<Revision>, i: nat) returns (x: Revision)
    requires i < |ManifestOf(revisions)|
    ensures x in revisions && ManifestOf(revisions)[i] == Recorded(x)
  {
    SameMembers(revisions, ById);
    hide Sort, Recorded;
    x := Sort(revisions, ById)[i];
  }

  lemma RecordedReads(rules: Rules, x: Revision)
    ensures ReadsRevision(rules, Recorded(x)) <==> CanonicalRevision(rules, x)
  {
    CanonicalSorted(x.parents, rules.isRevision);
    CanonicalSorted(x.dependencies, rules.isRevision);
    CanonicalSorted(x.labels, rules.isNamespace);
    hide Canonical, Sorted;
  }

  predicate OwnRevisions(rules: Rules, revisions: seq<Revision>, sources: seq<Text>, distribution: Text) {
    forall x :: x in revisions ==>
      CanonicalRevision(rules, x) && x.location in sources && x.distribution == distribution
  }

  /** The strict reader looks at the recorded revisions one by one. */
  lemma ManifestReadsExactly(
    rules: Rules, revisions: seq<Revision>, sources: seq<Text>, locations: seq<Text>, distribution: Text)
    requires forall x :: x in locations <==> x in sources
    ensures ManifestReads(rules, locations, distribution, ManifestOf(revisions)) <==>
      OwnRevisions(rules, revisions, sources, distribution)
  {
    hide ReadsRevision, CanonicalRevision, ManifestOf;
    var manifest := ManifestOf(revisions);
    ManifestFacts(revisions);
    if ManifestReads(rules, locations, distribution, manifest) {
      forall x | x in revisions
        ensures CanonicalRevision(rules, x) && x.location in sources && x.distribution == distribution
      {
        RecordedReads(rules, x);
        EntryOf(revisions, x);
        var i :| 0 <= i < |manifest| && manifest[i] == Recorded(x);
      }
    }
    if OwnRevisions(rules, revisions, sources, distribution) {
      forall i | 0 <= i < |manifest|
        ensures ReadsRevision(rules, manifest[i]) && manifest[i].location in locations
        ensures manifest[i].distribution == distribution
      {
        var x := RevisionOf(revisions, i);
        RecordedReads(rules, x);
      }
    }
  }

  lemma IdsAreCanonical(rules: Rules, revisions: seq<Revision>, sources: seq<Text>, distribution: Text)
    requires OwnRevisions(rules, revisions, sources, distribution)
    ensures Canonical(IdsOf(revisions), rules.isRevision) <==> Distinct(IdsOf(revisions))
  {
    forall i | 0 <= i < |revisions| ensures rules.isRevision(IdsOf(revisions)[i]) {
      assert revisions[i] in revisions;
    }
    hide Distinct;
  }

  /**
   The strict reader accepts what was written for a module exactly when what the module
   contributed is canonical and unique.
   */
  lemma WrittenRowReadsExactlyWhenCanonical(rules: Rules, plan: Plan, r: Registered)
    requires SourcesOf(plan, r.id) != []
    ensures Reads(rules, r.id, NewRow(plan, r)) <==> CanonicalModule(rules, plan, r)
  {
    hide SourcesOf, RevisionsOf, Sorted, ManifestOf, ManifestReads, OwnRevisions;
    hide Canonical, Distinct, StoredIds, IdsOf, LocationsOf;
    var row, sources, revisions := NewRow(plan, r), SourcesOf(plan, r.id), RevisionsOf(plan, r.id);
    CanonicalSorted(LocationsOf(sources), rules.isLocation);
    SortedFacts(LocationsOf(sources));
    CanonicalSorted(IdsOf(revisions), rules.isRevision);
    SortedFacts(IdsOf(revisions));
    ManifestFacts(revisions);
    SameLengths(sources, revisions);
    ManifestReadsExactly(rules, revisions, LocationsOf(sources), row.locations, sources[0].distribution);
    if OwnRevisions(rules, revisions, LocationsOf(sources), sources[0].distribution) {
      IdsAreCanonical(rules, revisions, LocationsOf(sources), sources[0].distribution);
    }
    CanonicalIsDistinct(IdsOf(revisions), rules.isRevision);
  }

  lemma SameLengths(sources: seq<Source>, revisions: seq<Revision>)
    ensures |LocationsOf(sources)| == |sources| && |IdsOf(revisions)| == |revisions|
  {
  }

  lemma CanonicalIsDistinct(s: seq<nat>, pattern: nat -> bool)
    ensures Canonical(s, pattern) ==> Distinct(s)
  {
  }

  /** A plan agrees with the row it wrote itself. */
  lemma WrittenRowAgrees(rules: Rules, plan: Plan, r: Registered)
    requires SourcesOf(plan, r.id) != [] && r.namespace == SourcesOf(plan, r.id)[0].namespace
    ensures StoredProblem(rules, plan, r.id, NewRow(plan, r), Some(r.version)).None? <==> rules.version(r.version).Some?
  {
    hide SourcesOf, RevisionsOf, Sorted, ManifestOf, IdsOf, LocationsOf;
    var row, revisions := NewRow(plan, r), RevisionsOf(plan, r.id);
    SortedFacts(LocationsOf(SourcesOf(plan, r.id)));
    SortedFacts(IdsOf(revisions));
    ManifestFacts(revisions);
    forall i | 0 <= i < |row.revisionIds| ensures StillListed(plan, r.id, row.revisionIds[i]) {
      assert row.revisionIds[i] in row.revisionIds;
    }
    forall i | 0 <= i < |row.manifest|
      ensures StillListed(plan, r.id, row.manifest[i].id) && StillRecorded(plan, r.id, row.manifest[i])
    {
      assert StoredIds(row.manifest)[i] in StoredIds(row.manifest);
      assert row.manifest[i] in row.manifest;
    }
  }

  // ---- The transaction itself ----

  class Inventory {
    var rows: Rows
    var applied: set<RevisionId>

    function Contents(): State
      reads this
    {
      State(rows, applied)
    }

    constructor ()
      ensures Contents() == State(map[], {})
    {
      rows, applied := map[], {};
    }

    /** Record every registered module, overwriting what was recorded before. */
    method PersistInventory(plan: Plan, modules: seq<Registered>) returns (problem: Option<Problem>)
      modifies this`rows
      ensures match Persist(old(rows), plan, modules)
        case Ok(n) => problem.None? && rows == n
        case Err(p) => problem == Some(p)
    {
      hide NewRow, SourcesOf;
      for i := 0 to |modules|
        invariant Persist(old(rows), plan, modules[..i]) == Ok(rows)
      {
        assert modules[..i + 1][..i] == modules[..i];
        if SourcesOf(plan, modules[i].id) == [] {
          PersistStaysBroken(old(rows), plan, modules, i + 1);
          return Some(PackageUnavailable);
        }
        rows := rows[modules[i].id := NewRow(plan, modules[i])];
      }
      assert modules[..|modules|] == modules;
      problem := None;
    }

    /** One migration transaction; any failure rolls it back. */
    method ExecuteTransaction(rules: Rules, a: Attempt) returns (problem: Option<Problem>)
      requires OncePerModule(a.modules)
      modifies this
      ensures Contents() == Next(rules, old(Contents()), a)
      ensures problem.None? <==> Migrate(rules, old(Contents()), a).Ok?
      ensures problem.Some? ==> Contents() == old(Contents())
      ensures HistoryContinues(rules, old(Contents()), Contents())
    {
      hide Inspect, Persist, HistoryContinues;
      MigrationContinuesHistory(rules, Contents(), a);
      var snapshot := rows;
      problem := Inspect(rules, Contents(), a);
      if problem.Some? {
        return;
      }
      if a.applied.None? {
        return Some(SchemaFailed);
      }
      problem := PersistInventory(a.plan, a.modules);
      if problem.Some? {
        rows := snapshot;
        return;
      }
      applied := a.applied.value;
    }
  }

  lemma {:induction false} PersistStaysBroken(rows: Rows, plan: Plan, modules: seq<Registered>, n: nat)
    requires n <= |modules| && Persist(rows, plan, modules[..n]).Err?
    ensures Persist(rows, plan, modules) == Persist(rows, plan, modules[..n])
    decreases |modules|
  {
    hide NewRow, SourcesOf;
    var last := |modules| - 1;
    if n == |modules| {
      assert modules[..n] == modules;
    } else {
      assert modules[..last][..n] == modules[..n];
      PersistStaysBroken(rows, plan, modules[..last], n);
    }
  }
}
