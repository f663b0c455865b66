/**
 The reviewed mapping of legacy classification codes: one transaction that
 records the approved mappings and backfills the references in two tables, and
 the preflight report that says whether anything is left to resolve. A file with
 a problem commits nothing, and the first problem found is reported.
 */
module LegacyMapping {
  import opened Wrappers

  type Code = nat
  type Ref = nat
  type Tenant = nat
  type DefinitionId = nat

  const MAXIMUM: nat := 10000

  /** What a legacy row means: its name, its sensitivity and the fingerprint of its description. */
  datatype Meaning = Meaning(name: nat, level: int, fingerprint: nat)

  datatype Mapping = Mapping(ref: Ref, definition: DefinitionId, version: int, tenant: Option<Tenant>,
    meaning: Meaning, approval: nat)

  /** One reviewed entry of the file; approval stands for who approved it and on what evidence. */
  datatype Entry = Entry(code: Code, meaning: Meaning, ref: Ref, definition: DefinitionId, version: int,
    tenant: Option<Tenant>, approval: nat)

  /** A row that refers to a classification, by legacy code, by qualified reference, or by both. */
  datatype Reference = Reference(
    code: Option<Code>, ref: Option<Ref>, version: Option<int>, definition: Option<DefinitionId>,
    tenant: Option<Tenant>)

  datatype Kind = Core | TenantOwned

  /** Where a definition is looked up; the tenant matters only for tenant-owned ones. */
  datatype TargetKey = TargetKey(kind: Kind, definition: DefinitionId, tenant: Option<Tenant>, ref: Ref, version: int)

  datatype Database = Database(
    legacy: map<Code, Meaning>,
    targets: map<TargetKey, seq<(nat, int)>>,   // name and sensitivity of every matching definition version
    mappings: map<Code, Mapping>,
    tags: seq<Reference>,
    policies: seq<Reference>)

  /** Parsing of references, and the upper-casing that must not merge two codes. */
  datatype Rules = Rules(parse: (Ref, Option<Tenant>) -> Option<Kind>, upper: Code -> Code)

  datatype Problem =
    | Duplicate | TooMany | Collision | NotCovered | MeaningChanged | BadReference | WrongNamespace
    | ForeignUse | TargetDiffers | MappingDiffers | ReferenceConflict | Unmapped

  // ---- One entry ----

  function MappingOf(e: Entry): Mapping {
    Mapping(e.ref, e.definition, e.version, e.tenant, e.meaning, e.approval)
  }

  /** Equal but for who approved it. */
  predicate SameMapping(a: Mapping, b: Mapping) {
    a.(approval := 0) == b.(approval := 0)
  }

  predicate RefersTo(row: Reference, code: Code) {
    row.code == Some(code)
  }

  predicate Qualified(row: Reference, e: Entry) {
    row.ref == Some(e.ref) && row.version == Some(e.version) && row.definition == Some(e.definition)
  }

  /** SQL's inequality: unknown tenants differ from nobody. */
  predicate ForeignTo(row: Reference, tenant: Option<Tenant>) {
    row.tenant.Some? && tenant.Some? && row.tenant.value != tenant.value
  }

  predicate UsedElsewhere(rows: seq<Reference>, e: Entry) {
    exists i :: 0 <= i < |rows| && RefersTo(rows[i], e.code) && ForeignTo(rows[i], e.tenant)
  }

  predicate Conflicts(rows: seq<Reference>, e: Entry) {
    exists i :: 0 <= i < |rows| && RefersTo(rows[i], e.code) && rows[i].ref.Some? && !Qualified(rows[i], e)
  }

  function FillRow(row: Reference, e: Entry): Reference {
    if RefersTo(row, e.code) && row.ref.None?
    then row.(ref := Some(e.ref), version := Some(e.version), definition := Some(e.definition)) else row
  }

  /** Qualify the rows of this code that have no qualified reference yet. */
  function Fill(rows: seq<Reference>, e: Entry): (r: seq<Reference>)
    ensures |r| == |rows| && forall i :: 0 <= i < |rows| ==> r[i] == FillRow(rows[i], e)
  {
    seq(|rows|, i requires 0 <= i < |rows| => FillRow(rows[i], e))
  }

  function TargetsOf(db: Database, kind: Kind, e: Entry): seq<(nat, int)> {
    var key := TargetKey(kind, e.definition, if kind.Core? then None else e.tenant, e.ref, e.version);
    if key in db.targets then db.targets[key] else []
  }

  /** The first check an entry fails, if any. */
  function EntryProblem(rules: Rules, db: Database, e: Entry): Option<Problem> {
    if e.code !in db.legacy || db.legacy[e.code] != e.meaning then Some(MeaningChanged)
    else
      match rules.parse(e.ref, e.tenant)
      case None => Some(BadReference)
      case Some(kind) =>
        if kind.Core? != e.tenant.None? then Some(WrongNamespace)
        else if kind.TenantOwned? && (UsedElsewhere(db.tags, e) || UsedElsewhere(db.policies, e)) then Some(ForeignUse)
        else if TargetsOf(db, kind, e) != [(e.meaning.name, e.meaning.level)] then Some(TargetDiffers)
        else if e.code in db.mappings && !SameMapping(db.mappings[e.code], MappingOf(e)) then Some(MappingDiffers)
        else if Conflicts(db.tags, e) || Conflicts(db.policies, e) then Some(ReferenceConflict)
        else None
  }

  function ApplyEntry(db: Database, e: Entry): Database {
    db.(mappings := if e.code in db.mappings then db.mappings else db.mappings[e.code := MappingOf(e)],
        tags := Fill(db.tags, e), policies := Fill(db.policies, e))
  }

  function ApplyEntries(rules: Rules, db: Database, entries: seq<Entry>): Result<Database, Problem>
    decreases |entries|
  {
    if entries == [] then Ok(db)
    else
      var n := |entries| - 1;
      match ApplyEntries(rules, db, entries[..n])
      case Err(problem) => Err(problem)
      case Ok(before) =>
        match EntryProblem(rules, before, entries[n])
        case Some(problem) => Err(problem)
        case None => Ok(ApplyEntry(before, entries[n]))
  }

  // ---- The whole transaction ----

  function CodesOf(entries: seq<Entry>): (codes: set<Code>)
    ensures forall c :: c in codes <==> exists i :: 0 <= i < |entries| && entries[i].code == c
  {
    set e | e in entries :: e.code
  }

  predicate DistinctCodes(entries: seq<Entry>) {
    forall i, j :: 0 <= i < j < |entries| ==> entries[i].code != entries[j].code
  }

  function Merged(rules: Rules, legacy: map<Code, Meaning>): (codes: set<Code>)
    ensures forall c :: c in codes <==> c in legacy && exists d ::
      d in legacy && d != c && rules.upper(d) == rules.upper(c)
  {
    set c | c in legacy && exists d :: d in legacy && d != c && rules.upper(d) == rules.upper(c)
  }

  predicate HalfQualified(row: Reference) {
    row.ref.None? || row.version.None? || row.definition.None?
  }

  predicate Unresolved(rows: seq<Reference>) {
    exists i :: 0 <= i < |rows| && rows[i].code.Some? && HalfQualified(rows[i])
  }

  function Apply(rules: Rules, db: Database, entries: seq<Entry>): Result<Database, Problem> {
    if !DistinctCodes(entries) then Err(Duplicate)
    else if |db.legacy| > MAXIMUM then Err(TooMany)
    else if Merged(rules, db.legacy) != {} then Err(Collision)
    else if CodesOf(entries) != db.legacy.Keys then Err(NotCovered)
    else
      match ApplyEntries(rules, db, entries)
      case Err(problem) => Err(problem)
      case Ok(n) => if Unresolved(n.tags) || Unresolved(n.policies) then Err(Unmapped) else Ok(n)
  }

  // ---- The preflight report ----

  function Count(rows: seq<Reference>, bad: Reference -> bool): nat {
    if rows == [] then 0 else (if bad(rows[0]) then 1 else 0) + Count(rows[1..], bad)
  }

  predicate Orphan(db: Database, row: Reference) {
    row.code.Some? && row.code.value !in db.legacy
  }

  predicate Inconsistent(db: Database, row: Reference) {
    || (row.code.Some? &&
        (|| row.code.value !in db.mappings
         || row.ref != Some(db.mappings[row.code.value].ref)
         || row.version != Some(db.mappings[row.code.value].version)
         || row.definition != Some(db.mappings[row.code.value].definition)
         || ForeignTo(row, db.mappings[row.code.value].tenant)))
    || (row.ref.Some? && (row.version.None? || row.definition.None?))
  }

  function Uppers(rules: Rules, codes: set<Code>): (r: set<Code>)
    ensures forall c :: c in codes ==> rules.upper(c) in r
    ensures codes == {} ==> r == {}
  {
    set c | c in codes :: rules.upper(c)
  }

  function IsOrphan(db: Database): Reference -> bool {
    row => Orphan(db, row)
  }

  function IsInconsistent(db: Database): Reference -> bool {
    row => Inconsistent(db, row)
  }

  datatype Report = Report(
    unresolved: nat, collisions: nat, orphanTags: nat, orphanPolicies: nat, inconsistentTags: nat,
    inconsistentPolicies: nat, changed: nat)

  function Preflight(rules: Rules, db: Database): Report {
    Report(
      |set c | c in db.legacy && c !in db.mappings|,
      |Uppers(rules, Merged(rules, db.legacy))|,
      Count(db.tags, IsOrphan(db)), Count(db.policies, IsOrphan(db)),
      Count(db.tags, IsInconsistent(db)), Count(db.policies, IsInconsistent(db)),
      |set c | c in db.legacy && c in db.mappings && db.mappings[c].meaning != db.legacy[c]|)
  }

  predicate Passes(report: Report) {
    report == Report(0, 0, 0, 0, 0, 0, 0)
  }

  lemma {:induction false} CountIsZero(rows: seq<Reference>, bad: Reference -> bool)
    ensures Count(rows, bad) == 0 <==> forall i :: 0 <= i < |rows| ==> !bad(rows[i])
    decreases |rows|
  {
    if rows != [] {
      CountIsZero(rows[1..], bad);
      assert forall i :: 0 <= i < |rows[1..]| ==> rows[1..][i] == rows[i + 1];
      assert (forall i :: 0 <= i < |rows| ==> !bad(rows[i])) <==>
        !bad(rows[0]) && forall i :: 0 <= i < |rows[1..]| ==> !bad(rows[1..][i])
      by {
        if !bad(rows[0]) && forall i :: 0 <= i < |rows[1..]| ==> !bad(rows[1..][i]) {
          forall i | 0 <= i < |rows| ensures !bad(rows[i]) {
            assert i > 0 ==> rows[i] == rows[1..][i - 1];
          }
        }
      }
    }
  }

  // ---- What some applied entries leave behind ----

  /** Rows change only by being qualified, only for an applied code, and only when they had no qualified reference. */
  ghost predicate RowsFilled(before: seq<Reference>, after: seq<Reference>, entries: seq<Entry>) {
    && |after| == |before|
    && (forall i :: 0 <= i < |before| ==>
          && after[i].code == before[i].code && after[i].tenant == before[i].tenant
          && (before[i].ref.Some? || before[i].code.None? || before[i].code.value !in CodesOf(entries) ==>
                after[i] == before[i]))
    && (forall i, k :: 0 <= i < |after| && 0 <= k < |entries| && RefersTo(after[i], entries[k].code) ==>
          Qualified(after[i], entries[k]))
  }

  ghost predicate Applied(before: Database, after: Database, entries: seq<Entry>) {
    && after.legacy == before.legacy && after.targets == before.targets
    && after.mappings.Keys == before.mappings.Keys + CodesOf(entries)
    && (forall c :: c in before.mappings ==> after.mappings[c] == before.mappings[c])
    && (forall k :: 0 <= k < |entries| ==> SameMapping(after.mappings[entries[k].code], MappingOf(entries[k])))
    && RowsFilled(before.tags, after.tags, entries) && RowsFilled(before.policies, after.policies, entries)
  }

  lemma NothingFilled(rows: seq<Reference>)
    ensures RowsFilled(rows, rows, [])
  {
  }

  lemma FillOneMore(before: seq<Reference>, rows: seq<Reference>, entries: seq<Entry>, n: nat)
    requires n < |entries| && DistinctCodes(entries)
    requires RowsFilled(before, rows, entries[..n]) && !Conflicts(rows, entries[n])
    ensures RowsFilled(before, Fill(rows, entries[n]), entries[..n + 1])
  {
    var e, after := entries[n], Fill(rows, entries[n]);
    assert entries[..n + 1] == entries[..n] + [e];
    forall i | 0 <= i < |before|
      ensures after[i].code == before[i].code && after[i].tenant == before[i].tenant
      ensures before[i].ref.Some? || before[i].code.None? || before[i].code.value !in CodesOf(entries[..n + 1]) ==>
        after[i] == before[i]
    {
      assert after[i] == FillRow(rows[i], e);
      assert entries[..n + 1][n].code == e.code;
      assert CodesOf(entries[..n]) <= CodesOf(entries[..n + 1]) by { MoreCodes(entries, n); }
    }
    var applied := entries[..n + 1];
    forall i, k | 0 <= i < |after| && 0 <= k < |applied| && RefersTo(after[i], applied[k].code)
      ensures Qualified(after[i], applied[k])
    {
      assert after[i] == FillRow(rows[i], e) && applied[k] == entries[k];
      if k < n {
        assert entries[..n][k] == entries[k] && entries[k].code != e.code;
      }
    }
  }

  lemma MoreCodes(entries: seq<Entry>, n: nat)
    requires n < |entries|
    ensures CodesOf(entries[..n + 1]) == CodesOf(entries[..n]) + {entries[n].code}
  {
    assert entries[..n + 1] == entries[..n] + [entries[n]];
    forall c ensures c in CodesOf(entries[..n + 1]) <==> c in CodesOf(entries[..n]) || c == entries[n].code {
      if c in CodesOf(entries[..n]) {
        var i :| 0 <= i < n && entries[..n][i].code == c;
        assert entries[..n + 1][i].code == c;
      }
      assert entries[..n + 1][n].code == entries[n].code;
    }
  }

  lemma ApplyEntryExtends(rules: Rules, before: Database, db: Database, entries: seq<Entry>, n: nat)
    requires n < |entries| && DistinctCodes(entries)
    requires Applied(before, db, entries[..n]) && EntryProblem(rules, db, entries[n]).None?
    ensures Applied(before, ApplyEntry(db, entries[n]), entries[..n + 1])
  {
    hide RowsFilled, Fill, Conflicts, UsedElsewhere, TargetsOf, CodesOf;
    EntryDoesNotConflict(rules, db, entries[n]);
    FillOneMore(before.tags, db.tags, entries, n);
    FillOneMore(before.policies, db.policies, entries, n);
    MoreCodes(entries, n);
    var after := ApplyEntry(db, entries[n]);
    var applied := entries[..n + 1];
    forall k | 0 <= k < |applied| ensures SameMapping(after.mappings[applied[k].code], MappingOf(applied[k])) {
      if k < n { assert entries[..n][k] == entries[k]; }
    }
  }

  lemma EntryDoesNotConflict(rules: Rules, db: Database, e: Entry)
    requires EntryProblem(rules, db, e).None?
    ensures !Conflicts(db.tags, e) && !Conflicts(db.policies, e)
    ensures e.code in db.mappings ==> SameMapping(db.mappings[e.code], MappingOf(e))
  {
    hide Conflicts, UsedElsewhere, TargetsOf, SameMapping;
  }

  lemma {:induction false} EntriesApply(rules: Rules, db: Database, entries: seq<Entry>)
    requires DistinctCodes(entries) && ApplyEntries(rules, db, entries).Ok?
    ensures Applied(db, ApplyEntries(rules, db, entries).value, entries)
    decreases |entries|
  {
    if entries == [] {
      NothingFilled(db.tags);
      NothingFilled(db.policies);
    } else {
      hide Applied, EntryProblem, ApplyEntry;
      var n := |entries| - 1;
      EntriesApply(rules, db, entries[..n]);
      ApplyEntryExtends(rules, db, ApplyEntries(rules, db, entries[..n]).value, entries, n);
      assert entries[..n + 1] == entries;
    }
  }

  // ---- Checks once passed stay passed ----

  /** The parts of the database an entry's checks read are as they were, and the entry has been applied. */
  ghost predicate Settled(before: Database, after: Database, e: Entry) {
    && after.legacy == before.legacy && after.targets == before.targets
    && SameUse(before.tags, after.tags) && SameUse(before.policies, after.policies)
    && e.code in after.mappings && SameMapping(after.mappings[e.code], MappingOf(e))
    && AllQualified(after.tags, e) && AllQualified(after.policies, e)
  }

  predicate SameUse(before: seq<Reference>, after: seq<Reference>) {
    |after| == |before| && forall i :: 0 <= i < |before| ==>
      after[i].code == before[i].code && after[i].tenant == before[i].tenant
  }

  predicate AllQualified(rows: seq<Reference>, e: Entry) {
    forall i :: 0 <= i < |rows| && RefersTo(rows[i], e.code) ==> Qualified(rows[i], e)
  }

  lemma AppliedIsSettled(before: Database, after: Database, entries: seq<Entry>, k: nat)
    requires Applied(before, after, entries) && k < |entries|
    ensures Settled(before, after, entries[k])
  {
    assert entries[k].code in CodesOf(entries);
  }

  lemma SameUseSameForeign(before: seq<Reference>, after: seq<Reference>, e: Entry)
    requires SameUse(before, after)
    ensures UsedElsewhere(after, e) <==> UsedElsewhere(before, e)
  {
  }

  lemma QualifiedDoNotConflict(rows: seq<Reference>, e: Entry)
    requires AllQualified(rows, e)
    ensures !Conflicts(rows, e) && Fill(rows, e) == rows
  {
    forall i | 0 <= i < |rows| ensures FillRow(rows[i], e) == rows[i] {
    }
  }

  /** An entry accepted before is accepted again once applied, and applying it again changes nothing. */
  lemma AcceptedAgain(rules: Rules, before: Database, after: Database, e: Entry)
    requires EntryProblem(rules, before, e).None? && Settled(before, after, e)
    ensures EntryProblem(rules, after, e).None? && ApplyEntry(after, e) == after
  {
    SameUseSameForeign(before.tags, after.tags, e);
    SameUseSameForeign(before.policies, after.policies, e);
    QualifiedDoNotConflict(after.tags, e);
    QualifiedDoNotConflict(after.policies, e);
    hide UsedElsewhere, Conflicts, AllQualified, SameUse, Fill;
  }

  /** Every entry was accepted against a database that the final one settles. */
  lemma {:induction false} EntryWasAccepted(
    rules: Rules, db: Database, entries: seq<Entry>, k: nat)
    returns (mid: Database)
    requires ApplyEntries(rules, db, entries).Ok? && k < |entries|
    ensures EntryProblem(rules, mid, entries[k]).None?
    ensures ApplyEntries(rules, db, entries[..k]) == Ok(mid)
    decreases |entries|
  {
    hide EntryProblem, ApplyEntry;
    var n := |entries| - 1;
    if k == n {
      mid := ApplyEntries(rules, db, entries[..n]).value;
    } else {
      mid := EntryWasAccepted(rules, db, entries[..n], k);
      assert entries[..n][..k] == entries[..k];
    }
  }

  lemma {:induction false} AcceptedAtTheEnd(rules: Rules, db: Database, entries: seq<Entry>, k: nat)
    requires DistinctCodes(entries) && ApplyEntries(rules, db, entries).Ok? && k < |entries|
    ensures
      var after := ApplyEntries(rules, db, entries).value;
      EntryProblem(rules, after, entries[k]).None? && ApplyEntry(after, entries[k]) == after
  {
    hide EntryProblem, ApplyEntry, Applied, Settled;
    var after := ApplyEntries(rules, db, entries).value;
    EntriesApply(rules, db, entries);
    var mid := EntryWasAccepted(rules, db, entries, k);
    EntriesApply(rules, db, entries[..k]);
    AppliedIsSettled(db, after, entries, k);
    SettledFrom(db, mid, after, entries, k);
    AcceptedAgain(rules, mid, after, entries[k]);
  }

  lemma SettledFrom(db: Database, mid: Database, after: Database, entries: seq<Entry>, k: nat)
    requires k < |entries| && Applied(db, mid, entries[..k]) && Settled(db, after, entries[k])
    ensures Settled(mid, after, entries[k])
  {
    hide CodesOf, Qualified;
  }

  lemma {:induction false} EntriesApplyAgain(rules: Rules, db: Database, entries: seq<Entry>, k: nat)
    requires DistinctCodes(entries) && ApplyEntries(rules, db, entries).Ok? && k <= |entries|
    ensures ApplyEntries(rules, ApplyEntries(rules, db, entries).value, entries[..k]) ==
      Ok(ApplyEntries(rules, db, entries).value)
    decreases k
  {
    hide EntryProblem, ApplyEntry;
    if k > 0 {
      EntriesApplyAgain(rules, db, entries, k - 1);
      AcceptedAtTheEnd(rules, db, entries, k - 1);
      assert entries[..k][..k - 1] == entries[..k - 1];
    }
  }

  // ---- Results ----

  /** A reference that was already qualified is never altered, and no row changes its code or tenant. */
  lemma QualifiedReferencesAreKept(rules: Rules, db: Database, entries: seq<Entry>)
    requires Apply(rules, db, entries).Ok?
    ensures
      var n := Apply(rules, db, entries).value;
      && SameUse(db.tags, n.tags) && SameUse(db.policies, n.policies)
      && (forall i :: 0 <= i < |db.tags| && db.tags[i].ref.Some? ==> n.tags[i] == db.tags[i])
      && (forall i :: 0 <= i < |db.policies| && db.policies[i].ref.Some? ==> n.policies[i] == db.policies[i])
      && (forall c :: c in db.mappings ==> c in n.mappings && n.mappings[c] == db.mappings[c])
  {
    hide Apply, ApplyEntries, CodesOf, Qualified;
    ApplyGives(rules, db, entries);
    EntriesApply(rules, db, entries);
  }

  /** What a successful apply had to get past. */
  lemma ApplyGives(rules: Rules, db: Database, entries: seq<Entry>)
    requires Apply(rules, db, entries).Ok?
    ensures ApplyEntries(rules, db, entries) == Apply(rules, db, entries)
    ensures DistinctCodes(entries) && CodesOf(entries) == db.legacy.Keys && Merged(rules, db.legacy) == {}
  {
  }

  /** Applying the same reviewed file again succeeds and changes nothing. */
  lemma ApplyIsIdempotent(rules: Rules, db: Database, entries: seq<Entry>)
    requires Apply(rules, db, entries).Ok?
    ensures Apply(rules, Apply(rules, db, entries).value, entries) == Apply(rules, db, entries)
  {
    EntriesApply(rules, db, entries);
    EntriesApplyAgain(rules, db, entries, |entries|);
    assert entries[..|entries|] == entries;
    hide ApplyEntries, CodesOf, Merged, Unresolved, DistinctCodes;
  }

  /**
   What apply cannot resolve: a row of an unknown code, or a code-less row whose
   qualified reference is incomplete.
   */
  predicate Beyond(db: Database, row: Reference) {
    Orphan(db, row) || (row.code.None? && row.ref.Some? && (row.version.None? || row.definition.None?))
  }

  predicate NothingBeyond(db: Database, rows: seq<Reference>) {
    forall i :: 0 <= i < |rows| ==> !Beyond(db, rows[i])
  }

  /** In the settled database a row of a mapped code is consistent. */
  lemma MappedRowIsConsistent(rules: Rules, db: Database, row: Reference, e: Entry)
    requires e.code in db.legacy && EntryProblem(rules, db, e).None?
    requires e.code in db.mappings && SameMapping(db.mappings[e.code], MappingOf(e))
    requires RefersTo(row, e.code) && Qualified(row, e) && (row in db.tags || row in db.policies)
    ensures !Inconsistent(db, row) && !Beyond(db, row)
  {
    hide Conflicts, TargetsOf, UsedElsewhere;
    if row in db.tags && !UsedElsewhere(db.tags, e) { UnusedIsLocal(db.tags, row, e); }
    if row in db.policies && !UsedElsewhere(db.policies, e) { UnusedIsLocal(db.policies, row, e); }
  }

  lemma UnusedIsLocal(rows: seq<Reference>, row: Reference, e: Entry)
    requires !UsedElsewhere(rows, e) && row in rows && RefersTo(row, e.code)
    ensures !ForeignTo(row, e.tenant)
  {
    var i :| 0 <= i < |rows| && rows[i] == row;
  }

  /** After a successful apply a row is a blocking finding exactly when it was beyond apply before. */
  lemma FindingsAfterApply(
    rules: Rules, db: Database, entries: seq<Entry>, before: seq<Reference>, after: seq<Reference>, i: nat)
    requires Apply(rules, db, entries).Ok?
    requires
      var n := Apply(rules, db, entries).value;
      (before == db.tags && after == n.tags) || (before == db.policies && after == n.policies)
    requires i < |before| == |after|
    ensures
      var n := Apply(rules, db, entries).value;
      (Orphan(n, after[i]) || Inconsistent(n, after[i]) <==> Beyond(db, before[i]))
        && (Orphan(n, after[i]) <==> Orphan(db, before[i]))
  {
    hide Apply, ApplyEntries, EntryProblem, ApplyEntry, Qualified, SameMapping, Inconsistent, CodesOf;
    var n := Apply(rules, db, entries).value;
    ApplyGives(rules, db, entries);
    EntriesApply(rules, db, entries);
    assert RowsFilled(before, after, entries);
    if before[i].code.Some? && before[i].code.value in db.legacy {
      assert before[i].code.value in CodesOf(entries);
      var k :| 0 <= k < |entries| && entries[k].code == before[i].code.value;
      AcceptedAtTheEnd(rules, db, entries, k);
      AppliedIsSettled(db, n, entries, k);
      MappedRowIsConsistent(rules, n, after[i], entries[k]);
    } else {
      UnmappedRow(n, after[i]);
    }
  }

  /** A row without a legacy code is inconsistent only when its qualified reference is incomplete. */
  lemma UnmappedRow(db: Database, row: Reference)
    requires row.code.None? || row.code.value !in db.legacy
    ensures Orphan(db, row) || Inconsistent(db, row) <==> Beyond(db, row)
  {
  }

  /**
   After a successful apply the preflight report passes exactly when the database
   held no row of an unknown code and no code-less, incompletely qualified row.
   */
  lemma PreflightPassesExactly(rules: Rules, db: Database, entries: seq<Entry>)
    requires Apply(rules, db, entries).Ok?
    ensures Passes(Preflight(rules, Apply(rules, db, entries).value)) <==>
      NothingBeyond(db, db.tags) && NothingBeyond(db, db.policies)
  {
    hide Apply, Preflight, Beyond, Orphan, Inconsistent;
    var n := Apply(rules, db, entries).value;
    CatalogIsResolved(rules, db, entries);
    TableFindings(rules, db, entries, db.tags, n.tags);
    TableFindings(rules, db, entries, db.policies, n.policies);
    ReportOf(rules, n);
  }

  lemma ReportOf(rules: Rules, db: Database)
    ensures Passes(Preflight(rules, db)) <==>
      && (set c | c in db.legacy && c !in db.mappings) == {}
      && Merged(rules, db.legacy) == {}
      && (set c | c in db.legacy && c in db.mappings && db.mappings[c].meaning != db.legacy[c]) == {}
      && (forall i :: 0 <= i < |db.tags| ==> !Orphan(db, db.tags[i]) && !Inconsistent(db, db.tags[i]))
      && (forall i :: 0 <= i < |db.policies| ==> !Orphan(db, db.policies[i]) && !Inconsistent(db, db.policies[i]))
  {
    hide Count, Orphan, Inconsistent, Merged;
    CountIsZero(db.tags, IsOrphan(db));
    CountIsZero(db.policies, IsOrphan(db));
    CountIsZero(db.tags, IsInconsistent(db));
    CountIsZero(db.policies, IsInconsistent(db));
    NoneMerged(rules, Merged(rules, db.legacy));
  }

  lemma NoneMerged(rules: Rules, merged: set<Code>)
    ensures |Uppers(rules, merged)| == 0 <==> merged == {}
  {
    if merged != {} {
      var c :| c in merged;
      assert rules.upper(c) in Uppers(rules, merged);
    }
  }

  /** Every legacy code is mapped, with the meaning it has. */
  lemma CatalogIsResolved(rules: Rules, db: Database, entries: seq<Entry>)
    requires Apply(rules, db, entries).Ok?
    ensures
      var n := Apply(rules, db, entries).value;
      && n.legacy == db.legacy && Merged(rules, n.legacy) == {}
      && (set c | c in n.legacy && c !in n.mappings) == {}
      && (set c | c in n.legacy && c in n.mappings && n.mappings[c].meaning != n.legacy[c]) == {}
  {
    hide Apply, ApplyEntries, ApplyEntry, EntryProblem;
    var n := Apply(rules, db, entries).value;
    ApplyGives(rules, db, entries);
    EntriesApply(rules, db, entries);
    forall c | c in n.legacy ensures c in n.mappings && n.mappings[c].meaning == n.legacy[c] {
      assert c in CodesOf(entries);
      var k :| 0 <= k < |entries| && entries[k].code == c;
      AcceptedAtTheEnd(rules, db, entries, k);
      AppliedIsSettled(db, n, entries, k);
      AcceptedMeaning(rules, n, entries[k]);
      assert SameMapping(n.mappings[c], MappingOf(entries[k]));
    }
    hide CodesOf, Applied, Settled;
  }

  lemma AcceptedMeaning(rules: Rules, db: Database, e: Entry)
    requires EntryProblem(rules, db, e).None?
    ensures e.code in db.legacy && db.legacy[e.code] == e.meaning
  {
  }

  lemma TableFindings(rules: Rules, db: Database, entries: seq<Entry>, before: seq<Reference>, after: seq<Reference>)
    requires Apply(rules, db, entries).Ok?
    requires
      var n := Apply(rules, db, entries).value;
      (before == db.tags && after == n.tags) || (before == db.policies && after == n.policies)
    ensures
      var n := Apply(rules, db, entries).value;
      (forall i :: 0 <= i < |after| ==> !Orphan(n, after[i]) && !Inconsistent(n, after[i])) <==>
        NothingBeyond(db, before)
  {
    QualifiedReferencesAreKept(rules, db, entries);
    var n := Apply(rules, db, entries).value;
    hide Apply, Beyond, Orphan, Inconsistent;
    assert |after| == |before|;
    forall i | 0 <= i < |before|
      ensures Orphan(n, after[i]) || Inconsistent(n, after[i]) <==> Beyond(db, before[i])
    {
      FindingsAfterApply(rules, db, entries, before, after, i);
    }
  }

  // ---- The transaction itself ----

  class Governance {
    var db: Database

    constructor (db: Database)
      ensures this.db == db
    {
      this.db := db;
    }

    /** Apply a reviewed file in one transaction; any failure rolls everything back. */
    method ApplyReviewedMapping(rules: Rules, entries: seq<Entry>) returns (r: Result<nat, Problem>)
      modifies this
      ensures match Apply(rules, old(db), entries)
        case Ok(n) => r == Ok(|entries|) && db == n
        case Err(problem) => r == Err(problem) && db == old(db)
    {
      if !DistinctCodes(entries) {
        return Err(Duplicate);
      }
      var snapshot := db;
      if |db.legacy| > MAXIMUM {
        return Err(TooMany);
      }
      if Merged(rules, db.legacy) != {} {
        return Err(Collision);
      }
      if CodesOf(entries) != db.legacy.Keys {
        return Err(NotCovered);
      }
      var problem := ApplyInTransaction(rules, entries);
      if problem.None? && (Unresolved(db.tags) || Unresolved(db.policies)) {
        problem := Some(Unmapped);
      }
      if problem.Some? {
        db := snapshot;
        return Err(problem.value);
      }
      r := Ok(|entries|);
    }

    /** Entry by entry: check, record the mapping, qualify the references of both tables. */
    method ApplyInTransaction(rules: Rules, entries: seq<Entry>) returns (problem: Option<Problem>)
      modifies this
      ensures match ApplyEntries(rules, old(db), entries)
        case Ok(n) => problem.None? && db == n
        case Err(p) => problem == Some(p)
    {
      hide EntryProblem;
      for i := 0 to |entries|
        invariant ApplyEntries(rules, old(db), entries[..i]) == Ok(db)
      {
        var e := entries[i];
        assert entries[..i + 1][..i] == entries[..i];
        problem := EntryProblem(rules, db, e);
        if problem.Some? {
          ProblemStays(rules, old(db), entries, i + 1);
          return;
        }
        if e.code !in db.mappings {
          db := db.(mappings := db.mappings[e.code := MappingOf(e)]);
        }
        db := db.(tags := Fill(db.tags, e));
        db := db.(policies := Fill(db.policies, e));
      }
      assert entries[..|entries|] == entries;
      problem := None;
    }
  }

  lemma {:induction false} ProblemStays(rules: Rules, db: Database, entries: seq<Entry>, n: nat)
    requires n <= |entries| && ApplyEntries(rules, db, entries[..n]).Err?
    ensures ApplyEntries(rules, db, entries) == ApplyEntries(rules, db, entries[..n])
    decreases |entries|
  {
    hide EntryProblem, ApplyEntry;
    var last := |entries| - 1;
    if n == |entries| {
      assert entries[..n] == entries;
    } else {
      assert entries[..last][..n] == entries[..n];
      ProblemStays(rules, db, entries[..last], n);
    }
  }
}
