/** One tenant's audit log: chained appends, and the integrity check. */
module AuditChain {
  import opened Wrappers
  import opened Sorting

  type Id = nat
  type Time = int
  type Checksum = string

  datatype Version = V1 | V2 | V3 | Unknown(tag: nat)

  /** The event a projected row stands for, and the kind of projection. */
  datatype Source = Source(event: nat, kind: nat)

  /** Every stored column that the V3 checksum covers; body stands for the descriptive ones. */
  datatype Envelope = Envelope(id: Id, occurredAt: Time, previous: Checksum, body: nat, source: Option<Source>)

  datatype Row = Row(envelope: Envelope, version: Version, checksum: Checksum)

  /** The checksum of an envelope; where it must be injective or never empty, a hypothesis says so. */
  type Hash = Envelope -> Checksum

  /** The V1 and V2 checksum of a row, given the previous checksum it is computed with. */
  type LegacyHash = (Row, Checksum) -> Checksum

  // ---- Appending ----

  predicate NotAfter(a: Row, b: Row) {
    a.envelope.occurredAt < b.envelope.occurredAt
    || (a.envelope.occurredAt == b.envelope.occurredAt && a.envelope.id <= b.envelope.id)
  }

  function InOrder(table: seq<Row>): seq<Row> {
    Sort(table, NotAfter)
  }

  predicate Projects(row: Row, source: Option<Source>) {
    source.Some? && row.envelope.source == source
  }

  /** The newest row of the log. */
  function Prior(table: seq<Row>): Option<Row> {
    var rows := InOrder(table);
    if rows == [] then None else Some(rows[|rows| - 1])
  }

  /** What an append under the tenant's lock is given; the clock may have stepped back. */
  datatype Entry = Entry(id: Id, clock: Time, body: nat, source: Option<Source>)

  function NewRow(h: Hash, table: seq<Row>, entry: Entry): Row {
    var prior := Prior(table);
    var occurredAt :=
      if prior.Some? && entry.clock <= prior.value.envelope.occurredAt then prior.value.envelope.occurredAt + 1
        else entry.clock;
    var envelope :=
      Envelope(entry.id, occurredAt, if prior.Some? then prior.value.checksum else "", entry.body, entry.source);
    Row(envelope, V3, h(envelope))
  }

  /** An event already projected is not appended again. */
  function Append(h: Hash, table: seq<Row>, entry: Entry): seq<Row> {
    if exists i :: 0 <= i < |table| && Projects(table[i], entry.source) then table
    else table + [NewRow(h, table, entry)]
  }

  function AppendAll(h: Hash, table: seq<Row>, entries: seq<Entry>): seq<Row>
    decreases |entries|
  {
    if entries == [] then table else AppendAll(h, Append(h, table, entries[0]), entries[1..])
  }

  // ---- The integrity check ----

  /** Whether the check reports this row when the checksum before it is previous. */
  predicate Suspect(h: Hash, l: LegacyHash, row: Row, previous: Checksum) {
    match row.version
    case Unknown(_) => true
    case V3 => h(row.envelope) != row.checksum || row.envelope.previous != previous
    case V2 => l(row, row.envelope.previous) != row.checksum || row.envelope.previous != previous
    case V1 => l(row, previous) != row.checksum
  }

  /** The reported rows of a log in order, each judged against the stored checksum before it. */
  function Tampered(h: Hash, l: LegacyHash, rows: seq<Row>): seq<Id>
    decreases |rows|
  {
    if rows == [] then []
    else
      var init, last := rows[..|rows| - 1], rows[|rows| - 1];
      Tampered(h, l, init) + if Suspect(h, l, last, LastChecksum(init)) then [last.envelope.id] else []
  }

  function LastChecksum(rows: seq<Row>): Checksum {
    if rows == [] then "" else rows[|rows| - 1].checksum
  }

  ghost predicate Clean(h: Hash, l: LegacyHash, rows: seq<Row>) {
    Tampered(h, l, rows) == []
  }

  /** A table whose stored order is its time order and which passes the check. */
  ghost predicate Sound(h: Hash, l: LegacyHash, table: seq<Row>) {
    SortedBy(table, NotAfter) && Clean(h, l, table)
  }

  // ---- Appended logs sort in append order and verify ----

  lemma SoundPrior(h: Hash, l: LegacyHash, table: seq<Row>)
    requires Sound(h, l, table)
    ensures InOrder(table) == table
    ensures Prior(table) == if table == [] then None else Some(table[|table| - 1])
  {
    SortedIsFixed(table, NotAfter);
  }

  lemma SortedAppend(rows: seq<Row>, row: Row)
    requires SortedBy(rows, NotAfter)
    requires rows != [] ==> rows[|rows| - 1].envelope.occurredAt < row.envelope.occurredAt
    ensures SortedBy(rows + [row], NotAfter)
  {
    forall i | 0 <= i < |rows| ensures NotAfter(rows[i], row) {
      assert i == |rows| - 1 || NotAfter(rows[i], rows[|rows| - 1]);
    }
  }

  lemma AppendIsSound(h: Hash, l: LegacyHash, table: seq<Row>, entry: Entry)
    requires Sound(h, l, table)
    ensures Sound(h, l, Append(h, table, entry))
    ensures table <= Append(h, table, entry)
  {
    if Append(h, table, entry) != table {
      SoundPrior(h, l, table);
      var row := NewRow(h, table, entry);
      SortedAppend(table, row);
      assert (table + [row])[..|table|] == table;
      assert !Suspect(h, l, row, LastChecksum(table));
    }
  }

  /**
   Whatever the clock reads, appends to a sound log (the empty one, or an older
   prefix that verifies) keep its rows, sort in the order they were appended and verify.
   */
  lemma {:induction false} AppendedLogVerifies(h: Hash, l: LegacyHash, table: seq<Row>, entries: seq<Entry>)
    requires Sound(h, l, table)
    ensures
      var log := AppendAll(h, table, entries);
      InOrder(log) == log && Clean(h, l, InOrder(log)) && table <= log
    decreases |entries|
  {
    if entries == [] {
      SoundPrior(h, l, table);
    } else {
      AppendIsSound(h, l, table, entries[0]);
      AppendedLogVerifies(h, l, Append(h, table, entries[0]), entries[1..]);
    }
  }

  /** Each source event is projected at most once. */
  ghost predicate SourcesAreDistinct(table: seq<Row>) {
    forall i, j :: 0 <= i < j < |table| && table[i].envelope.source.Some? ==>
      table[i].envelope.source != table[j].envelope.source
  }

  lemma {:induction false} EachSourceOnce(h: Hash, table: seq<Row>, entries: seq<Entry>)
    requires SourcesAreDistinct(table)
    ensures SourcesAreDistinct(AppendAll(h, table, entries))
    decreases |entries|
  {
    if entries != [] {
      AppendKeepsDistinct(h, table, entries[0]);
      EachSourceOnce(h, Append(h, table, entries[0]), entries[1..]);
    }
  }

  lemma AppendKeepsDistinct(h: Hash, table: seq<Row>, entry: Entry)
    requires SourcesAreDistinct(table)
    ensures SourcesAreDistinct(Append(h, table, entry))
  {
    hide Prior;
    if Append(h, table, entry) != table {
      assert forall i :: 0 <= i < |table| ==> !Projects(table[i], entry.source);
    }
  }

  // ---- What the checksum chain pins down ----

  ghost predicate Injective(h: Hash) {
    forall a, b :: h(a) == h(b) ==> a == b
  }

  ghost predicate NeverEmpty(h: Hash) {
    forall a :: h(a) != ""
  }

  /** No row of an older version has the checksum of any V3 envelope. */
  ghost predicate Separate(h: Hash, l: LegacyHash) {
    forall row, previous, envelope :: l(row, previous) != h(envelope)
  }

  predicate AllV3(rows: seq<Row>) {
    forall i :: 0 <= i < |rows| ==> rows[i].version.V3?
  }

  /** A clean V3 log: every row hashes to its checksum and names the checksum before it. */
  lemma {:induction false} CleanIsChained(h: Hash, l: LegacyHash, rows: seq<Row>, i: nat)
    requires AllV3(rows) && Clean(h, l, rows) && i < |rows|
    ensures rows[i].checksum == h(rows[i].envelope) && rows[i].envelope.previous == LastChecksum(rows[..i])
    ensures Clean(h, l, rows[..i])
    decreases |rows|
  {
    var init, last := rows[..|rows| - 1], rows[|rows| - 1];
    assert !Suspect(h, l, last, LastChecksum(init));
    if i < |rows| - 1 {
      CleanIsChained(h, l, init, i);
      assert init[..i] == rows[..i];
    }
  }

  /** Two clean V3 logs that end in the same checksum are the same log. */
  lemma {:induction false} LastChecksumDeterminesLog(h: Hash, l: LegacyHash, a: seq<Row>, b: seq<Row>)
    requires Injective(h) && NeverEmpty(h)
    requires AllV3(a) && AllV3(b) && Clean(h, l, a) && Clean(h, l, b)
    requires LastChecksum(a) == LastChecksum(b)
    ensures a == b
    decreases |a|
  {
    if a != [] { CleanIsChained(h, l, a, |a| - 1); }
    if b != [] { CleanIsChained(h, l, b, |b| - 1); }
    if a != [] && b != [] {
      assert a[|a| - 1].envelope == b[|b| - 1].envelope;
      LastChecksumDeterminesLog(h, l, a[..|a| - 1], b[..|b| - 1]);
      assert a == a[..|a| - 1] + [a[|a| - 1]] && b == b[..|b| - 1] + [b[|b| - 1]];
    }
  }

  /**
   Rows removed from a clean V3 log, reordered or repeated: what is left verifies
   exactly when it is a prefix of the log.
   */
  lemma OnlyPrefixesVerify(h: Hash, l: LegacyHash, log: seq<Row>, left: seq<Row>)
    requires Injective(h) && NeverEmpty(h) && AllV3(log) && Clean(h, l, log)
    requires forall row :: row in left ==> row in log
    ensures Clean(h, l, left) <==> left <= log
  {
    hide Clean;
    if left <= log {
      PrefixVerifies(h, l, log, |left|, left);
    }
    if Clean(h, l, left) && left != [] {
      assert left[|left| - 1] in log;
      var i :| 0 <= i < |log| && log[i] == left[|left| - 1];
      CleanReachesBack(h, l, log, left, i);
    }
  }

  lemma PrefixVerifies(h: Hash, l: LegacyHash, log: seq<Row>, n: nat, left: seq<Row>)
    requires AllV3(log) && Clean(h, l, log) && left <= log && n == |left|
    ensures Clean(h, l, left)
  {
    CleanPrefix(h, l, log, n);
    assert left == log[..n];
  }

  /** A clean log of this log's rows that ends in its i-th row is its prefix up to there. */
  lemma CleanReachesBack(h: Hash, l: LegacyHash, log: seq<Row>, left: seq<Row>, i: nat)
    requires Injective(h) && NeverEmpty(h) && AllV3(log) && Clean(h, l, log) && Clean(h, l, left)
    requires forall row :: row in left ==> row in log
    requires left != [] && i < |log| && log[i] == left[|left| - 1]
    ensures left == log[..i + 1]
  {
    assert AllV3(left) by {
      forall k | 0 <= k < |left| ensures left[k].version.V3? { assert left[k] in log; }
    }
    hide Clean, Injective, NeverEmpty;
    CleanPrefix(h, l, log, i + 1);
    LastChecksumDeterminesLog(h, l, left, log[..i + 1]);
  }

  lemma CleanPrefix(h: Hash, l: LegacyHash, rows: seq<Row>, n: nat)
    requires AllV3(rows) && Clean(h, l, rows) && n <= |rows|
    ensures AllV3(rows[..n]) && Clean(h, l, rows[..n])
  {
    if n < |rows| {
      CleanIsChained(h, l, rows, n);
    } else {
      assert rows[..n] == rows;
    }
  }

  /** The ids of the positions where the stored rows differ from the original log. */
  function AlteredIds(log: seq<Row>, stored: seq<Row>): seq<Id>
    requires |stored| == |log|
    decreases |log|
  {
    if log == [] then []
    else
      var n := |log| - 1;
      AlteredIds(log[..n], stored[..n]) + if stored[n] != log[n] then [stored[n].envelope.id] else []
  }

  lemma SuspectIffAltered(h: Hash, l: LegacyHash, row: Row, stored: Row, previous: Checksum)
    requires Injective(h) && Separate(h, l)
    requires row.version.V3? && row.checksum == h(row.envelope) && row.envelope.previous == previous
    requires stored.checksum == row.checksum
    ensures Suspect(h, l, stored, previous) <==> stored != row
  {
  }

  /**
   Altering rows of a clean V3 log under their stored checksums, in place: the check
   reports exactly the altered rows.
   */
  lemma {:induction false} AlteredRowsAreReported(h: Hash, l: LegacyHash, log: seq<Row>, stored: seq<Row>)
    requires Injective(h) && Separate(h, l)
    requires AllV3(log) && Clean(h, l, log) && |stored| == |log|
    requires forall i :: 0 <= i < |log| ==> stored[i].checksum == log[i].checksum
    ensures Tampered(h, l, stored) == AlteredIds(log, stored)
    decreases |log|
  {
    if log != [] {
      var n := |log| - 1;
      CleanPrefix(h, l, log, n);
      CleanIsChained(h, l, log, n);
      AlteredRowsAreReported(h, l, log[..n], stored[..n]);
      SuspectIffAltered(h, l, log[n], stored[n], LastChecksum(log[..n]));
      hide Injective, Separate, Suspect, Clean;
    }
  }

  // ---- The stored log ----

  class AuditLog {
    const h: Hash
    const l: LegacyHash
    var table: seq<Row>

    constructor (h: Hash, l: LegacyHash)
      ensures this.h == h && this.l == l && table == []
    {
      this.h, this.l, table := h, l, [];
    }

    /** Append one record under the tenant's lock, or return the row that already projects its source. */
    method Record(entry: Entry) returns (row: Row)
      modifies this
      ensures table == Append(h, old(table), entry) && row in table
      ensures if table == old(table) then Projects(row, entry.source) else row == NewRow(h, old(table), entry)
    {
      var i := 0;
      while i < |table|
        invariant 0 <= i <= |table|
        invariant forall k :: 0 <= k < i ==> !Projects(table[k], entry.source)
      {
        if Projects(table[i], entry.source) {
          return table[i];
        }
        i := i + 1;
      }
      row := NewRow(h, table, entry);
      table := table + [row];
    }

    /** Walk the log in order, comparing each row with the stored checksum before it. */
    method VerifyIntegrity() returns (total: nat, valid: bool, tampered: seq<Id>)
      ensures total == |table| && tampered == Tampered(h, l, InOrder(table))
      ensures valid <==> Clean(h, l, InOrder(table))
    {
      var rows := InOrder(table);
      SameMembers(table, NotAfter);
      total, tampered := |rows|, [];
      var previous: Checksum := "";
      for i := 0 to |rows|
        invariant tampered == Tampered(h, l, rows[..i]) && previous == LastChecksum(rows[..i])
      {
        var row := rows[i];
        assert rows[..i + 1][..i] == rows[..i];
        match row.version {
          case Unknown(_) => tampered := tampered + [row.envelope.id];
          case V3 =>
            if h(row.envelope) != row.checksum || row.envelope.previous != previous {
              tampered := tampered + [row.envelope.id];
            }
          case V2 =>
            if l(row, row.envelope.previous) != row.checksum || row.envelope.previous != previous {
              tampered := tampered + [row.envelope.id];
            }
          case V1 =>
            if l(row, previous) != row.checksum {
              tampered := tampered + [row.envelope.id];
            }
        }
        previous := row.checksum;
      }
      assert rows[..|rows|] == rows;
      valid := tampered == [];
    }
  }
}
