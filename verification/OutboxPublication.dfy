/** The transactional outbox and its publishers. */
module OutboxPublication {
  import opened Wrappers
  import opened Collections
  import opened Paths
  import opened Sorting

  type EventId = nat
  type Tenant = nat
  type TypeName = nat
  type Subscriber = nat
  type Worker = nat
  type Failure = nat

  /** What a row, a broker message and a payload all carry; body stands for every other column. */
  datatype Event = Event(id: EventId, tenant: Tenant, typeName: TypeName, occurredAt: nat, body: nat)

  datatype Row = Row(event: Event, published: bool, attempts: nat, lastError: Option<Failure>)

  /** One open publisher transaction: the rows it holds locked and its uncommitted row versions. */
  datatype Batch = Batch(picks: seq<EventId>, done: nat, drafts: map<EventId, Row>)

  datatype Outbox = Outbox(rows: map<EventId, Row>, batches: map<Worker, Batch>)

  datatype Origin = FromOutbox | Elsewhere

  datatype Reason = NotCommitted | Undecodable

  /** A stored broker message; acked keeps the subscribers owed by the delivery that acknowledged it. */
  datatype Message = Message(event: Event, origin: Origin, acked: Option<set<Subscriber>>, terminated: Option<Reason>)

  type Stream = seq<Message>

  /**
   Rows are committed together with the command that raised the event; any number
   of publisher transactions lock disjoint batches of unpublished rows, offer them
   to the broker one by one, and record the outcome when they commit. A publisher
   may die at any point.
   */
  datatype Publication = Publication(outbox: Outbox, stream: Stream)

  /** How one publish call ends; the broker may accept a message whose acceptance is then lost. */
  datatype Outcome = Accepted | AcceptedThenError(failure: Failure) | Refused(failure: Failure)

  datatype Step =
    | CommitCommand(event: Event)
    | Begin(w: Worker, limit: nat)
    | Publish(w: Worker, outcome: Outcome)
    | Commit(w: Worker)
    | Abort(w: Worker)

  function NewMessage(e: Event, origin: Origin): Message {
    Message(e, origin, None, None)
  }

  // ---- Which rows a batch takes ----

  predicate Holds(o: Outbox, w: Worker, id: EventId) {
    w in o.batches && id in o.batches[w].picks
  }

  predicate Locked(o: Outbox, id: EventId) {
    exists w :: w in o.batches && Holds(o, w, id)
  }

  function Eligible(o: Outbox): (ids: set<EventId>)
    ensures forall id :: id in ids <==> id in o.rows && !o.rows[id].published && !Locked(o, id)
  {
    set id | id in o.rows && !o.rows[id].published && !Locked(o, id)
  }

  function OccurredAt(rows: map<EventId, Row>, id: EventId): nat {
    if id in rows then rows[id].event.occurredAt else 0
  }

  predicate NotAfter(rows: map<EventId, Row>, a: EventId, b: EventId) {
    OccurredAt(rows, a) < OccurredAt(rows, b) || (OccurredAt(rows, a) == OccurredAt(rows, b) && a <= b)
  }

  function ByAge(rows: map<EventId, Row>): (EventId, EventId) -> bool {
    (a: EventId, b: EventId) => NotAfter(rows, a, b)
  }

  /** Unpublished rows nobody else has locked, oldest first, at most limit of them. */
  function Picks(o: Outbox, limit: nat): seq<EventId> {
    var ids := Sort(Ascending(Eligible(o)), ByAge(o.rows));
    ids[..if limit < |ids| then limit else |ids|]
  }

  lemma AscendingIsDistinct(s: set<EventId>)
    ensures Distinct(Ascending(s))
  {
  }

  lemma AgeIsPreorder(rows: map<EventId, Row>)
    ensures TotalPreorder(ByAge(rows))
  {
  }

  /** A batch is the oldest eligible rows, each once, and falls short of its limit only by exhausting them. */
  lemma PicksAreOldestEligible(o: Outbox, limit: nat)
    ensures
      var picks := Picks(o, limit);
      && Distinct(picks)
      && |picks| == (if limit < |Eligible(o)| then limit else |Eligible(o)|)
      && (forall id :: id in picks ==> id in Eligible(o))
      && (forall i, j :: 0 <= i < j < |picks| ==> NotAfter(o.rows, picks[i], picks[j]))
      && (forall p, id :: p in picks && id in Eligible(o) && id !in picks ==> NotAfter(o.rows, p, id))
  {
    hide Eligible, Sort, SortedBy, Distinct, Ascending, NotAfter;
    var all, le := Ascending(Eligible(o)), ByAge(o.rows);
    var ids := Sort(all, le);
    AgeIsPreorder(o.rows);
    SortSorts(all, le);
    SameMembers(all, le);
    AscendingIsDistinct(Eligible(o));
    PermutationKeepsDistinct(all, ids);
    PrefixFacts(ids, le, |Picks(o, limit)|);
  }

  lemma PrefixFacts<T(!new)>(ids: seq<T>, le: (T, T) -> bool, n: nat)
    requires Distinct(ids) && SortedBy(ids, le) && n <= |ids|
    ensures
      var picks := ids[..n];
      && Distinct(picks)
      && (forall id :: id in picks ==> id in ids)
      && (forall i, j :: 0 <= i < j < |picks| ==> le(picks[i], picks[j]))
      && (forall p, id :: p in picks && id in ids && id !in picks ==> le(p, id))
  {
    assert forall k :: 0 <= k < n ==> ids[..n][k] == ids[k] && ids[k] in ids[..n];
    forall p, id | p in ids[..n] && id in ids && id !in ids[..n] ensures le(p, id) {
      var i :| 0 <= i < n && ids[i] == p;
      var j :| 0 <= j < |ids| && ids[j] == id;
    }
  }

  // ---- The steps ----

  function Attempt(row: Row, outcome: Outcome): Row {
    match outcome
    case Accepted => row.(published := true, attempts := row.attempts + 1, lastError := None)
    case AcceptedThenError(failure) => row.(attempts := row.attempts + 1, lastError := Some(failure))
    case Refused(failure) => row.(attempts := row.attempts + 1, lastError := Some(failure))
  }

  predicate Offering(o: Outbox, w: Worker) {
    w in o.batches && o.batches[w].done < |o.batches[w].picks| && o.batches[w].picks[o.batches[w].done] in o.rows
  }

  function PublishOne(p: Publication, w: Worker, outcome: Outcome): Publication
    requires Offering(p.outbox, w)
  {
    var batch := p.outbox.batches[w];
    var id := batch.picks[batch.done];
    var row := p.outbox.rows[id];
    var next := Batch(batch.picks, batch.done + 1, batch.drafts[id := Attempt(row, outcome)]);
    Publication(p.outbox.(batches := p.outbox.batches[w := next]),
                if outcome.Refused? then p.stream else p.stream + [NewMessage(row.event, FromOutbox)])
  }

  function Next(p: Publication, step: Step): Publication {
    var o := p.outbox;
    match step
    case CommitCommand(e) =>
      if e.id in o.rows then p else p.(outbox := o.(rows := o.rows[e.id := Row(e, false, 0, None)]))
    case Begin(w, limit) =>
      if w in o.batches then p else p.(outbox := o.(batches := o.batches[w := Batch(Picks(o, limit), 0, map[])]))
    case Publish(w, outcome) => if Offering(o, w) then PublishOne(p, w, outcome) else p
    case Commit(w) =>
      if w in o.batches && o.batches[w].done == |o.batches[w].picks|
      then p.(outbox := Outbox(o.rows + o.batches[w].drafts, o.batches - {w})) else p
    case Abort(w) => p.(outbox := o.(batches := o.batches - {w}))
  }

  // ---- What every reachable state keeps ----

  ghost predicate InStream(stream: Stream, e: Event) {
    exists i :: 0 <= i < |stream| && stream[i].origin.FromOutbox? && stream[i].event == e
  }

  /** A row or draft is about its own event, and says published only if the broker has the message. */
  ghost predicate RowIsTrue(stream: Stream, id: EventId, row: Row) {
    && row.event.id == id
    && (row.published ==> InStream(stream, row.event) && row.lastError.None? && row.attempts > 0)
  }

  ghost predicate RowsAreTrue(p: Publication) {
    forall id :: id in p.outbox.rows ==> RowIsTrue(p.stream, id, p.outbox.rows[id])
  }

  ghost predicate BatchIsTrue(p: Publication, b: Batch) {
    && Distinct(b.picks) && b.done <= |b.picks|
    && (forall id :: id in b.picks ==> id in p.outbox.rows && !p.outbox.rows[id].published)
    && (forall id :: id in b.drafts ==>
          && id in b.picks && RowIsTrue(p.stream, id, b.drafts[id])
          && b.drafts[id].event == p.outbox.rows[id].event
          && b.drafts[id].attempts == p.outbox.rows[id].attempts + 1)
    && (forall i :: 0 <= i < b.done ==> b.picks[i] in b.drafts)
  }

  ghost predicate BatchesAreTrue(p: Publication) {
    forall w :: w in p.outbox.batches ==> BatchIsTrue(p, p.outbox.batches[w])
  }

  /** Row locks: no row is in two open batches. */
  ghost predicate LocksAreExclusive(o: Outbox) {
    forall v, w, id :: Holds(o, v, id) && Holds(o, w, id) ==> v == w
  }

  /** Every message a publisher sent matches its committed row. */
  ghost predicate MessagesAreGenuine(p: Publication) {
    forall i :: 0 <= i < |p.stream| && p.stream[i].origin.FromOutbox? ==> Genuine(p.outbox, p.stream[i].event)
  }

  predicate Genuine(o: Outbox, e: Event) {
    e.id in o.rows && o.rows[e.id].event == e
  }

  ghost predicate Inv(p: Publication) {
    RowsAreTrue(p) && BatchesAreTrue(p) && LocksAreExclusive(p.outbox) && MessagesAreGenuine(p)
  }

  /** Messages stay in the stream; delivery may only mark them. */
  ghost predicate Extends(old_: Stream, new_: Stream) {
    && |old_| <= |new_|
    && forall i :: 0 <= i < |old_| ==> new_[i].event == old_[i].event && new_[i].origin == old_[i].origin
  }

  lemma ExtendsKeepsInStream(a: Stream, b: Stream, e: Event)
    requires Extends(a, b) && InStream(a, e)
    ensures InStream(b, e)
  {
    var i :| 0 <= i < |a| && a[i].origin.FromOutbox? && a[i].event == e;
    assert b[i].event == e;
  }

  lemma ExtendsKeepsTrue(a: Stream, b: Stream, id: EventId, row: Row)
    requires Extends(a, b) && RowIsTrue(a, id, row)
    ensures RowIsTrue(b, id, row)
  {
    if row.published { ExtendsKeepsInStream(a, b, row.event); }
  }

  /** A batch stays true while the rows it holds do not change and the stream only grows. */
  lemma BatchStaysTrue(p: Publication, n: Publication, b: Batch)
    requires BatchIsTrue(p, b) && Extends(p.stream, n.stream)
    requires forall id :: id in b.picks ==> id in n.outbox.rows && n.outbox.rows[id] == p.outbox.rows[id]
    ensures BatchIsTrue(n, b)
  {
    forall id | id in b.drafts ensures RowIsTrue(n.stream, id, b.drafts[id]) {
      ExtendsKeepsTrue(p.stream, n.stream, id, b.drafts[id]);
    }
    hide RowIsTrue, Distinct;
  }

  /** A publication whose stream gained marks or foreign messages is still consistent. */
  lemma StreamStepKeepsInv(p: Publication, stream: Stream)
    requires Inv(p) && Extends(p.stream, stream)
    requires forall i :: |p.stream| <= i < |stream| && stream[i].origin.FromOutbox? ==>
      Genuine(p.outbox, stream[i].event)
    ensures Inv(p.(stream := stream))
  {
    var n := p.(stream := stream);
    forall id | id in p.outbox.rows ensures RowIsTrue(stream, id, p.outbox.rows[id]) {
      ExtendsKeepsTrue(p.stream, stream, id, p.outbox.rows[id]);
    }
    forall w | w in p.outbox.batches ensures BatchIsTrue(n, p.outbox.batches[w]) {
      BatchStaysTrue(p, n, p.outbox.batches[w]);
    }
    hide RowIsTrue, BatchIsTrue, Holds;
  }

  lemma CommandKeepsInv(p: Publication, e: Event)
    requires Inv(p) && e.id !in p.outbox.rows
    ensures Inv(Next(p, CommitCommand(e)))
  {
    hide RowIsTrue;
    var n := Next(p, CommitCommand(e));
    assert n.outbox.rows == p.outbox.rows[e.id := Row(e, false, 0, None)] && n.stream == p.stream;
    hide Next;
    NewRowIsTrue(p.stream, e);
    forall w | w in n.outbox.batches ensures BatchIsTrue(n, n.outbox.batches[w]) {
      BatchStaysTrue(p, n, n.outbox.batches[w]);
    }
    hide BatchIsTrue, BatchesAreTrue;
    assert forall v, id :: Holds(n.outbox, v, id) <==> Holds(p.outbox, v, id);
  }

  lemma NewRowIsTrue(stream: Stream, e: Event)
    ensures RowIsTrue(stream, e.id, Row(e, false, 0, None))
  {
  }

  lemma BeginKeepsInv(p: Publication, w: Worker, limit: nat)
    requires Inv(p) && w !in p.outbox.batches
    ensures Inv(Next(p, Begin(w, limit)))
  {
    hide RowIsTrue, Picks;
    var n, picks := Next(p, Begin(w, limit)), Picks(p.outbox, limit);
    PicksAreOldestEligible(p.outbox, limit);
    forall v | v in n.outbox.batches ensures BatchIsTrue(n, n.outbox.batches[v]) {
      if v != w { BatchStaysTrue(p, n, p.outbox.batches[v]); }
    }
    assert forall v, id :: Holds(n.outbox, v, id) <==> Holds(p.outbox, v, id) || (v == w && id in picks);
    assert forall id :: id in picks ==> !Locked(p.outbox, id);
    hide BatchIsTrue;
  }

  lemma PublishKeepsInv(p: Publication, w: Worker, outcome: Outcome)
    requires Inv(p) && Offering(p.outbox, w)
    ensures Inv(PublishOne(p, w, outcome))
  {
    var n := PublishOne(p, w, outcome);
    var b := p.outbox.batches[w];
    var id := b.picks[b.done];
    var sent := p.(stream := n.stream);
    StreamStepKeepsInv(p, n.stream);
    assert outcome.Accepted? ==> n.stream[|p.stream|].event == p.outbox.rows[id].event;
    assert RowIsTrue(n.stream, id, Attempt(p.outbox.rows[id], outcome));
    hide RowIsTrue, Attempt;
    forall v | v in n.outbox.batches && v != w ensures BatchIsTrue(n, n.outbox.batches[v]) {
      BatchStaysTrue(sent, n, sent.outbox.batches[v]);
    }
    assert BatchIsTrue(sent, b);
    DraftKeepsBatch(sent, n, b, outcome);
    hide BatchIsTrue, PublishOne;
    assert forall v, u :: Holds(n.outbox, v, u) <==> Holds(p.outbox, v, u) by { SamePicks(p, w, outcome); }
  }

  lemma SamePicks(p: Publication, w: Worker, outcome: Outcome)
    requires Offering(p.outbox, w)
    ensures
      var n := PublishOne(p, w, outcome);
      && n.outbox.rows == p.outbox.rows && n.outbox.batches.Keys == p.outbox.batches.Keys
      && forall v, u :: Holds(n.outbox, v, u) <==> Holds(p.outbox, v, u)
  {
  }

  lemma DraftKeepsBatch(p: Publication, n: Publication, b: Batch, outcome: Outcome)
    requires BatchIsTrue(p, b) && b.done < |b.picks| && n.stream == p.stream && n.outbox.rows == p.outbox.rows
    requires RowIsTrue(p.stream, b.picks[b.done], Attempt(p.outbox.rows[b.picks[b.done]], outcome))
    ensures BatchIsTrue(n, Batch(b.picks, b.done + 1,
      b.drafts[b.picks[b.done] := Attempt(p.outbox.rows[b.picks[b.done]], outcome)]))
  {
    hide RowIsTrue;
  }

  lemma CommitKeepsInv(p: Publication, w: Worker)
    requires Inv(p) && w in p.outbox.batches && p.outbox.batches[w].done == |p.outbox.batches[w].picks|
    ensures Inv(Next(p, Commit(w)))
  {
    var n, b := Next(p, Commit(w)), p.outbox.batches[w];
    assert BatchIsTrue(p, b);
    assert n.outbox.rows == p.outbox.rows + b.drafts && n.outbox.batches == p.outbox.batches - {w}
      && n.stream == p.stream;
    hide Next, RowIsTrue;
    assert RowsAreTrue(n);
    forall v | v in n.outbox.batches ensures BatchIsTrue(n, n.outbox.batches[v]) {
      assert forall id :: id in p.outbox.batches[v].picks ==> Holds(p.outbox, v, id);
      assert forall id :: id in b.drafts ==> Holds(p.outbox, w, id);
      BatchStaysTrue(p, n, p.outbox.batches[v]);
    }
    hide BatchIsTrue;
    assert forall v, id :: Holds(n.outbox, v, id) ==> Holds(p.outbox, v, id);
    CommitKeepsEvents(p, n, b);
  }

  lemma CommitKeepsEvents(p: Publication, n: Publication, b: Batch)
    requires BatchIsTrue(p, b) && n.outbox.rows == p.outbox.rows + b.drafts
    ensures forall id :: id in p.outbox.rows ==>
      id in n.outbox.rows && n.outbox.rows[id].event == p.outbox.rows[id].event
    ensures forall id :: id in n.outbox.rows ==> id in p.outbox.rows
  {
    hide RowIsTrue, Distinct;
  }

  lemma AbortKeepsInv(p: Publication, w: Worker)
    requires Inv(p)
    ensures Inv(Next(p, Abort(w)))
  {
    hide RowIsTrue;
    var n := Next(p, Abort(w));
    forall v | v in n.outbox.batches ensures BatchIsTrue(n, n.outbox.batches[v]) {
      BatchStaysTrue(p, n, p.outbox.batches[v]);
    }
    hide BatchIsTrue;
    assert forall v, id :: Holds(n.outbox, v, id) ==> Holds(p.outbox, v, id);
  }

  lemma NextKeepsInv(p: Publication, step: Step)
    requires Inv(p)
    ensures Inv(Next(p, step))
  {
    hide Inv, PublishOne, Picks;
    match step
    case CommitCommand(e) => if e.id !in p.outbox.rows { CommandKeepsInv(p, e); }
    case Begin(w, limit) => if w !in p.outbox.batches { BeginKeepsInv(p, w, limit); }
    case Publish(w, outcome) => if Offering(p.outbox, w) { PublishKeepsInv(p, w, outcome); }
    case Commit(w) =>
      if w in p.outbox.batches && p.outbox.batches[w].done == |p.outbox.batches[w].picks| { CommitKeepsInv(p, w); }
    case Abort(w) => AbortKeepsInv(p, w);
  }

  function Run(p: Publication, steps: seq<Step>): Publication
    decreases |steps|
  {
    if steps == [] then p else Next(Run(p, steps[..|steps| - 1]), steps[|steps| - 1])
  }

  lemma RunOneMore(p: Publication, steps: seq<Step>, step: Step)
    ensures Run(p, steps + [step]) == Next(Run(p, steps), step)
  {
    assert (steps + [step])[..|steps|] == steps;
  }

  lemma {:induction false} RunKeepsInv(p: Publication, steps: seq<Step>)
    requires Inv(p)
    ensures Inv(Run(p, steps))
    decreases |steps|
  {
    hide Inv, Next;
    if steps != [] {
      RunKeepsInv(p, steps[..|steps| - 1]);
      NextKeepsInv(Run(p, steps[..|steps| - 1]), steps[|steps| - 1]);
    }
  }

  function Empty(): Publication {
    Publication(Outbox(map[], map[]), [])
  }

  lemma EmptyIsConsistent()
    ensures Inv(Empty())
  {
  }

  // ---- No committed event is lost ----

  /** A committed row keeps its event, never becomes unpublished again, and its attempt count never falls. */
  ghost predicate RowGoesOn(a: Outbox, b: Outbox, id: EventId) {
    id in a.rows ==>
      && id in b.rows && b.rows[id].event == a.rows[id].event
      && (a.rows[id].published ==> b.rows[id].published)
      && a.rows[id].attempts <= b.rows[id].attempts
  }

  lemma StepKeepsRows(p: Publication, step: Step, id: EventId)
    requires Inv(p)
    ensures RowGoesOn(p.outbox, Next(p, step).outbox, id)
  {
    hide PublishOne, Picks;
    if step.Commit? && step.w in p.outbox.batches {
      assert BatchIsTrue(p, p.outbox.batches[step.w]);
    }
    if step.Publish? && Offering(p.outbox, step.w) {
      SamePicks(p, step.w, step.outcome);
    }
  }

  lemma {:induction false} RowGoesOnThrough(p: Publication, steps: seq<Step>, id: EventId)
    requires Inv(p)
    ensures RowGoesOn(p.outbox, Run(p, steps).outbox, id)
    decreases |steps|
  {
    hide Inv, Next;
    if steps != [] {
      var init := steps[..|steps| - 1];
      RowGoesOnThrough(p, init, id);
      RunKeepsInv(p, init);
      StepKeepsRows(Run(p, init), steps[|steps| - 1], id);
    }
  }

  /** Whatever happened before and whatever follows, a committed row goes on. */
  lemma RowsAreNeverLost(steps: seq<Step>, more: seq<Step>, id: EventId)
    ensures RowGoesOn(Run(Empty(), steps).outbox, Run(Run(Empty(), steps), more).outbox, id)
  {
    hide Inv, Run, RowGoesOn;
    EmptyIsConsistent();
    RunKeepsInv(Empty(), steps);
    RowGoesOnThrough(Run(Empty(), steps), more, id);
  }

  /**
   A committed row is published, and then the broker has its message, or it is
   eligible, or one open batch holds it and the crash of that batch makes it eligible.
   */
  ghost predicate AccountedFor(p: Publication, id: EventId)
    requires id in p.outbox.rows
  {
    || (p.outbox.rows[id].published && InStream(p.stream, p.outbox.rows[id].event))
    || (!p.outbox.rows[id].published && id in Eligible(p.outbox))
    || (!p.outbox.rows[id].published
        && exists w :: Holds(p.outbox, w, id) && id in Eligible(Next(p, Abort(w)).outbox))
  }

  lemma AbortFrees(p: Publication, w: Worker, id: EventId)
    requires Holds(p.outbox, w, id) && (forall v :: Holds(p.outbox, v, id) ==> v == w)
    requires id in p.outbox.rows && !p.outbox.rows[id].published
    ensures id in Eligible(Next(p, Abort(w)).outbox)
  {
    var n := Next(p, Abort(w));
    assert forall v :: Holds(n.outbox, v, id) ==> Holds(p.outbox, v, id) && v != w;
  }

  lemma HeldByOne(p: Publication, v: Worker, w: Worker, id: EventId)
    requires Inv(p) && Holds(p.outbox, v, id) && Holds(p.outbox, w, id)
    ensures v == w
  {
  }

  lemma RowIsAccountedFor(p: Publication, id: EventId)
    requires Inv(p) && id in p.outbox.rows
    ensures AccountedFor(p, id)
  {
    hide Inv, Next;
    if p.outbox.rows[id].published {
      PublishedWasAccepted(p, id);
    } else if id !in Eligible(p.outbox) {
      var w :| w in p.outbox.batches && Holds(p.outbox, w, id);
      forall v | Holds(p.outbox, v, id) ensures v == w {
        HeldByOne(p, v, w, id);
      }
      AbortFrees(p, w, id);
    }
  }

  lemma EveryRowIsAccountedFor(steps: seq<Step>, id: EventId)
    requires id in Run(Empty(), steps).outbox.rows
    ensures AccountedFor(Run(Empty(), steps), id)
  {
    hide Inv, Run, AccountedFor;
    EmptyIsConsistent();
    RunKeepsInv(Empty(), steps);
    RowIsAccountedFor(Run(Empty(), steps), id);
  }

  /** The publishes of one batch, and the whole of it. */
  function Offers(w: Worker, limit: nat, answers: nat -> Outcome, n: nat): seq<Step> {
    if n == 0 then [Begin(w, limit)] else Offers(w, limit, answers, n - 1) + [Publish(w, answers(n - 1))]
  }

  function BatchSteps(w: Worker, limit: nat, answers: nat -> Outcome, n: nat): seq<Step> {
    Offers(w, limit, answers, n) + [Commit(w)]
  }

  function CountAccepted(answers: nat -> Outcome, n: nat): nat {
    if n == 0 then 0 else CountAccepted(answers, n - 1) + if answers(n - 1).Accepted? then 1 else 0
  }

  lemma RunBegins(p: Publication, w: Worker, limit: nat, answers: nat -> Outcome)
    ensures Run(p, Offers(w, limit, answers, 0)) == Next(p, Begin(w, limit))
  {
    assert [Begin(w, limit)][..0] == [];
    assert Run(p, []) == p;
  }

  lemma RunOffers(p: Publication, w: Worker, limit: nat, answers: nat -> Outcome, i: nat)
    ensures Run(p, Offers(w, limit, answers, i + 1)) ==
      Next(Run(p, Offers(w, limit, answers, i)), Publish(w, answers(i)))
    ensures Run(p, BatchSteps(w, limit, answers, i)) == Next(Run(p, Offers(w, limit, answers, i)), Commit(w))
  {
    RunOneMore(p, Offers(w, limit, answers, i), Publish(w, answers(i)));
    RunOneMore(p, Offers(w, limit, answers, i), Commit(w));
  }

  /** The first n picked rows have a draft of what the broker answered for them. */
  ghost predicate Drafted(
    rows: map<EventId, Row>, picks: seq<EventId>, answers: nat -> Outcome, drafts: map<EventId, Row>, n: nat)
  {
    && n <= |picks|
    && (forall id :: id in drafts ==> id in picks)
    && (forall k :: 0 <= k < n ==>
          picks[k] in rows && picks[k] in drafts && drafts[picks[k]] == Attempt(rows[picks[k]], answers(k)))
  }

  lemma DraftedOneMore(
    rows: map<EventId, Row>, picks: seq<EventId>, answers: nat -> Outcome, drafts: map<EventId, Row>, n: nat)
    requires Drafted(rows, picks, answers, drafts, n) && Distinct(picks) && n < |picks| && picks[n] in rows
    ensures Drafted(rows, picks, answers, drafts[picks[n] := Attempt(rows[picks[n]], answers(n))], n + 1)
  {
    hide Attempt;
  }

  /** Each picked row records what the broker answered for it; every other row is untouched. */
  ghost predicate Recorded(
    before: map<EventId, Row>, after: map<EventId, Row>, picks: seq<EventId>, answers: nat -> Outcome)
  {
    && (forall k :: 0 <= k < |picks| ==>
          picks[k] in before && picks[k] in after && after[picks[k]] == Attempt(before[picks[k]], answers(k)))
    && (forall id :: id !in picks ==> (id in after <==> id in before) && (id in after ==> after[id] == before[id]))
  }

  lemma DraftedIsRecorded(
    rows: map<EventId, Row>, picks: seq<EventId>, answers: nat -> Outcome, drafts: map<EventId, Row>)
    requires Drafted(rows, picks, answers, drafts, |picks|)
    ensures Recorded(rows, rows + drafts, picks, answers)
  {
    hide Attempt;
  }

  /** A publisher with its transaction and the broker; each call is one batch. */
  class OutboxPublisher {
    const me: Worker
    var outbox: Outbox
    var stream: Stream

    constructor (me: Worker, outbox: Outbox, stream: Stream)
      ensures this.me == me && this.outbox == outbox && this.stream == stream
    {
      this.me, this.outbox, this.stream := me, outbox, stream;
    }

    /** Offer a locked batch row by row, then commit what happened to each row. */
    method PublishBatch(limit: nat, answers: nat -> Outcome) returns (published: nat)
      requires Inv(Publication(outbox, stream)) && me !in outbox.batches
      modifies this
      ensures
        var before, picks := old(Publication(outbox, stream)), Picks(old(outbox), limit);
        && Publication(outbox, stream) == Run(before, BatchSteps(me, limit, answers, |picks|))
        && Inv(Publication(outbox, stream))
        && outbox.batches == before.outbox.batches
        && published == CountAccepted(answers, |picks|)
        && Recorded(before.outbox.rows, outbox.rows, picks, answers)
    {
      hide Inv, Run, Next, Picks, Eligible, Drafted, Recorded, Offers, BatchSteps, Distinct;
      ghost var before := Publication(outbox, stream);
      var picks := Picks(outbox, limit);
      PicksAreRows(outbox, limit);
      BeginFacts(before, me, limit);
      RunBegins(before, me, limit, answers);
      var drafts: map<EventId, Row> := map[];
      NothingDrafted(outbox.rows, picks, answers);
      published := 0;
      var i := 0;
      while i < |picks|
        invariant 0 <= i <= |picks| && outbox == before.outbox
        invariant published == CountAccepted(answers, i)
        invariant Drafted(outbox.rows, picks, answers, drafts, i)
        invariant Run(before, Offers(me, limit, answers, i)) == Open(outbox, me, Batch(picks, i, drafts), stream)
      {
        var row := outbox.rows[picks[i]];
        RunOffers(before, me, limit, answers, i);
        OfferFacts(outbox, me, Batch(picks, i, drafts), stream, answers(i));
        DraftedOneMore(outbox.rows, picks, answers, drafts, i);
        match answers(i) {
          case Accepted =>
            stream := stream + [NewMessage(row.event, FromOutbox)];
            row := row.(published := true, attempts := row.attempts + 1, lastError := None);
            published := published + 1;
          case AcceptedThenError(failure) =>
            stream := stream + [NewMessage(row.event, FromOutbox)];
            row := row.(attempts := row.attempts + 1, lastError := Some(failure));
          case Refused(failure) =>
            row := row.(attempts := row.attempts + 1, lastError := Some(failure));
        }
        drafts := drafts[picks[i] := row];
        i := i + 1;
      }
      RunOffers(before, me, limit, answers, |picks|);
      CommitFacts(outbox, me, Batch(picks, |picks|, drafts), stream);
      DraftedIsRecorded(outbox.rows, picks, answers, drafts);
      RunKeepsInv(before, BatchSteps(me, limit, answers, |picks|));
      outbox := outbox.(rows := outbox.rows + drafts);
    }
  }

  lemma PicksAreRows(o: Outbox, limit: nat)
    ensures Distinct(Picks(o, limit)) && forall i :: 0 <= i < |Picks(o, limit)| ==> Picks(o, limit)[i] in o.rows
  {
    PicksAreOldestEligible(o, limit);
  }

  lemma NothingDrafted(rows: map<EventId, Row>, picks: seq<EventId>, answers: nat -> Outcome)
    ensures Drafted(rows, picks, answers, map[], 0)
  {
  }

  /** The state while worker w has batch b open. */
  function Open(o: Outbox, w: Worker, b: Batch, stream: Stream): Publication {
    Publication(o.(batches := o.batches[w := b]), stream)
  }

  lemma BeginFacts(p: Publication, w: Worker, limit: nat)
    requires w !in p.outbox.batches
    ensures Next(p, Begin(w, limit)) == Open(p.outbox, w, Batch(Picks(p.outbox, limit), 0, map[]), p.stream)
  {
  }

  lemma OfferFacts(o: Outbox, w: Worker, b: Batch, stream: Stream, outcome: Outcome)
    requires b.done < |b.picks| && b.picks[b.done] in o.rows
    ensures
      var row := o.rows[b.picks[b.done]];
      Next(Open(o, w, b, stream), Publish(w, outcome)) ==
        Open(o, w, Batch(b.picks, b.done + 1, b.drafts[b.picks[b.done] := Attempt(row, outcome)]),
             if outcome.Refused? then stream else stream + [NewMessage(row.event, FromOutbox)])
  {
  }

  lemma CommitFacts(o: Outbox, w: Worker, b: Batch, stream: Stream)
    requires w !in o.batches && b.done == |b.picks|
    ensures Next(Open(o, w, b, stream), Commit(w)) == Publication(o.(rows := o.rows + b.drafts), stream)
  {
  }

  // ---- Any committed event can still be published ----

  lemma {:induction false} OffersDraft(p: Publication, w: Worker, limit: nat, answers: nat -> Outcome, n: nat)
    returns (drafts: map<EventId, Row>, stream: Stream)
    requires w !in p.outbox.batches && n <= |Picks(p.outbox, limit)|
    ensures Drafted(p.outbox.rows, Picks(p.outbox, limit), answers, drafts, n)
    ensures Run(p, Offers(w, limit, answers, n)) == Open(p.outbox, w, Batch(Picks(p.outbox, limit), n, drafts), stream)
    decreases n
  {
    hide Run, Next, Picks, Drafted, Offers, Distinct, BatchSteps;
    var picks := Picks(p.outbox, limit);
    PicksAreRows(p.outbox, limit);
    if n == 0 {
      BeginFacts(p, w, limit);
      RunBegins(p, w, limit, answers);
      NothingDrafted(p.outbox.rows, picks, answers);
      drafts, stream := map[], p.stream;
    } else {
      var before, sent := OffersDraft(p, w, limit, answers, n - 1);
      RunOffers(p, w, limit, answers, n - 1);
      OfferFacts(p.outbox, w, Batch(picks, n - 1, before), sent, answers(n - 1));
      DraftedOneMore(p.outbox.rows, picks, answers, before, n - 1);
      var row := p.outbox.rows[picks[n - 1]];
      drafts := before[picks[n - 1] := Attempt(row, answers(n - 1))];
      stream := if answers(n - 1).Refused? then sent else sent + [NewMessage(row.event, FromOutbox)];
    }
  }

  /** One whole batch of a publisher while the broker accepts everything. */
  function AcceptedBatch(p: Publication, w: Worker, limit: nat): Publication {
    Run(p, BatchSteps(w, limit, (i: nat) => Accepted, |Picks(p.outbox, limit)|))
  }

  /** One accepted batch of each of some publishers, in turn. */
  function AcceptedBatches(p: Publication, workers: seq<Worker>, limit: nat): Publication
    decreases |workers|
  {
    if workers == [] then p else AcceptedBatches(AcceptedBatch(p, workers[0], limit), workers[1..], limit)
  }

  /** The eligible rows that go before this one. */
  function Ahead(o: Outbox, id: EventId): (ids: set<EventId>)
    ensures forall x :: x in ids <==> x in Eligible(o) && x != id && NotAfter(o.rows, x, id)
  {
    set x | x in Eligible(o) && x != id && NotAfter(o.rows, x, id)
  }

  lemma BatchRecords(p: Publication, w: Worker, limit: nat)
    requires Inv(p) && w !in p.outbox.batches
    ensures
      var n, picks := AcceptedBatch(p, w, limit), Picks(p.outbox, limit);
      && Inv(n) && n.outbox.batches == p.outbox.batches
      && Recorded(p.outbox.rows, n.outbox.rows, picks, (i: nat) => Accepted)
  {
    hide Run, Next, Picks, Drafted, Recorded, Offers, Inv, BatchSteps;
    var picks, answers := Picks(p.outbox, limit), (i: nat) => Accepted;
    var drafts, stream := OffersDraft(p, w, limit, answers, |picks|);
    RunOffers(p, w, limit, answers, |picks|);
    CommitFacts(p.outbox, w, Batch(picks, |picks|, drafts), stream);
    DraftedIsRecorded(p.outbox.rows, picks, answers, drafts);
    RunKeepsInv(p, BatchSteps(w, limit, answers, |picks|));
  }

  /** An accepted batch publishes its picks and changes no other row. */
  lemma BatchPublishes(p: Publication, w: Worker, limit: nat)
    requires Inv(p) && w !in p.outbox.batches
    ensures
      var n, picks := AcceptedBatch(p, w, limit), Picks(p.outbox, limit);
      && Inv(n) && n.outbox.batches == p.outbox.batches
      && (forall id :: id in p.outbox.rows ==>
            id in n.outbox.rows && n.outbox.rows[id].event == p.outbox.rows[id].event)
      && (forall id :: id in picks ==> id in n.outbox.rows && n.outbox.rows[id].published)
      && (forall id :: id in Eligible(n.outbox) <==> id in Eligible(p.outbox) && id !in picks)
  {
    var n, picks := AcceptedBatch(p, w, limit), Picks(p.outbox, limit);
    BatchRecords(p, w, limit);
    hide AcceptedBatch, Picks, Inv;
    forall id | id in picks
      ensures id in p.outbox.rows && id in n.outbox.rows && n.outbox.rows[id] == Attempt(p.outbox.rows[id], Accepted)
    {
      var k :| 0 <= k < |picks| && picks[k] == id;
    }
    assert forall id :: Locked(n.outbox, id) <==> Locked(p.outbox, id);
  }

  /** A row left out of a batch has a full batch fewer ahead of it. */
  lemma BatchMovesRowUp(p: Publication, w: Worker, limit: nat, id: EventId)
    requires Inv(p) && w !in p.outbox.batches && id in Eligible(p.outbox) && id !in Picks(p.outbox, limit)
    ensures id in Eligible(AcceptedBatch(p, w, limit).outbox)
    ensures |Ahead(AcceptedBatch(p, w, limit).outbox, id)| == |Ahead(p.outbox, id)| - limit
  {
    hide AcceptedBatch, Picks, Inv;
    var n, picks := AcceptedBatch(p, w, limit), Picks(p.outbox, limit);
    BatchPublishes(p, w, limit);
    PicksAreOldestEligible(p.outbox, limit);
    FullBatch(picks, Eligible(p.outbox), id);
    hide Eligible;
    assert Members(picks) <= Ahead(p.outbox, id);
    assert Ahead(n.outbox, id) == Ahead(p.outbox, id) - Members(picks);
    DistinctMembers(picks);
  }

  lemma DistinctMembers(picks: seq<EventId>)
    requires Distinct(picks)
    ensures |Members(picks)| == |picks|
  {
    if picks != [] {
      var init, last := picks[..|picks| - 1], picks[|picks| - 1];
      DistinctMembers(init);
      assert picks == init + [last];
      assert Members(picks) == Members(init) + {last};
    }
  }

  /** Distinct members that leave one out are fewer than the set. */
  lemma FullBatch(picks: seq<EventId>, ids: set<EventId>, id: EventId)
    requires Distinct(picks) && id in ids && id !in picks && forall x :: x in picks ==> x in ids
    ensures |picks| < |ids|
  {
    DistinctMembers(picks);
    SubsetIsSmaller(Members(picks), ids - {id});
  }

  lemma {:induction false} PublishedStays(p: Publication, workers: seq<Worker>, limit: nat, id: EventId)
    requires Inv(p) && (forall w :: w in workers ==> w !in p.outbox.batches)
    requires id in p.outbox.rows && p.outbox.rows[id].published
    ensures
      var n := AcceptedBatches(p, workers, limit);
      && Inv(n) && id in n.outbox.rows && n.outbox.rows[id].published
      && n.outbox.rows[id].event == p.outbox.rows[id].event
    decreases |workers|
  {
    hide AcceptedBatch, Inv, Eligible;
    if workers != [] {
      BatchPublishes(p, workers[0], limit);
      RowGoesOnThrough(p, BatchSteps(workers[0], limit, (i: nat) => Accepted, |Picks(p.outbox, limit)|), id);
      BatchIs(p, workers[0], limit);
      PublishedStays(AcceptedBatch(p, workers[0], limit), workers[1..], limit, id);
    }
  }

  lemma BatchIs(p: Publication, w: Worker, limit: nat)
    ensures AcceptedBatch(p, w, limit) == Run(p, BatchSteps(w, limit, (i: nat) => Accepted, |Picks(p.outbox, limit)|))
  {
  }

  /**
   While the broker accepts, an eligible row is published, whatever the backlog,
   by as many batches as it takes to work through the rows ahead of it and itself.
   */
  lemma {:induction false} EligibleRowGetsPublished(p: Publication, workers: seq<Worker>, limit: nat, id: EventId)
    requires Inv(p) && (forall w :: w in workers ==> w !in p.outbox.batches)
    requires id in Eligible(p.outbox) && |Ahead(p.outbox, id)| < |workers| * limit
    ensures
      var n := AcceptedBatches(p, workers, limit);
      && id in n.outbox.rows && n.outbox.rows[id].published
      && InStream(n.stream, p.outbox.rows[id].event)
    decreases |workers|
  {
    hide AcceptedBatch, Inv, Picks, Ahead;
    var w, rest := workers[0], workers[1..];
    var m := AcceptedBatch(p, w, limit);
    BatchPublishes(p, w, limit);
    if id in Picks(p.outbox, limit) {
      PublishedStays(m, rest, limit, id);
      PublishedWasAccepted(AcceptedBatches(m, rest, limit), id);
    } else {
      BatchMovesRowUp(p, w, limit, id);
      assert |workers| * limit == |rest| * limit + limit;
      EligibleRowGetsPublished(m, rest, limit, id);
    }
  }

  lemma PublishedWasAccepted(p: Publication, id: EventId)
    requires Inv(p) && id in p.outbox.rows && p.outbox.rows[id].published
    ensures InStream(p.stream, p.outbox.rows[id].event)
  {
    assert RowIsTrue(p.stream, id, p.outbox.rows[id]);
  }
}
