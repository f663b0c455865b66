/**
 First-in-first-out admission among overlapping key sets, with a hard bound on
 the queue. Every step is what the code does while it holds the condition.
 Tickets are numbered as they are appended, so queue order is ticket order.
 */
module KeyedAdmission {
  import opened Wrappers
  import opened Collections

  type Key = nat
  type TicketId = nat

  /** Where the task that owns a ticket stands. */
  datatype Phase =
    | Ready     // about to look at the queue
    | Sleeping  // waiting on the condition, not yet notified
    | Admitted  // inside the protected section
    | Leaving   // its cleanup will remove the ticket

  datatype Entry = Entry(keys: set<Key>, phase: Phase)

  type Queue = map<TicketId, Entry>

  datatype State = State(limit: nat, queue: Queue, closed: bool, next: TicketId)

  datatype Step =
    | Enter(keys: set<Key>)   // append a ticket
    | Check(id: TicketId)     // one turn of the wait loop
    | GiveUp(id: TicketId)    // timeout, cancellation, or the end of the protected section
    | Remove(id: TicketId)    // the owned cleanup task
    | Close

  function Init(limit: nat): State {
    State(limit, map[], false, 0)
  }

  predicate Overlap(a: set<Key>, b: set<Key>) {
    !(a !! b)
  }

  /** The earlier overlapping tickets a queued ticket waits behind. */
  function Blockers(q: Queue, id: TicketId): (ids: set<TicketId>)
    requires id in q
    ensures forall u :: u in ids <==> u in q && u < id && Overlap(q[u].keys, q[id].keys)
  {
    set u | u in q && u < id && Overlap(q[u].keys, q[id].keys)
  }

  function NotifyAll(q: Queue): (r: Queue)
    ensures r.Keys == q.Keys
    ensures forall id :: id in q ==> r[id].keys == q[id].keys
    ensures forall id :: id in q ==> r[id].phase == if q[id].phase.Sleeping? then Ready else q[id].phase
  {
    map id | id in q :: q[id].(phase := if q[id].phase.Sleeping? then Ready else q[id].phase)
  }

  function Verdict(s: State, id: TicketId): Phase
    requires id in s.queue
  {
    if s.closed then Leaving else if Blockers(s.queue, id) == {} then Admitted else Sleeping
  }

  predicate At(s: State, id: TicketId, phase: Phase) {
    id in s.queue && s.queue[id].phase == phase
  }

  function Put(s: State, id: TicketId, phase: Phase): State
    requires id in s.queue
  {
    s.(queue := s.queue[id := s.queue[id].(phase := phase)])
  }

  /** One atomic step; a step whose task is not in the right place changes nothing. */
  function Next(s: State, step: Step): State {
    match step
    case Enter(keys) =>
      if s.closed || |s.queue| >= s.limit then s else
        s.(queue := NotifyAll(s.queue)[s.next := Entry(keys, Ready)], next := s.next + 1)
    case Check(id) => if At(s, id, Ready) then Put(s, id, Verdict(s, id)) else s
    case GiveUp(id) => if id in s.queue then Put(s, id, Leaving) else s
    case Remove(id) => if At(s, id, Leaving) then s.(queue := NotifyAll(s.queue - {id})) else s
    case Close => s.(closed := true, queue := NotifyAll(s.queue))
  }

  function Run(s: State, steps: seq<Step>): State
    decreases |steps|
  {
    if steps == [] then s else Run(Next(s, steps[0]), steps[1..])
  }

  // ---- What every reachable state keeps ----

  ghost predicate Bounded(s: State) {
    |s.queue| <= s.limit && forall id :: id in s.queue ==> id < s.next
  }

  /** Nobody is admitted behind an earlier overlapping ticket, whatever that ticket is doing. */
  ghost predicate AdmittedUnblocked(s: State) {
    forall id :: id in s.queue && s.queue[id].phase.Admitted? ==> Blockers(s.queue, id) == {}
  }

  /** No lost wakeup: an unnotified sleeper really has to wait, and nobody sleeps after close. */
  ghost predicate SleepersMustWait(s: State) {
    forall id :: id in s.queue && s.queue[id].phase.Sleeping? ==> !s.closed && Blockers(s.queue, id) != {}
  }

  ghost predicate Inv(s: State) {
    Bounded(s) && AdmittedUnblocked(s) && SleepersMustWait(s)
  }

  /** The set a ticket waits behind changes only by losing the ticket a step removes. */
  lemma BlockersOnlyShrink(s: State, step: Step, id: TicketId)
    requires Bounded(s) && id in s.queue && id in Next(s, step).queue
    ensures Blockers(Next(s, step).queue, id) ==
      if step.Remove? && At(s, step.id, Leaving) then Blockers(s.queue, id) - {step.id} else Blockers(s.queue, id)
  {
  }

  lemma NextKeepsBounded(s: State, step: Step)
    requires Bounded(s)
    ensures Bounded(Next(s, step)) && s.next <= Next(s, step).next
  {
    var t := Next(s, step);
    TicketsAfter(s, step);
    hide Next;
    assert |t.queue| == |t.queue.Keys| && |s.queue| == |s.queue.Keys|;
    if t.queue.Keys <= s.queue.Keys {
      SubsetIsSmaller(t.queue.Keys, s.queue.Keys);
    }
  }

  /** A step adds the next ticket where there is room, or adds none. */
  lemma TicketsAfter(s: State, step: Step)
    ensures
      var t := Next(s, step);
      && t.limit == s.limit && s.next <= t.next
      && (t.queue.Keys <= s.queue.Keys
          || (|s.queue| < s.limit && t.queue.Keys == s.queue.Keys + {s.next} && t.next == s.next + 1))
  {
  }

  /** How a ticket comes to be admitted or asleep after a step. */
  lemma PhaseChanges(s: State, step: Step, id: TicketId)
    requires id in s.queue && id in Next(s, step).queue
    ensures
      var t := Next(s, step);
      && (At(t, id, Admitted) ==>
            At(s, id, Admitted) || (step == Check(id) && Verdict(s, id) == Admitted && t.closed == s.closed))
      && (At(t, id, Sleeping) ==>
            || (At(s, id, Sleeping) && t.closed == s.closed && (step.Remove? ==> t == s))
            || (step == Check(id) && Verdict(s, id) == Sleeping && t.closed == s.closed))
  {
    hide Blockers, NotifyAll;
  }

  lemma NextKeepsPhases(s: State, step: Step, id: TicketId)
    requires Inv(s) && id in s.queue && id in Next(s, step).queue
    ensures
      var t := Next(s, step);
      && (t.queue[id].phase.Admitted? ==> Blockers(t.queue, id) == {})
      && (t.queue[id].phase.Sleeping? ==> !t.closed && Blockers(t.queue, id) != {})
  {
    BlockersOnlyShrink(s, step, id);
    PhaseChanges(s, step, id);
    assert step.Remove? && At(s, step.id, Leaving) ==> Next(s, step) != s;
    hide Blockers, Next;
  }

  lemma NextKeepsInv(s: State, step: Step)
    requires Inv(s)
    ensures Inv(Next(s, step))
  {
    NextKeepsBounded(s, step);
    NewTicketsAreReady(s, step);
    forall id | id in Next(s, step).queue && id in s.queue
      ensures
        var t := Next(s, step);
        && (t.queue[id].phase.Admitted? ==> Blockers(t.queue, id) == {})
        && (t.queue[id].phase.Sleeping? ==> !t.closed && Blockers(t.queue, id) != {})
    {
      NextKeepsPhases(s, step, id);
    }
    hide Next, Blockers;
  }

  lemma NewTicketsAreReady(s: State, step: Step)
    ensures forall id :: id in Next(s, step).queue && id !in s.queue ==> Next(s, step).queue[id].phase.Ready?
  {
  }

  /** A step brings no old ticket back and leaves the keys of queued tickets alone. */
  lemma NextKeepsTickets(s: State, step: Step, id: TicketId)
    requires id < s.next
    ensures id in Next(s, step).queue ==> id in s.queue && Next(s, step).queue[id].keys == s.queue[id].keys
  {
  }

  lemma {:induction false} RunKeepsInv(s: State, steps: seq<Step>)
    requires Inv(s)
    ensures Inv(Run(s, steps)) && Run(s, steps).limit == s.limit
    decreases |steps|
  {
    if steps != [] {
      NextKeepsInv(s, steps[0]);
      assert Next(s, steps[0]).limit == s.limit;
      hide Next, Inv;
      RunKeepsInv(Next(s, steps[0]), steps[1..]);
    }
  }

  // ---- Safety over every run ----

  /** Through any timeouts, cancellations and close: admitted tickets share no key and the bound holds. */
  lemma AdmissionIsExclusive(limit: nat, steps: seq<Step>, a: TicketId, b: TicketId)
    ensures |Run(Init(limit), steps).queue| <= limit
    ensures
      var s := Run(Init(limit), steps);
      a != b && At(s, a, Admitted) && At(s, b, Admitted) ==> s.queue[a].keys !! s.queue[b].keys
  {
    RunKeepsInv(Init(limit), steps);
    var s := Run(Init(limit), steps);
    if a != b && At(s, a, Admitted) && At(s, b, Admitted) {
      InvSeparates(s, a, b);
    }
  }

  lemma InvSeparates(s: State, a: TicketId, b: TicketId)
    requires Inv(s) && a != b && At(s, a, Admitted) && At(s, b, Admitted)
    ensures s.queue[a].keys !! s.queue[b].keys
  {
    assert a !in Blockers(s.queue, b) && b !in Blockers(s.queue, a);
  }

  /** A ticket that has left never comes back, and a queued ticket keeps its keys. */
  lemma {:induction false} TicketsDoNotReturn(s: State, steps: seq<Step>, id: TicketId)
    requires Inv(s) && id < s.next
    ensures id in Run(s, steps).queue ==> id in s.queue && Run(s, steps).queue[id].keys == s.queue[id].keys
    decreases |steps|
  {
    if steps != [] {
      NextKeepsInv(s, steps[0]);
      NextKeepsBounded(s, steps[0]);
      NextKeepsTickets(s, steps[0], id);
      hide Next, Inv;
      TicketsDoNotReturn(Next(s, steps[0]), steps[1..], id);
    }
  }

  /** First in, first out: once a ticket is admitted, every overlapping ticket that was ahead of it has left. */
  lemma {:induction false} FirstInFirstOut(s: State, steps: seq<Step>, early: TicketId, late: TicketId)
    requires Inv(s) && early in s.queue && late in s.queue && early < late
    requires Overlap(s.queue[early].keys, s.queue[late].keys)
    ensures At(Run(s, steps), late, Admitted) ==> early !in Run(s, steps).queue
  {
    RunKeepsInv(s, steps);
    TicketsDoNotReturn(s, steps, early);
    TicketsDoNotReturn(s, steps, late);
    var t := Run(s, steps);
    assert At(t, late, Admitted) ==> early !in Blockers(t.queue, late);
  }

  // ---- Progress ----

  ghost predicate Eligible(s: State, id: TicketId) {
    id in s.queue && !s.closed && Blockers(s.queue, id) == {}
  }

  /** In every reachable state: while open, the head of the queue is eligible and is not asleep. */
  lemma HeadCanMove(limit: nat, steps: seq<Step>, head: TicketId)
    requires
      var s := Run(Init(limit), steps);
      !s.closed && head in s.queue && forall id :: id in s.queue ==> head <= id
    ensures
      var s := Run(Init(limit), steps);
      Eligible(s, head) && !s.queue[head].phase.Sleeping?
  {
    RunKeepsInv(Init(limit), steps);
    hide Run;
  }

  /**
   Over a whole run what still blocks a waiter is exactly what blocked it before and
   has not left: its rank falls with each that leaves, and never rises.
   */
  lemma RankNeverRises(s: State, steps: seq<Step>, id: TicketId)
    requires Inv(s) && id in s.queue && id in Run(s, steps).queue
    ensures
      var n := Run(s, steps);
      && (forall u :: u in Blockers(n.queue, id) <==> u in Blockers(s.queue, id) && u in n.queue)
      && |Blockers(n.queue, id)| <= |Blockers(s.queue, id)|
  {
    hide Run, Inv, Blockers, Overlap;
    var n := Run(s, steps);
    TicketsAreBelowNext(s);
    TicketsDoNotReturn(s, steps, id);
    forall u: TicketId ensures u in Blockers(n.queue, id) <==> u in Blockers(s.queue, id) && u in n.queue {
      if u < s.next {
        TicketsDoNotReturn(s, steps, u);
      }
    }
    SubsetIsSmaller(Blockers(n.queue, id), Blockers(s.queue, id));
  }

  lemma TicketsAreBelowNext(s: State)
    requires Inv(s)
    ensures forall u :: u in s.queue ==> u < s.next
  {
  }

  /**
   A step admits a ticket exactly when it is the ticket's own turn of the wait loop
   and nothing blocks it; a turn gives up exactly when the queue is closed.
   */
  lemma OwnTurnAdmitsExactlyTheEligible(s: State, step: Step, id: TicketId)
    requires Inv(s)
    ensures !At(s, id, Admitted) && At(Next(s, step), id, Admitted) <==>
      step == Check(id) && At(s, id, Ready) && Eligible(s, id)
    ensures step == Check(id) && At(s, id, Ready) ==> (At(Next(s, step), id, Leaving) <==> s.closed)
  {
    if id in s.queue && id in Next(s, step).queue {
      PhaseChanges(s, step, id);
    }
  }

  /** Blockers give up and are removed, then the waiter takes one turn. */
  ghost predicate LeaveThenCheck(steps: seq<Step>, blockers: set<TicketId>, id: TicketId) {
    && |steps| > 0
    && steps[|steps| - 1] == Check(id)
    && forall k :: 0 <= k < |steps| - 1 ==> (steps[k].GiveUp? || steps[k].Remove?) && steps[k].id in blockers
  }

  lemma LeaveFirst(rest: seq<Step>, blockers: set<TicketId>, u: TicketId, id: TicketId)
    requires u in blockers && LeaveThenCheck(rest, blockers - {u}, id)
    ensures LeaveThenCheck([GiveUp(u), Remove(u)] + rest, blockers, id)
  {
  }

  lemma OneTurn(s: State, id: TicketId)
    requires Inv(s) && !s.closed && (At(s, id, Ready) || At(s, id, Sleeping)) && Blockers(s.queue, id) == {}
    ensures At(Run(s, [Check(id)]), id, Admitted)
  {
    assert Run(s, [Check(id)]) == Next(s, Check(id));
  }

  /**
   A waiter always has a way in: once each ticket blocking it has left, one by
   one, its next turn admits it, and it needs nothing else.
   */
  lemma {:induction false} EveryWaiterCanBeAdmitted(s: State, id: TicketId) returns (steps: seq<Step>)
    requires Inv(s) && !s.closed && (At(s, id, Ready) || At(s, id, Sleeping))
    ensures At(Run(s, steps), id, Admitted)
    ensures |steps| == 2 * |Blockers(s.queue, id)| + 1
    ensures LeaveThenCheck(steps, Blockers(s.queue, id), id)
    decreases |Blockers(s.queue, id)|
  {
    if Blockers(s.queue, id) == {} {
      steps := [Check(id)];
      OneTurn(s, id);
    } else {
      var u :| u in Blockers(s.queue, id);
      BlockerLeaves(s, id, u);
      var rest := EveryWaiterCanBeAdmitted(Next(Next(s, GiveUp(u)), Remove(u)), id);
      hide Next, Inv, Blockers, Run, LeaveThenCheck;
      LeaveFirst(rest, Blockers(s.queue, id), u, id);
      steps := [GiveUp(u), Remove(u)] + rest;
      TwoStepsFirst(s, GiveUp(u), Remove(u), rest);
    }
  }

  /** A blocker that gives up and is removed no longer blocks; the waiter itself stays and is awake or asleep. */
  lemma BlockerLeaves(s: State, id: TicketId, u: TicketId)
    requires Inv(s) && !s.closed && (At(s, id, Ready) || At(s, id, Sleeping)) && u in Blockers(s.queue, id)
    ensures
      var t := Next(Next(s, GiveUp(u)), Remove(u));
      && Inv(t) && !t.closed && (At(t, id, Ready) || At(t, id, Sleeping))
      && Blockers(t.queue, id) == Blockers(s.queue, id) - {u}
  {
    var left := Next(s, GiveUp(u));
    NextKeepsInv(s, GiveUp(u));
    NextKeepsInv(left, Remove(u));
    BlockersOnlyShrink(s, GiveUp(u), id);
    BlockersOnlyShrink(left, Remove(u), id);
    hide Inv, Blockers;
  }

  lemma TwoStepsFirst(s: State, a: Step, b: Step, rest: seq<Step>)
    ensures Run(s, [a, b] + rest) == Run(Next(Next(s, a), b), rest)
  {
    assert ([a, b] + rest)[1..] == [b] + rest;
    assert ([b] + rest)[1..] == rest;
  }

  // ---- The object itself ----

  datatype Ticket = Ticket(id: TicketId, keys: set<Key>)

  datatype Refusal = AdmissionClosed | CapacityReached

  ghost predicate Ascending(tickets: seq<Ticket>) {
    forall i, j :: 0 <= i < j < |tickets| ==> tickets[i].id < tickets[j].id
  }

  /** The list holds exactly the queued tickets, in the order they were numbered. */
  ghost predicate Lists(tickets: seq<Ticket>, q: Queue) {
    && Ascending(tickets)
    && (forall t :: t in tickets ==> t.id in q && q[t.id].keys == t.keys)
    && (forall id :: id in q ==> Ticket(id, q[id].keys) in tickets)
  }

  lemma {:induction false} ListLength(tickets: seq<Ticket>, q: Queue)
    requires Lists(tickets, q)
    ensures |tickets| == |q|
    decreases |tickets|
  {
    if tickets == [] {
      assert q == map[];
    } else {
      DropOne(tickets, 0);
      assert tickets[0] in tickets;
      var rest := tickets[..0] + tickets[1..];
      DropKeepsLists(tickets, q, 0, rest, q - {tickets[0].id});
      ListLength(rest, q - {tickets[0].id});
      assert |(q - {tickets[0].id}).Keys| == |q.Keys| - 1;
    }
  }

  lemma DropKeepsLists(tickets: seq<Ticket>, q: Queue, p: nat, rest: seq<Ticket>, r: Queue)
    requires Lists(tickets, q) && p < |tickets| && Ascending(rest)
    requires forall t :: t in rest <==> t in tickets && t.id != tickets[p].id
    requires r.Keys == q.Keys - {tickets[p].id}
    requires forall id :: id in r ==> r[id].keys == q[id].keys
    ensures Lists(rest, r)
  {
  }

  lemma JoinLists(tickets: seq<Ticket>, s: State, keys: set<Key>)
    requires Lists(tickets, s.queue) && Inv(s) && !s.closed && |s.queue| < s.limit
    ensures Lists(tickets + [Ticket(s.next, keys)], Next(s, Enter(keys)).queue)
  {
    hide NotifyAll, Inv;
    assert Bounded(s) by { BoundedOf(s); }
    AscendingAppend(tickets, Ticket(s.next, keys));
  }

  lemma BoundedOf(s: State)
    requires Inv(s)
    ensures Bounded(s)
  {
  }

  lemma AscendingAppend(tickets: seq<Ticket>, t: Ticket)
    requires Ascending(tickets) && forall u :: u in tickets ==> u.id < t.id
    ensures Ascending(tickets + [t])
  {
    assert forall i :: 0 <= i < |tickets| ==> tickets[i] in tickets;
  }

  lemma DropOne(tickets: seq<Ticket>, p: nat)
    requires Ascending(tickets) && p < |tickets|
    ensures Ascending(tickets[..p] + tickets[p + 1..])
    ensures forall t :: t in tickets[..p] + tickets[p + 1..] <==> t in tickets && t.id != tickets[p].id
  {
    var rest := tickets[..p] + tickets[p + 1..];
    assert forall k :: 0 <= k < |rest| ==> rest[k] == tickets[if k < p then k else k + 1];
    forall t | t in tickets && t.id != tickets[p].id ensures t in rest {
      var i :| 0 <= i < |tickets| && tickets[i] == t;
      assert rest[if i < p then i else i - 1] == t;
    }
  }

  lemma DropLists(tickets: seq<Ticket>, s: State, p: nat)
    requires Lists(tickets, s.queue) && p < |tickets| && At(s, tickets[p].id, Leaving)
    ensures Lists(tickets[..p] + tickets[p + 1..], Next(s, Remove(tickets[p].id)).queue)
  {
    DropOne(tickets, p);
    RemoveFacts(s, tickets[p].id);
    DropKeepsLists(tickets, s.queue, p, tickets[..p] + tickets[p + 1..], Next(s, Remove(tickets[p].id)).queue);
    hide *;
  }

  lemma RemoveFacts(s: State, id: TicketId)
    requires At(s, id, Leaving)
    ensures Next(s, Remove(id)).queue.Keys == s.queue.Keys - {id}
    ensures forall u :: u in Next(s, Remove(id)).queue ==> Next(s, Remove(id)).queue[u].keys == s.queue[u].keys
  {
  }

  lemma RephaseLists(tickets: seq<Ticket>, s: State, step: Step)
    requires Lists(tickets, s.queue) && (step.Check? || step.GiveUp? || step.Close?)
    ensures Lists(tickets, Next(s, step).queue)
  {
    hide NotifyAll, Verdict;
    var r := Next(s, step).queue;
    assert r.Keys == s.queue.Keys;
    assert forall id :: id in r ==> r[id].keys == s.queue[id].keys;
  }

  lemma StepFields(s: State, step: Step)
    ensures
      var t := Next(s, step);
      && t.limit == s.limit && t.closed == (s.closed || step.Close?)
      && t.next == if step.Enter? && !s.closed && |s.queue| < s.limit then s.next + 1 else s.next
  {
  }

  lemma EnterFacts(s: State, keys: set<Key>)
    ensures s.closed || |s.queue| >= s.limit ==> Next(s, Enter(keys)) == s
    ensures !s.closed && |s.queue| < s.limit ==> At(Next(s, Enter(keys)), s.next, Ready)
  {
  }

  lemma BlockersAreEarlierInList(tickets: seq<Ticket>, q: Queue, p: nat)
    requires Lists(tickets, q) && p < |tickets|
    ensures tickets[p].id in q
    ensures Blockers(q, tickets[p].id) == {} <==> !OverlapsBefore(tickets, p, p)
  {
    assert tickets[p] in tickets;
    if k :| 0 <= k < p && Overlap(tickets[k].keys, tickets[p].keys) {
      assert tickets[k] in tickets;
      assert tickets[k].id in Blockers(q, tickets[p].id);
    }
    if u :| u in Blockers(q, tickets[p].id) {
      var k :| 0 <= k < |tickets| && tickets[k] == Ticket(u, q[u].keys);
      assert k < p;
    }
  }

  /** Some ticket among the first n overlaps the one at p. */
  ghost predicate OverlapsBefore(tickets: seq<Ticket>, p: nat, n: nat)
    requires p < |tickets| && n <= p
  {
    exists k :: 0 <= k < n && Overlap(tickets[k].keys, tickets[p].keys)
  }

  lemma OverlapsOneMore(tickets: seq<Ticket>, p: nat, n: nat)
    requires n < p < |tickets|
    ensures OverlapsBefore(tickets, p, n + 1) <==>
      OverlapsBefore(tickets, p, n) || Overlap(tickets[n].keys, tickets[p].keys)
  {
  }

  lemma NothingOverlapsBefore(tickets: seq<Ticket>, p: nat)
    requires p < |tickets|
    ensures !OverlapsBefore(tickets, p, 0)
  {
  }

  class Admission {
    const limit: nat
    var tickets: seq<Ticket>
    var closed: bool
    var next: TicketId
    ghost var model: State

    ghost predicate Valid()
      reads this
    {
      && Lists(tickets, model.queue) && Inv(model)
      && model.limit == limit && model.closed == closed && model.next == next
    }

    constructor (limit: nat)
      ensures Valid() && model == Init(limit)
    {
      this.limit := limit;
      tickets, closed, next, model := [], false, 0, Init(limit);
    }

    /** Append a ticket, unless admission is closed or the queue is full. */
    method Join(keys: set<Key>) returns (r: Result<TicketId, Refusal>)
      requires Valid()
      modifies this
      ensures Valid() && model == Next(old(model), Enter(keys))
      ensures r == if old(closed) then Err(AdmissionClosed)
                   else if |old(tickets)| >= limit then Err(CapacityReached) else Ok(old(next))
      ensures r.Ok? ==> At(model, r.value, Ready)
    {
      hide Lists, Inv, Next;
      ListLength(tickets, model.queue);
      EnterFacts(model, keys);
      StepFields(model, Enter(keys));
      NextKeepsInv(model, Enter(keys));
      if closed {
        return Err(AdmissionClosed);
      }
      if |tickets| >= limit {
        return Err(CapacityReached);
      }
      JoinLists(tickets, model, keys);
      tickets := tickets + [Ticket(next, keys)];
      r := Ok(next);
      next := next + 1;
      model := Next(model, Enter(keys));
    }

    /** The place of a queued ticket in the list. */
    method Find(id: TicketId) returns (p: nat)
      requires Valid() && id in model.queue
      ensures p < |tickets| && tickets[p].id == id
    {
      p := 0;
      assert Ticket(id, model.queue[id].keys) in tickets;
      while tickets[p].id != id
        invariant p < |tickets| && exists i :: p <= i < |tickets| && tickets[i].id == id
        decreases |tickets| - p
      {
        p := p + 1;
      }
    }

    /** One turn of the wait loop: leave when closed, enter when nothing earlier overlaps, else sleep. */
    method Turn(id: TicketId) returns (verdict: Phase)
      requires Valid() && At(model, id, Ready)
      modifies this`model
      ensures Valid() && model == Next(old(model), Check(id)) && At(model, id, verdict)
      ensures verdict.Admitted? <==> Eligible(old(model), id)
    {
      hide Lists, Inv, Next, Blockers, OverlapsBefore;
      verdict := Leaving;
      if !closed {
        var p := Find(id);
        BlockersAreEarlierInList(tickets, model.queue, p);
        NothingOverlapsBefore(tickets, p);
        verdict := Admitted;
        var i := 0;
        while i < p
          modifies {}
          invariant 0 <= i <= p
          invariant verdict == if OverlapsBefore(tickets, p, i) then Sleeping else Admitted
        {
          OverlapsOneMore(tickets, p, i);
          if Overlap(tickets[i].keys, tickets[p].keys) {
            verdict := Sleeping;
          }
          i := i + 1;
        }
      }
      NextKeepsInv(model, Check(id));
      RephaseLists(tickets, model, Check(id));
      CheckSetsVerdict(model, id);
      StepFields(model, Check(id));
      model := Next(model, Check(id));
    }

    /**
     The task of a ticket stops waiting or ends its section, and its owned cleanup drops
     the ticket and wakes every sleeper.
     */
    method Drop(id: TicketId)
      requires Valid() && id in model.queue
      modifies this
      ensures Valid() && model == Next(Next(old(model), GiveUp(id)), Remove(id))
      ensures id !in model.queue
    {
      hide Lists, Inv, Next;
      ghost var leaving := Next(model, GiveUp(id));
      NextKeepsInv(model, GiveUp(id));
      RephaseLists(tickets, model, GiveUp(id));
      StepFields(model, GiveUp(id));
      GivenUp(model, id);
      var p := Find(id);
      NextKeepsInv(leaving, Remove(id));
      DropLists(tickets, leaving, p);
      StepFields(leaving, Remove(id));
      tickets := tickets[..p] + tickets[p + 1..];
      model := Next(leaving, Remove(id));
    }

    method Shut()
      requires Valid()
      modifies this
      ensures Valid() && closed && model == Next(old(model), Close)
    {
      hide Lists, Inv, Next;
      NextKeepsInv(model, Close);
      RephaseLists(tickets, model, Close);
      StepFields(model, Close);
      closed := true;
      model := Next(model, Close);
    }
  }

  lemma GivenUp(s: State, id: TicketId)
    requires id in s.queue
    ensures At(Next(s, GiveUp(id)), id, Leaving)
    ensures id !in Next(Next(s, GiveUp(id)), Remove(id)).queue
  {
  }

  lemma CheckSetsVerdict(s: State, id: TicketId)
    requires At(s, id, Ready)
    ensures At(Next(s, Check(id)), id, Verdict(s, id))
  {
  }
}
