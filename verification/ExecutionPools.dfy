/** The protected execution authority and its pools. */
module ExecutionPools {
  import opened Wrappers

  type Pool = nat
  type Task = nat

  /**
   The authority's own fields, and every close call it has made. Admission validates
   under the lock and leases in the same critical section; a pool is closed by whoever
   finds it out of use and unleased. Two cancellations leak a pool for good: one that
   loses a release, since the count is never taken back, and one that interrupts a
   rotation before its cutover.
   */
  datatype Core = Core(active: Option<Pool>, leases: map<Pool, nat>, closed: bool, closeCalls: multiset<Pool>)

  /**
   holders are the tasks inside the leased section; lost are the releases that never
   happened, by pool; abandoned are the replacements of interrupted rotations; created
   numbers the pools as they are constructed.
   */
  datatype State = State(core: Core, holders: map<Task, Pool>, lost: multiset<Pool>, abandoned: set<Pool>, created: nat)

  datatype Step =
    | Admit(t: Task)
    | Revoke                          // validation under the lock finds the active pool's authority wrong
    | Release(t: Task)
    | ReleaseLost(t: Task)            // cancelled while waiting for the lock: the count is never taken back
    | Rotate                          // a validated replacement, refused when closed
    | RotateFails(constructed: bool)
    | RotateLost(closed: bool)        // cancelled while waiting for the lock, its replacement closed or left open
    | Close

  function LeaseCount(c: Core, p: Pool): nat {
    if p in c.leases then c.leases[p] else 0
  }

  /** Take the active pool out of use, closing it unless it is leased. */
  function Retired(c: Core, replacement: Option<Pool>): Core {
    var n := c.(active := replacement);
    if c.active.Some? && LeaseCount(c, c.active.value) == 0
      then n.(closeCalls := n.closeCalls + multiset{c.active.value}) else n
  }

  function TakeBack(c: Core, p: Pool): Core
    requires LeaseCount(c, p) > 0
  {
    var last := LeaseCount(c, p) == 1;
    var n := c.(leases := if last then c.leases - {p} else c.leases[p := LeaseCount(c, p) - 1]);
    if last && c.active != Some(p) then n.(closeCalls := n.closeCalls + multiset{p}) else n
  }

  function Next(s: State, step: Step): State {
    var c := s.core;
    match step
    case Admit(t) =>
      if t in s.holders || c.active.None? || c.closed then s
      else s.(core := c.(leases := c.leases[c.active.value := LeaseCount(c, c.active.value) + 1]),
              holders := s.holders[t := c.active.value])
    case Revoke => if c.active.None? || c.closed then s else s.(core := Retired(c, None))
    case Release(t) =>
      if t in s.holders && LeaseCount(c, s.holders[t]) > 0
      then s.(core := TakeBack(c, s.holders[t]), holders := s.holders - {t}) else s
    case ReleaseLost(t) =>
      if t in s.holders then s.(holders := s.holders - {t}, lost := s.lost + multiset{s.holders[t]}) else s
    case Rotate =>
      var n := s.(created := s.created + 1);
      if c.closed then n.(core := c.(closeCalls := c.closeCalls + multiset{s.created}))
      else n.(core := Retired(c, Some(s.created)))
    case RotateFails(constructed) =>
      if constructed
      then s.(created := s.created + 1, core := Retired(c.(closeCalls := c.closeCalls + multiset{s.created}), None))
      else s.(core := Retired(c, None))
    case RotateLost(closed) =>
      if closed then s.(created := s.created + 1, core := c.(closeCalls := c.closeCalls + multiset{s.created}))
      else s.(created := s.created + 1, abandoned := s.abandoned + {s.created})
    case Close => s.(core := Retired(c.(closed := true), None))
  }

  function Run(s: State, steps: seq<Step>): State
    decreases |steps|
  {
    if steps == [] then s else Run(Next(s, steps[0]), steps[1..])
  }

  function Init(initial: bool): State {
    var core := Core(if initial then Some(0) else None, map[], false, multiset{});
    State(core, map[], multiset{}, {}, if initial then 1 else 0)
  }

  function Holders(holders: map<Task, Pool>, p: Pool): (tasks: set<Task>)
    ensures forall t :: t in tasks <==> t in holders && holders[t] == p
  {
    set t | t in holders && holders[t] == p
  }

  /** A pool's count is the tasks inside its leased section and the releases lost. */
  ghost predicate CountsAreExact(s: State) {
    forall p {:trigger LeaseCount(s.core, p)} :: LeaseCount(s.core, p) == |Holders(s.holders, p)| + s.lost[p]
  }

  /** A closed pool is neither active nor counted, and no pool is closed twice. */
  ghost predicate ClosesAreSafe(c: Core, created: nat) {
    && (forall p :: p in c.closeCalls ==> c.active != Some(p) && p !in c.leases && p < created && c.closeCalls[p] == 1)
    && (c.active.Some? ==> c.active.value < created)
    && (forall p :: p in c.leases ==> c.leases[p] > 0 && p < created)
  }

  /** A pool out of use and uncounted has been closed, unless its rotation was interrupted. */
  ghost predicate RetiredAreClosed(c: Core, abandoned: set<Pool>, created: nat) {
    && (forall p: Pool :: p < created && c.active != Some(p) && p !in c.leases && p !in abandoned ==> p in c.closeCalls)
    && (forall p :: p in abandoned ==> p < created && c.active != Some(p) && p !in c.leases && p !in c.closeCalls)
  }

  ghost predicate Inv(s: State) {
    CountsAreExact(s) && ClosesAreSafe(s.core, s.created) && RetiredAreClosed(s.core, s.abandoned, s.created)
  }

  lemma HolderJoins(holders: map<Task, Pool>, t: Task, pool: Pool, p: Pool)
    requires t !in holders
    ensures |Holders(holders[t := pool], p)| == |Holders(holders, p)| + if p == pool then 1 else 0
  {
    assert Holders(holders[t := pool], p) == Holders(holders, p) + if p == pool then {t} else {};
  }

  lemma HolderLeaves(holders: map<Task, Pool>, t: Task, p: Pool)
    requires t in holders
    ensures |Holders(holders - {t}, p)| == |Holders(holders, p)| - if p == holders[t] then 1 else 0
  {
    assert Holders(holders - {t}, p) == Holders(holders, p) - {t};
  }

  /** How a step changes one pool's count, holders and losses. */
  lemma CountsMove(s: State, step: Step, p: Pool)
    ensures
      var n := Next(s, step);
      var joins := step.Admit? && step.t !in s.holders && s.core.active == Some(p) && !s.core.closed;
      var back := step.Release? && step.t in s.holders && s.holders[step.t] == p && LeaseCount(s.core, p) > 0;
      var lost := step.ReleaseLost? && step.t in s.holders && s.holders[step.t] == p;
      && LeaseCount(n.core, p) == LeaseCount(s.core, p) + (if joins then 1 else if back then -1 else 0)
      && n.lost[p] == s.lost[p] + (if lost then 1 else 0)
  {
    hide Holders;
  }

  lemma HoldersMove(s: State, step: Step, p: Pool)
    requires CountsAreExact(s)
    ensures
      var n := Next(s, step);
      var joins := step.Admit? && step.t !in s.holders && s.core.active == Some(p) && !s.core.closed;
      var leaves := (step.Release? || step.ReleaseLost?) && step.t in s.holders && s.holders[step.t] == p;
      |Holders(n.holders, p)| == |Holders(s.holders, p)| + (if joins then 1 else if leaves then -1 else 0)
  {
    hide Retired, Holders;
    if step.Admit? && step.t !in s.holders && s.core.active.Some? {
      HolderJoins(s.holders, step.t, s.core.active.value, p);
    } else if (step.Release? || step.ReleaseLost?) && step.t in s.holders {
      HolderIsCovered(s, step.t);
      HolderLeaves(s.holders, step.t, p);
    }
  }

  lemma HolderIsCovered(s: State, t: Task)
    requires CountsAreExact(s) && t in s.holders
    ensures LeaseCount(s.core, s.holders[t]) > 0
  {
    assert t in Holders(s.holders, s.holders[t]);
    assert LeaseCount(s.core, s.holders[t]) == |Holders(s.holders, s.holders[t])| + s.lost[s.holders[t]];
  }

  lemma NextKeepsCounts(s: State, step: Step)
    requires CountsAreExact(s)
    ensures CountsAreExact(Next(s, step))
  {
    var n := Next(s, step);
    forall p ensures LeaseCount(n.core, p) == |Holders(n.holders, p)| + n.lost[p] {
      assert LeaseCount(s.core, p) == |Holders(s.holders, p)| + s.lost[p];
      CountsMove(s, step, p);
      HoldersMove(s, step, p);
      if step.Release? && step.t in s.holders { HolderIsCovered(s, step.t); }
    }
    hide Next, Holders, LeaseCount;
  }

  lemma RetireKeepsCloses(c: Core, replacement: Option<Pool>, created: nat)
    requires ClosesAreSafe(c, created)
    requires replacement.Some? ==>
      replacement.value < created && replacement.value !in c.closeCalls && c.active != replacement
    ensures ClosesAreSafe(Retired(c, replacement), created)
  {
  }

  /**
   Retiring the active pool leaves nothing unclosed but what is counted; the one pool not
   yet in use comes into use.
   */
  lemma RetireKeepsRetired(c: Core, replacement: Option<Pool>, abandoned: set<Pool>, created: nat)
    requires ClosesAreSafe(c, created)
    requires forall p: Pool ::
      p < created && c.active != Some(p) && p !in c.leases && p !in abandoned && replacement != Some(p) ==>
        p in c.closeCalls
    requires forall p :: p in abandoned ==> p < created && c.active != Some(p) && p !in c.leases && p !in c.closeCalls
    requires replacement.Some? ==> replacement.value !in abandoned
    ensures RetiredAreClosed(Retired(c, replacement), abandoned, created)
  {
  }

  lemma TakeBackKeepsRetired(c: Core, p: Pool, abandoned: set<Pool>, created: nat)
    requires RetiredAreClosed(c, abandoned, created) && LeaseCount(c, p) > 0
    ensures RetiredAreClosed(TakeBack(c, p), abandoned, created)
  {
  }

  lemma TakeBackKeepsCloses(c: Core, p: Pool, created: nat)
    requires ClosesAreSafe(c, created) && LeaseCount(c, p) > 0
    ensures ClosesAreSafe(TakeBack(c, p), created)
  {
  }

  /** A pool constructed just now may be closed at once. */
  lemma DiscardKeepsCloses(c: Core, created: nat)
    requires ClosesAreSafe(c, created)
    ensures ClosesAreSafe(c.(closeCalls := c.closeCalls + multiset{created}), created + 1)
    ensures ClosesAreSafe(c, created + 1) && created !in c.closeCalls
    ensures created !in c.leases && c.active != Some(created)
  {
  }

  lemma NextKeepsCloses(s: State, step: Step)
    requires ClosesAreSafe(s.core, s.created)
    ensures ClosesAreSafe(Next(s, step).core, Next(s, step).created)
  {
    hide Retired, TakeBack, ClosesAreSafe;
    var c := s.core;
    match step
    case Admit(t) => AdmitKeepsCloses(s, t);
    case Revoke => RetireKeepsCloses(c, None, s.created);
    case Release(t) =>
      if t in s.holders && LeaseCount(c, s.holders[t]) > 0 { TakeBackKeepsCloses(c, s.holders[t], s.created); }
    case ReleaseLost(t) =>
    case RotateLost(_) => DiscardKeepsCloses(c, s.created);
    case Rotate =>
      DiscardKeepsCloses(c, s.created);
      RetireKeepsCloses(c, Some(s.created), s.created + 1);
    case RotateFails(constructed) =>
      DiscardKeepsCloses(c, s.created);
      RetireKeepsCloses(c, None, s.created);
      RetireKeepsCloses(c.(closeCalls := c.closeCalls + multiset{s.created}), None, s.created + 1);
    case Close =>
      ClosedFlag(c, s.created);
      RetireKeepsCloses(c.(closed := true), None, s.created);
  }

  lemma NextKeepsRetired(s: State, step: Step)
    requires ClosesAreSafe(s.core, s.created) && RetiredAreClosed(s.core, s.abandoned, s.created)
    ensures
      var n := Next(s, step);
      RetiredAreClosed(n.core, n.abandoned, n.created)
  {
    var c := s.core;
    if step.Rotate? || step.RotateFails? {
      RotationKeepsRetired(s, step);
    } else if step.Release? && step.t in s.holders && LeaseCount(c, s.holders[step.t]) > 0 {
      TakeBackKeepsRetired(c, s.holders[step.t], s.abandoned, s.created);
    } else if step.Revoke? || step.Close? {
      ClosedFlag(c, s.created);
      RetireKeepsRetired(c, None, s.abandoned, s.created);
      RetireKeepsRetired(c.(closed := true), None, s.abandoned, s.created);
    }
    hide Retired, TakeBack, ClosesAreSafe;
  }

  lemma RotationKeepsRetired(s: State, step: Step)
    requires ClosesAreSafe(s.core, s.created) && RetiredAreClosed(s.core, s.abandoned, s.created)
    requires step.Rotate? || step.RotateFails?
    ensures
      var n := Next(s, step);
      RetiredAreClosed(n.core, n.abandoned, n.created)
  {
    hide Retired, Next, ClosesAreSafe;
    var c := s.core;
    DiscardKeepsCloses(c, s.created);
    RotationIs(s, step.RotateFails? && step.constructed);
    if step.Rotate? {
      RetireKeepsRetired(c, Some(s.created), s.abandoned, s.created + 1);
    } else {
      RetireKeepsRetired(c, None, s.abandoned, s.created);
      RetireKeepsRetired(c.(closeCalls := c.closeCalls + multiset{s.created}), None, s.abandoned, s.created + 1);
    }
  }

  lemma AdmitKeepsCloses(s: State, t: Task)
    requires ClosesAreSafe(s.core, s.created)
    ensures ClosesAreSafe(Next(s, Admit(t)).core, Next(s, Admit(t)).created)
  {
  }

  lemma ClosedFlag(c: Core, created: nat)
    requires ClosesAreSafe(c, created)
    ensures ClosesAreSafe(c.(closed := true), created)
  {
  }

  lemma NextKeepsInv(s: State, step: Step)
    requires Inv(s)
    ensures Inv(Next(s, step))
  {
    NextKeepsCounts(s, step);
    NextKeepsCloses(s, step);
    NextKeepsRetired(s, step);
    hide Next, CountsAreExact, ClosesAreSafe, RetiredAreClosed;
  }

  lemma {:induction false} RunKeepsInv(s: State, steps: seq<Step>)
    requires Inv(s)
    ensures Inv(Run(s, steps))
    decreases |steps|
  {
    if steps != [] {
      NextKeepsInv(s, steps[0]);
      hide Next, Inv;
      RunKeepsInv(Next(s, steps[0]), steps[1..]);
    }
  }

  lemma InitIsConsistent(initial: bool)
    ensures Inv(Init(initial))
  {
    assert forall p :: Holders(Init(initial).holders, p) == {};
  }

  // ---- Results over every run ----

  /** Over any run a pool is closed at most once, and never while it is active or some task still holds it. */
  lemma NeverClosedWhileLeased(initial: bool, steps: seq<Step>, t: Task)
    ensures
      var s := Run(Init(initial), steps);
      && (t in s.holders ==> s.core.closeCalls[s.holders[t]] == 0)
      && (s.core.active.Some? ==> s.core.closeCalls[s.core.active.value] == 0)
      && (forall p: Pool :: s.core.closeCalls[p] <= 1)
  {
    InitIsConsistent(initial);
    RunKeepsInv(Init(initial), steps);
    hide Next, Run;
    var s := Run(Init(initial), steps);
    if t in s.holders {
      assert t in Holders(s.holders, s.holders[t]);
      assert LeaseCount(s.core, s.holders[t]) == |Holders(s.holders, s.holders[t])| + s.lost[s.holders[t]];
    }
  }

  /**
   In every reachable state a pool that was constructed and is not active has been
   closed, and once, exactly when no task holds it, none of its releases was lost
   and its rotation was not interrupted.
   */
  lemma RetiredIsClosedExactlyWhenNothingWasLost(initial: bool, steps: seq<Step>, p: Pool)
    requires
      var s := Run(Init(initial), steps);
      p < s.created && s.core.active != Some(p)
    ensures
      var s := Run(Init(initial), steps);
      s.core.closeCalls[p] == (if Holders(s.holders, p) == {} && s.lost[p] == 0 && p !in s.abandoned then 1 else 0)
  {
    InitIsConsistent(initial);
    RunKeepsInv(Init(initial), steps);
    hide Next, Run;
    var s := Run(Init(initial), steps);
    assert LeaseCount(s.core, p) == |Holders(s.holders, p)| + s.lost[p];
  }

  /**
   A release that cannot be lost is one whose task is not cancelled while it waits for
   the lock; and so for a rotation.
   */
  predicate LosesNothing(step: Step) {
    !step.ReleaseLost? && step != RotateLost(false)
  }

  lemma {:induction false} NothingIsLost(s: State, steps: seq<Step>)
    requires forall i :: 0 <= i < |steps| ==> LosesNothing(steps[i])
    ensures Run(s, steps).lost == s.lost && Run(s, steps).abandoned == s.abandoned
    decreases |steps|
  {
    if steps != [] {
      assert LosesNothing(steps[0]);
      forall i | 0 <= i < |steps[1..]| ensures LosesNothing(steps[1..][i]) { assert LosesNothing(steps[i + 1]); }
      NothingIsLost(Next(s, steps[0]), steps[1..]);
    }
  }

  /** While no such cancellation comes, no pool leaks: one out of use is closed as soon as nobody holds it. */
  lemma WithoutLossNothingLeaks(initial: bool, steps: seq<Step>, p: Pool)
    requires forall i :: 0 <= i < |steps| ==> LosesNothing(steps[i])
    requires
      var s := Run(Init(initial), steps);
      p < s.created && s.core.active != Some(p) && Holders(s.holders, p) == {}
    ensures Run(Init(initial), steps).core.closeCalls[p] == 1
  {
    RetiredIsClosedExactlyWhenNothingWasLost(initial, steps, p);
    NothingIsLost(Init(initial), steps);
    hide Run;
  }

  lemma {:induction false} LossesStay(s: State, steps: seq<Step>)
    ensures s.lost <= Run(s, steps).lost && s.abandoned <= Run(s, steps).abandoned && s.created <= Run(s, steps).created
    decreases |steps|
  {
    if steps != [] {
      LossesStay(Next(s, steps[0]), steps[1..]);
    }
  }

  /** A leak is for good: whatever follows, a pool that lost a release, or its rotation, is never closed. */
  lemma LeakIsForever(initial: bool, steps: seq<Step>, more: seq<Step>, p: Pool)
    requires
      var s := Run(Init(initial), steps);
      s.lost[p] > 0 || p in s.abandoned
    ensures Run(Run(Init(initial), steps), more).core.closeCalls[p] == 0
  {
    InitIsConsistent(initial);
    RunKeepsInv(Init(initial), steps);
    var s := Run(Init(initial), steps);
    RunKeepsInv(s, more);
    LossesStay(s, more);
    hide Next, Run;
    var n := Run(s, more);
    assert s.lost[p] <= n.lost[p];
    assert LeaseCount(n.core, p) == |Holders(n.holders, p)| + n.lost[p];
  }

  /** A run that leaks each way: pool 0 loses the release of its only holder, and the replacement 1 its rotation. */
  lemma CancellationLeaks()
    ensures
      var s := Run(Init(true), [Admit(0), ReleaseLost(0), RotateLost(false), Rotate]);
      && s.core.active == Some(2) && s.holders == map[] && s.created == 3
      && s.core.closeCalls[0] == 0 && LeaseCount(s.core, 0) == 1 && s.core.closeCalls[1] == 0
  {
    var a := Next(Init(true), Admit(0));
    var b := Next(a, ReleaseLost(0));
    var c := Next(b, RotateLost(false));
    assert Run(c, [Rotate]) == Next(c, Rotate) by { assert [Rotate][1..] == []; }
    assert [RotateLost(false), Rotate][1..] == [Rotate];
    assert [ReleaseLost(0), RotateLost(false), Rotate][1..] == [RotateLost(false), Rotate];
    assert [Admit(0), ReleaseLost(0), RotateLost(false), Rotate][1..] == [ReleaseLost(0), RotateLost(false), Rotate];
  }

  /**
   A rotation that fails, in whatever reachable state, leaves nothing active exactly
   when its handler was not interrupted, or nothing was active before.
   */
  lemma FailureRevokesExactlyWhenUninterrupted(initial: bool, steps: seq<Step>, step: Step)
    requires step.RotateFails? || step.RotateLost?
    ensures
      var s := Run(Init(initial), steps);
      var n := Next(s, step);
      && (n.core.active.None? <==> step.RotateFails? || s.core.active.None?)
      && (n.core.active.Some? ==> n.core.active == s.core.active && n.core.closeCalls[n.core.active.value] == 0)
  {
    hide Run, Next;
    InitIsConsistent(initial);
    RunKeepsInv(Init(initial), steps);
    var s := Run(Init(initial), steps);
    NextKeepsInv(s, step);
    FailedActive(s, step);
    ActiveIsOpen(Next(s, step));
  }

  lemma FailedActive(s: State, step: Step)
    requires step.RotateFails? || step.RotateLost?
    ensures Next(s, step).core.active == if step.RotateFails? then None else s.core.active
  {
  }

  /** Such a run: the rotation fails, its handler is interrupted, and the old pool goes on admitting. */
  lemma InterruptedFailureStillAdmits(t: Task)
    ensures
      var s := Run(Init(true), [RotateLost(true), Admit(t)]);
      s.core.active == Some(0) && s.holders == map[t := 0] && s.core.closeCalls[1] == 1
  {
    assert [RotateLost(true), Admit(t)][1..] == [Admit(t)] && [Admit(t)][1..] == [];
    var a := Next(Init(true), RotateLost(true));
    assert Run(a, [Admit(t)]) == Next(a, Admit(t));
  }

  /** What an admission finds: its module or the database unavailable, or the pool's authority wrong. */
  datatype Verdict = Authorized | Unavailable | Wrong

  class Authority {
    var active: Option<Pool>
    var leases: map<Pool, nat>
    var closed: bool
    ghost var closeCalls: multiset<Pool>
    ghost var model: State

    ghost function Fields(): Core
      reads this
    {
      Core(active, leases, closed, closeCalls)
    }

    /** The object's fields are those of a state that keeps the invariants. */
    ghost predicate Valid()
      reads this
    {
      Fields() == model.core && Inv(model)
    }

    constructor (initial: bool)
      ensures Valid() && model == Init(initial)
    {
      InitIsConsistent(initial);
      active, leases, closed := if initial then Some(0) else None, map[], false;
      closeCalls, model := multiset{}, Init(initial);
    }

    /** Close a pool that has just gone out of use, unless it is leased. */
    method CloseUnleased(previous: Option<Pool>)
      modifies this`closeCalls
      ensures closeCalls == old(closeCalls)
        + if previous.Some? && LeaseCount(Fields(), previous.value) == 0 then multiset{previous.value} else multiset{}
    {
      if previous.Some? {
        var count := if previous.value in leases then leases[previous.value] else 0;
        if count == 0 {
          closeCalls := closeCalls + multiset{previous.value};
        }
      }
    }

    /** Take the active pool out of use and close it unless it is leased. */
    method Retire(replacement: Option<Pool>)
      modifies this`active, this`closeCalls
      ensures Fields() == Retired(old(Fields()), replacement)
    {
      var previous := active;
      active := replacement;
      CloseUnleased(previous);
    }

    /** The critical section of an admission, with what validation under the lock found. */
    method Lease(t: Task, verdict: Verdict) returns (pool: Option<Pool>)
      requires Valid() && t !in model.holders
      modifies this
      ensures Valid()
      ensures pool.Some? <==> old(active).Some? && !old(closed) && verdict.Authorized?
      ensures pool.Some? ==> pool == active == old(active) && closeCalls[pool.value] == 0
      ensures model == match verdict
        case Authorized => Next(old(model), Admit(t))
        case Unavailable => old(model)
        case Wrong => Next(old(model), Revoke)
    {
      hide Inv, Next, Retired;
      NextKeepsInv(model, Admit(t));
      NextKeepsInv(model, Revoke);
      AdmissionIs(model, t);
      ActiveIsOpen(model);
      pool := None;
      if active.Some? && !closed {
        match verdict {
          case Unavailable =>
          case Wrong => Retire(None);
          case Authorized =>
            pool := active;
            leases := leases[active.value := (if active.value in leases then leases[active.value] else 0) + 1];
        }
      }
      model := match verdict
        case Authorized => Next(model, Admit(t))
        case Unavailable => model
        case Wrong => Next(model, Revoke);
    }

    /** The end of a leased section: the last holder of a pool out of use closes it, unless a release was lost. */
    method GiveBack(t: Task, p: Pool)
      requires Valid() && t in model.holders && model.holders[t] == p
      modifies this
      ensures Valid() && model == Next(old(model), Release(t))
      ensures active != Some(p) && Holders(model.holders, p) == {} ==>
        (closeCalls[p] == 1 <==> model.lost[p] == 0)
    {
      hide Inv, Next;
      HolderIsCounted(model, t);
      NextKeepsInv(model, Release(t));
      ReleaseIs(model, t);
      ghost var after := Next(model, Release(t));
      if active != Some(p) && Holders(after.holders, p) == {} {
        ReleasedIsClosed(after, p);
      }
      leases := leases[p := leases[p] - 1];
      var last := leases[p] == 0;
      if last {
        leases := leases - {p};
      }
      if last && active != Some(p) {
        closeCalls := closeCalls + multiset{p};
      }
      model := after;
    }

    /** A replacement that was validated comes into use, or is closed when the authority is. */
    method Install(replacement: Pool) returns (refused: bool)
      requires Valid() && replacement == model.created
      modifies this
      ensures Valid() && model == Next(old(model), Rotate)
      ensures refused <==> old(closed)
      ensures !refused ==> active == Some(replacement)
      ensures refused ==> closeCalls[replacement] == 1
    {
      hide Inv, Next, Retired;
      NextKeepsInv(model, Rotate);
      RotationIs(model, true);
      NotYetClosed(model);
      refused := closed;
      if refused {
        closeCalls := closeCalls + multiset{replacement};
      } else {
        RetiredFacts(Fields(), Some(replacement));
        Retire(Some(replacement));
      }
      model := Next(model, Rotate);
    }

    /** A rotation that failed closes its own replacement, if it got that far, and takes the active pool out of use. */
    method Fail(replacement: Option<Pool>)
      requires Valid() && (replacement.Some? ==> replacement.value == model.created)
      modifies this
      ensures Valid() && model == Next(old(model), RotateFails(replacement.Some?)) && active.None?
      ensures replacement.Some? ==> closeCalls[replacement.value] == 1
    {
      hide Inv, Next, Retired;
      NextKeepsInv(model, RotateFails(replacement.Some?));
      RotationIs(model, replacement.Some?);
      NotYetClosed(model);
      if replacement.Some? {
        closeCalls := closeCalls + multiset{replacement.value};
      }
      RetiredFacts(Fields(), None);
      Retire(None);
      model := Next(model, RotateFails(replacement.Some?));
    }

    method Close()
      requires Valid()
      modifies this
      ensures Valid() && model == Next(old(model), Step.Close) && closed && active.None?
    {
      hide Inv, Next, Retired;
      NextKeepsInv(model, Step.Close);
      CloseIs(model);
      closed := true;
      RetiredFacts(Fields(), None);
      Retire(None);
      model := Next(model, Step.Close);
    }
  }

  lemma AdmissionIs(s: State, t: Task)
    requires t !in s.holders
    ensures
      var c := s.core;
      && Next(s, Admit(t)).core == (if c.active.None? || c.closed then c
           else c.(leases := c.leases[c.active.value := LeaseCount(c, c.active.value) + 1]))
      && Next(s, Revoke).core == if c.active.None? || c.closed then c else Retired(c, None)
  {
  }

  lemma ReleaseIs(s: State, t: Task)
    requires t in s.holders && LeaseCount(s.core, s.holders[t]) > 0
    ensures
      var n := Next(s, Release(t));
      n.core == TakeBack(s.core, s.holders[t]) && n.lost == s.lost && n.abandoned == s.abandoned
        && n.created == s.created
  {
  }

  lemma RotationIs(s: State, constructed: bool)
    ensures
      var closing := s.core.(closeCalls := s.core.closeCalls + multiset{s.created});
      && Next(s, Rotate).core == (if s.core.closed then closing else Retired(s.core, Some(s.created)))
      && Next(s, RotateFails(constructed)).core == Retired(if constructed then closing else s.core, None)
      && Next(s, Rotate).abandoned == Next(s, RotateFails(constructed)).abandoned == s.abandoned
      && Next(s, Rotate).created == s.created + 1
      && Next(s, RotateFails(constructed)).created == s.created + if constructed then 1 else 0
  {
  }

  lemma CloseIs(s: State)
    ensures Next(s, Close).core == Retired(s.core.(closed := true), None)
  {
  }

  lemma RetiredFacts(c: Core, replacement: Option<Pool>)
    ensures
      var n := Retired(c, replacement);
      && n.active == replacement && n.closed == c.closed && n.leases == c.leases
      && forall p :: c.active != Some(p) ==> n.closeCalls[p] == c.closeCalls[p]
  {
  }

  lemma ActiveIsOpen(s: State)
    requires Inv(s)
    ensures s.core.active.Some? ==> s.core.closeCalls[s.core.active.value] == 0
  {
  }

  lemma NotYetClosed(s: State)
    requires Inv(s)
    ensures s.core.closeCalls[s.created] == 0 && s.core.active != Some(s.created)
  {
  }

  lemma HolderIsCounted(s: State, t: Task)
    requires Inv(s) && t in s.holders
    ensures LeaseCount(s.core, s.holders[t]) > 0 && s.holders[t] in s.core.leases
    ensures s.holders[t] < s.created && s.holders[t] !in s.abandoned
  {
    HolderIsCovered(s, t);
  }

  lemma ReleasedIsClosed(s: State, p: Pool)
    requires Inv(s) && p < s.created && p !in s.abandoned && s.core.active != Some(p) && Holders(s.holders, p) == {}
    ensures s.core.closeCalls[p] == 1 <==> s.lost[p] == 0
  {
    assert LeaseCount(s.core, p) == |Holders(s.holders, p)| + s.lost[p];
  }
}
