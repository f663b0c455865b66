/**
 The contribution gate: module generations are staged, published, drained and
 discarded while work is admitted to them. One step is what runs between two
 awaits; a drainer sleeps on an event that wakes it without looking again.
 */
module ContributionGate {
  import opened Wrappers
  import opened Collections
  import opened Sorting

  type OwnerName = nat
  type Ticket = nat
  type DrainerId = nat

  datatype Generation = Generation(owner: OwnerName, number: nat)

  datatype Lifecycle = Staged | Active | Draining | Inactive

  datatype GenerationState = GenerationState(lifecycle: Lifecycle, inFlight: nat, drained: bool)

  type States = map<Generation, GenerationState>

  /** A call of close-and-drain that is still waiting; woken once the event was set. */
  datatype Drainer = Drainer(generation: Generation, woken: bool)

  datatype State = State(
    next: map<OwnerName, nat>,
    states: States,
    retired: set<OwnerName>,
    admissions: map<Ticket, set<Generation>>,
    drainers: map<DrainerId, Drainer>)

  datatype Step =
    | Reserve(owner: OwnerName)
    | Publish(g: Generation)
    | Admit(t: Ticket, generations: set<Generation>)
    | Leave(t: Ticket)
    | CloseAndDrain(d: DrainerId, g: Generation)
    | Resume(d: DrainerId)
    | TimeOut(d: DrainerId)
    | Discard(g: Generation)
    | Retire(owner: OwnerName)

  function Init(): State {
    State(map[], map[], {}, map[], map[])
  }

  function NumberOf(next: map<OwnerName, nat>, owner: OwnerName): nat {
    if owner in next then next[owner] else 0
  }

  predicate IsActive(states: States, g: Generation) {
    g in states && states[g].lifecycle.Active?
  }

  predicate AllActive(states: States, generations: set<Generation>) {
    forall g :: g in generations ==> IsActive(states, g)
  }

  /** One more open admission for each of these generations. */
  function Enter(states: States, generations: set<Generation>): (r: States)
    ensures r.Keys == states.Keys
    ensures forall g :: g in states ==> (r[g] ==
      if g in generations then states[g].(inFlight := states[g].inFlight + 1, drained := false) else states[g])
  {
    map g | g in states ::
      if g in generations then states[g].(inFlight := states[g].inFlight + 1, drained := false) else states[g]
  }

  function LeaveOne(state: GenerationState): GenerationState {
    var left := if state.inFlight == 0 then 0 else state.inFlight - 1;
    state.(inFlight := left, drained := left == 0 || state.drained)
  }

  function Exit(states: States, generations: set<Generation>): (r: States)
    ensures r.Keys == states.Keys
    ensures forall g :: g in states ==> r[g] == if g in generations then LeaveOne(states[g]) else states[g]
  {
    map g | g in states :: if g in generations then LeaveOne(states[g]) else states[g]
  }

  /** Setting the event wakes the drainers that wait for it. */
  function Wake(
    drainers: map<DrainerId, Drainer>, states: States, generations: set<Generation>): (r: map<DrainerId, Drainer>)
    ensures r.Keys == drainers.Keys
    ensures forall d :: d in drainers ==> r[d] == drainers[d].(woken := drainers[d].woken
      || (drainers[d].generation in generations && drainers[d].generation in states
            && states[drainers[d].generation].inFlight == 0))
  {
    map d | d in drainers :: drainers[d].(woken := drainers[d].woken
      || (drainers[d].generation in generations && drainers[d].generation in states
            && states[drainers[d].generation].inFlight == 0))
  }

  function SetLifecycle(s: State, g: Generation, lifecycle: Lifecycle): State
    requires g in s.states
  {
    s.(states := s.states[g := s.states[g].(lifecycle := lifecycle)])
  }

  predicate Busy(states: States, owner: OwnerName) {
    exists g :: g in states && g.owner == owner && states[g].inFlight > 0
  }

  function AfterReserve(s: State, owner: OwnerName): State {
    var number := NumberOf(s.next, owner) + 1;
    s.(next := s.next[owner := number],
       states := s.states[Generation(owner, number) := GenerationState(Staged, 0, true)])
  }

  function AfterLeave(s: State, t: Ticket): State
    requires t in s.admissions
  {
    var states := Exit(s.states, s.admissions[t]);
    s.(states := states, drainers := Wake(s.drainers, states, s.admissions[t]), admissions := s.admissions - {t})
  }

  function AfterClose(s: State, d: DrainerId, g: Generation): State
    requires g in s.states
  {
    if s.states[g].drained then SetLifecycle(s, g, Inactive)
    else SetLifecycle(s, g, Draining).(drainers := s.drainers[d := Drainer(g, false)])
  }

  function Next(s: State, step: Step): State {
    match step
    case Reserve(owner) => if owner in s.retired then s else AfterReserve(s, owner)
    case Publish(g) => if g in s.states && g.owner !in s.retired then SetLifecycle(s, g, Active) else s
    case Admit(t, generations) =>
      if t !in s.admissions && AllActive(s.states, generations)
      then s.(states := Enter(s.states, generations), admissions := s.admissions[t := generations]) else s
    case Leave(t) => if t in s.admissions then AfterLeave(s, t) else s
    case CloseAndDrain(d, g) => if g in s.states && d !in s.drainers then AfterClose(s, d, g) else s
    case Resume(d) =>
      if d in s.drainers && s.drainers[d].woken then
        var n := s.(drainers := s.drainers - {d});
        if s.drainers[d].generation in s.states then SetLifecycle(n, s.drainers[d].generation, Inactive) else n
      else s
    case TimeOut(d) => s.(drainers := s.drainers - {d})
    case Discard(g) => if g in s.states && s.states[g].inFlight == 0 then s.(states := s.states - {g}) else s
    case Retire(owner) => if Busy(s.states, owner) then s else s.(retired := s.retired + {owner})
  }

  function Run(s: State, steps: seq<Step>): State
    decreases |steps|
  {
    if steps == [] then s else Run(Next(s, steps[0]), steps[1..])
  }

  // ---- What every reachable state keeps ----

  /** The open admissions that include a generation. */
  function Holders(admissions: map<Ticket, set<Generation>>, g: Generation): (tickets: set<Ticket>)
    ensures forall t :: t in tickets <==> t in admissions && g in admissions[t]
  {
    set t | t in admissions && g in admissions[t]
  }

  /** In-flight is the number of open admissions, and drained says it is zero. */
  ghost predicate CountsAreTrue(s: State) {
    && (forall g :: g in s.states ==>
          s.states[g].inFlight == |Holders(s.admissions, g)| && (s.states[g].drained <==> s.states[g].inFlight == 0))
    && (forall t, g :: t in s.admissions && g in s.admissions[t] ==> g in s.states)
  }

  ghost predicate NumbersAreSpent(s: State) {
    forall g :: g in s.states ==> g.number <= NumberOf(s.next, g.owner)
  }

  ghost predicate Inv(s: State) {
    CountsAreTrue(s) && NumbersAreSpent(s)
  }

  lemma HolderJoins(admissions: map<Ticket, set<Generation>>, t: Ticket, generations: set<Generation>, g: Generation)
    requires t !in admissions
    ensures |Holders(admissions[t := generations], g)| == |Holders(admissions, g)| + if g in generations then 1 else 0
  {
    assert Holders(admissions[t := generations], g) == Holders(admissions, g) + if g in generations then {t} else {};
  }

  lemma HolderLeaves(admissions: map<Ticket, set<Generation>>, t: Ticket, g: Generation)
    requires t in admissions
    ensures |Holders(admissions - {t}, g)| == |Holders(admissions, g)| - if g in admissions[t] then 1 else 0
  {
    assert Holders(admissions - {t}, g) == Holders(admissions, g) - {t};
  }

  lemma AdmitKeepsInv(s: State, t: Ticket, generations: set<Generation>)
    requires Inv(s) && t !in s.admissions && AllActive(s.states, generations)
    ensures Inv(Next(s, Admit(t, generations)))
  {
    forall g { HolderJoins(s.admissions, t, generations, g); }
    hide Holders;
  }

  lemma LeaveKeepsInv(s: State, t: Ticket)
    requires Inv(s) && t in s.admissions
    ensures Inv(AfterLeave(s, t))
  {
    forall g { HolderLeaves(s.admissions, t, g); }
    assert forall g :: g in s.admissions[t] ==> t in Holders(s.admissions, g);
    hide Holders;
  }

  lemma DiscardKeepsInv(s: State, g: Generation)
    requires Inv(s) && g in s.states && s.states[g].inFlight == 0
    ensures Inv(Next(s, Discard(g)))
  {
    forall t | t in s.admissions ensures g !in s.admissions[t] {
      assert Holders(s.admissions, g) == {};
    }
  }

  lemma ReserveKeepsInv(s: State, owner: OwnerName)
    requires Inv(s)
    ensures Inv(AfterReserve(s, owner))
  {
    var g := Generation(owner, NumberOf(s.next, owner) + 1);
    forall t | t in s.admissions ensures g !in s.admissions[t] {
    }
    assert Holders(s.admissions, g) == {};
  }

  lemma LifecycleKeepsInv(s: State, g: Generation, lifecycle: Lifecycle, drainers: map<DrainerId, Drainer>)
    requires Inv(s) && g in s.states
    ensures Inv(SetLifecycle(s, g, lifecycle).(drainers := drainers))
  {
    hide Holders;
  }

  lemma NextKeepsInv(s: State, step: Step)
    requires Inv(s)
    ensures Inv(Next(s, step))
  {
    hide Inv, Busy, AllActive, Holders, SetLifecycle, AfterReserve, AfterLeave;
    match step
    case Reserve(owner) => if owner !in s.retired { ReserveKeepsInv(s, owner); }
    case Publish(g) => if g in s.states { LifecycleKeepsInv(s, g, Active, s.drainers); WithDrainers(s, g, Active); }
    case Admit(t, generations) =>
      if t !in s.admissions && AllActive(s.states, generations) { AdmitKeepsInv(s, t, generations); }
    case Leave(t) => if t in s.admissions { LeaveKeepsInv(s, t); }
    case CloseAndDrain(d, g) =>
      if g in s.states {
        LifecycleKeepsInv(s, g, Inactive, s.drainers);
        WithDrainers(s, g, Inactive);
        LifecycleKeepsInv(s, g, Draining, s.drainers[d := Drainer(g, false)]);
      }
    case Resume(d) =>
      DrainersDoNotCount(s, s.drainers - {d});
      if d in s.drainers && s.drainers[d].generation in s.states {
        var n := s.(drainers := s.drainers - {d});
        LifecycleKeepsInv(n, s.drainers[d].generation, Inactive, n.drainers);
        WithDrainers(n, s.drainers[d].generation, Inactive);
      }
    case TimeOut(d) => DrainersDoNotCount(s, s.drainers - {d});
    case Discard(g) => if g in s.states && s.states[g].inFlight == 0 { DiscardKeepsInv(s, g); }
    case Retire(owner) => RetiredDoNotCount(s, s.retired + {owner});
  }

  lemma WithDrainers(s: State, g: Generation, lifecycle: Lifecycle)
    requires g in s.states
    ensures SetLifecycle(s, g, lifecycle).(drainers := s.drainers) == SetLifecycle(s, g, lifecycle)
  {
  }

  lemma DrainersDoNotCount(s: State, drainers: map<DrainerId, Drainer>)
    requires Inv(s)
    ensures Inv(s.(drainers := drainers))
  {
  }

  lemma RetiredDoNotCount(s: State, retired: set<OwnerName>)
    requires Inv(s)
    ensures Inv(s.(retired := retired))
  {
  }

  lemma InitIsConsistent()
    ensures Inv(Init())
  {
  }

  lemma {:induction false} RunKeepsInv(s: State, steps: seq<Step>)
    requires Inv(s)
    ensures Inv(Run(s, steps))
    decreases |steps|
  {
    hide Inv, Next;
    if steps != [] {
      NextKeepsInv(s, steps[0]);
      RunKeepsInv(Next(s, steps[0]), steps[1..]);
    }
  }

  // ---- Results over every run ----

  /**
   In every reachable state in-flight is the number of open admissions and the event is
   set exactly when it is zero.
   */
  lemma InFlightIsConserved(steps: seq<Step>, g: Generation)
    ensures
      var s := Run(Init(), steps);
      g in s.states ==>
        s.states[g].inFlight == |Holders(s.admissions, g)| && (s.states[g].drained <==> Holders(s.admissions, g) == {})
  {
    InitIsConsistent();
    RunKeepsInv(Init(), steps);
    hide Run;
    assert |Holders(Run(Init(), steps).admissions, g)| == 0 <==> Holders(Run(Init(), steps).admissions, g) == {};
  }

  /** A spent number never names a generation again: once gone, gone for good. */
  ghost predicate SpentAndGone(s: State, g: Generation) {
    g.number <= NumberOf(s.next, g.owner) && g !in s.states
  }

  lemma {:induction false} NumbersAreNotReused(s: State, steps: seq<Step>, g: Generation)
    requires SpentAndGone(s, g)
    ensures SpentAndGone(Run(s, steps), g)
    decreases |steps|
  {
    if steps != [] {
      assert SpentAndGone(Next(s, steps[0]), g) by { hide Holders, AllActive; }
      hide Next, SpentAndGone;
      NumbersAreNotReused(Next(s, steps[0]), steps[1..], g);
    }
  }

  /** A reservation hands out a number above every one handed out before. */
  lemma ReservationIsNew(s: State, owner: OwnerName)
    requires Inv(s) && owner !in s.retired
    ensures
      var g := Generation(owner, NumberOf(s.next, owner) + 1);
      && g !in s.states && g in Next(s, Reserve(owner)).states
      && forall h :: h in s.states && h.owner == owner ==> h.number < g.number
  {
  }

  // ---- Draining ----

  ghost predicate Closing(s: State, g: Generation) {
    && g.number <= NumberOf(s.next, g.owner)
    && (g in s.states ==> s.states[g].lifecycle.Draining? || s.states[g].lifecycle.Inactive?)
  }

  ghost predicate IdleIfInactive(s: State, g: Generation) {
    g in s.states && s.states[g].lifecycle.Inactive? ==> s.states[g].inFlight == 0
  }

  /** No drainer of this generation was woken by an earlier zero that has passed. */
  ghost predicate Quiet(s: State, g: Generation) {
    forall d :: d in s.drainers && s.drainers[d].generation == g && s.drainers[d].woken && g in s.states ==>
      s.states[g].inFlight == 0
  }

  function InFlight(s: State, g: Generation): nat {
    if g in s.states then s.states[g].inFlight else 0
  }

  lemma StepWhileClosing(s: State, step: Step, g: Generation)
    requires Inv(s) && Closing(s, g) && Quiet(s, g) && IdleIfInactive(s, g) && step != Publish(g)
    ensures Closing(Next(s, step), g) && Quiet(Next(s, step), g) && IdleIfInactive(Next(s, step), g)
    ensures InFlight(Next(s, step), g) <= InFlight(s, g)
  {
    if step.Leave? || step.Admit? {
      WorkWhileClosing(s, step, g);
    } else {
      LifecycleWhileClosing(s, step, g);
    }
    hide *;
  }

  lemma LifecycleWhileClosing(s: State, step: Step, g: Generation)
    requires Inv(s) && Closing(s, g) && Quiet(s, g) && IdleIfInactive(s, g)
    requires step != Publish(g) && !step.Leave? && !step.Admit?
    ensures Closing(Next(s, step), g) && Quiet(Next(s, step), g) && IdleIfInactive(Next(s, step), g)
    ensures InFlight(Next(s, step), g) <= InFlight(s, g)
  {
    hide Holders, Busy;
  }

  lemma WorkWhileClosing(s: State, step: Step, g: Generation)
    requires Inv(s) && Closing(s, g) && Quiet(s, g) && IdleIfInactive(s, g) && (step.Leave? || step.Admit?)
    ensures Closing(Next(s, step), g) && Quiet(Next(s, step), g) && IdleIfInactive(Next(s, step), g)
    ensures InFlight(Next(s, step), g) <= InFlight(s, g)
  {
    hide Holders;
    if step.Admit? { assert AllActive(s.states, step.generations) ==> g !in step.generations || g !in s.states; }
  }

  /** From a quiet close until the next publish: nothing is admitted, and inactive means idle. */
  lemma {:induction false} QuietDrain(s: State, steps: seq<Step>, g: Generation)
    requires Inv(s) && Closing(s, g) && Quiet(s, g) && IdleIfInactive(s, g) && Publish(g) !in steps
    ensures Closing(Run(s, steps), g) && IdleIfInactive(Run(s, steps), g)
    ensures InFlight(Run(s, steps), g) <= InFlight(s, g)
    decreases |steps|
  {
    if steps != [] {
      StepWhileClosing(s, steps[0], g);
      NextKeepsInv(s, steps[0]);
      hide Next, Inv, Closing, Quiet, IdleIfInactive, InFlight;
      QuietDrain(Next(s, steps[0]), steps[1..], g);
    }
  }

  ghost predicate AlwaysIdleWhenInactive(s: State, g: Generation) {
    forall steps :: Publish(g) !in steps ==> IdleIfInactive(Run(s, steps), g)
  }

  /**
   A generation that is closing becomes inactive only when idle, whatever happens
   short of another publish, exactly when no drainer woken by an earlier zero is
   still about to resume.
   */
  lemma InactiveMeansIdleExactlyWhenQuiet(s: State, g: Generation)
    requires Inv(s) && Closing(s, g) && IdleIfInactive(s, g)
    ensures AlwaysIdleWhenInactive(s, g) <==> Quiet(s, g)
  {
    if Quiet(s, g) {
      forall steps | Publish(g) !in steps ensures IdleIfInactive(Run(s, steps), g) {
        QuietDrain(s, steps, g);
      }
    } else {
      var d :| d in s.drainers && s.drainers[d].generation == g && s.drainers[d].woken && g in s.states
        && s.states[g].inFlight > 0;
      RunOne(s, Resume(d));
      assert !IdleIfInactive(Run(s, [Resume(d)]), g);
    }
  }

  lemma RunOne(s: State, step: Step)
    ensures Run(s, [step]) == Next(s, step)
  {
    assert [step][1..] == [];
  }

  /** The condition holds whenever no other call is draining the generation as the close begins. */
  lemma OnlyDrainerIsQuiet(s: State, d: DrainerId, g: Generation)
    requires Inv(s) && g in s.states && d !in s.drainers
    requires forall e :: e in s.drainers ==> s.drainers[e].generation != g
    ensures
      var n := Next(s, CloseAndDrain(d, g));
      Closing(n, g) && Quiet(n, g) && IdleIfInactive(n, g)
  {
    hide Holders;
  }

  const FIRST_DRAIN: seq<Step> :=
    [Reserve(0), Publish(Generation(0, 1)), Admit(0, {Generation(0, 1)}), CloseAndDrain(0, Generation(0, 1)), Leave(0)]

  const SECOND_DRAIN: seq<Step> :=
    [Publish(Generation(0, 1)), Admit(1, {Generation(0, 1)}), CloseAndDrain(1, Generation(0, 1)), Resume(0)]

  /** Republishing between a drainer's wake-up and its resumption makes it mark a generation with open work inactive. */
  lemma RepublishDefeatsDrainer()
    ensures
      var g, s := Generation(0, 1), Run(Init(), FIRST_DRAIN + SECOND_DRAIN);
      g in s.states && s.states[g].lifecycle.Inactive? && s.states[g].inFlight == 1
  {
    FirstDrainWakes();
    SecondDrainMisfires(Run(Init(), FIRST_DRAIN));
    RunConcat(Init(), FIRST_DRAIN, SECOND_DRAIN);
    hide *;
  }

  lemma FirstDrainWakes()
    ensures
      var g, s := Generation(0, 1), Run(Init(), FIRST_DRAIN);
      && g in s.states && s.states[g] == GenerationState(Draining, 0, true) && s.retired == {}
      && s.admissions == map[] && s.drainers == map[0 := Drainer(g, true)]
  {
    var g := Generation(0, 1);
    var s1 := Next(Init(), Reserve(0));
    assert s1.states == map[g := GenerationState(Staged, 0, true)];
    var s2 := Next(s1, Publish(g));
    assert s2.states == map[g := GenerationState(Active, 0, true)];
    var s3 := Next(s2, Admit(0, {g}));
    assert s3.states == map[g := GenerationState(Active, 1, false)] && s3.admissions == map[0 := {g}];
    var s4 := Next(s3, CloseAndDrain(0, g));
    assert s4.states == map[g := GenerationState(Draining, 1, false)] && s4.drainers == map[0 := Drainer(g, false)];
    var s5 := Next(s4, Leave(0));
    assert s5.states == map[g := GenerationState(Draining, 0, true)] && s5.drainers == map[0 := Drainer(g, true)];
    assert s5.admissions == map[];
    hide Next;
    RunFive(Init(), Reserve(0), Publish(g), Admit(0, {g}), CloseAndDrain(0, g), Leave(0));
  }

  lemma SecondDrainMisfires(s: State)
    requires
      var g := Generation(0, 1);
      && g in s.states && s.states[g] == GenerationState(Draining, 0, true) && s.retired == {}
      && s.admissions == map[] && s.drainers == map[0 := Drainer(g, true)]
    ensures
      var g, n := Generation(0, 1), Run(s, SECOND_DRAIN);
      g in n.states && n.states[g].lifecycle.Inactive? && n.states[g].inFlight == 1
  {
    var g := Generation(0, 1);
    var s1 := Next(s, Publish(g));
    assert s1.states[g] == GenerationState(Active, 0, true);
    var s2 := Next(s1, Admit(1, {g}));
    assert s2.states[g] == GenerationState(Active, 1, false) && s2.drainers == map[0 := Drainer(g, true)];
    var s3 := Next(s2, CloseAndDrain(1, g));
    assert s3.states[g] == GenerationState(Draining, 1, false) && s3.drainers[0] == Drainer(g, true);
    var s4 := Next(s3, Resume(0));
    assert s4.states[g] == GenerationState(Inactive, 1, false);
    hide Next;
    RunFour(s, Publish(g), Admit(1, {g}), CloseAndDrain(1, g), Resume(0));
  }

  lemma {:induction false} RunConcat(s: State, a: seq<Step>, b: seq<Step>)
    ensures Run(s, a + b) == Run(Run(s, a), b)
    decreases |a|
  {
    hide Next;
    if a == [] {
      assert a + b == b;
    } else {
      assert (a + b)[1..] == a[1..] + b;
      RunConcat(Next(s, a[0]), a[1..], b);
    }
  }

  lemma RunFour(s: State, a: Step, b: Step, c: Step, d: Step)
    ensures Run(s, [a, b, c, d]) == Next(Next(Next(Next(s, a), b), c), d)
  {
    hide Next;
    assert [a, b, c, d] == [a] + [b] + [c] + [d];
    RunConcat(s, [a] + [b] + [c], [d]);
    RunConcat(s, [a] + [b], [c]);
    RunConcat(s, [a], [b]);
    RunOne(s, a);
    RunOne(Next(s, a), b);
    RunOne(Next(Next(s, a), b), c);
    RunOne(Next(Next(Next(s, a), b), c), d);
    hide *;
  }

  lemma RunFive(s: State, a: Step, b: Step, c: Step, d: Step, e: Step)
    ensures Run(s, [a, b, c, d, e]) == Next(Next(Next(Next(Next(s, a), b), c), d), e)
  {
    hide Next;
    assert [a, b, c, d, e] == [a] + [b, c, d, e];
    RunConcat(s, [a], [b, c, d, e]);
    RunOne(s, a);
    RunFour(Next(s, a), b, c, d, e);
    hide *;
  }

  // ---- The gate itself ----

  datatype Refusal = Unknown | NotActive | Retired | StillInFlight

  function Named(items: seq<Option<Generation>>): (generations: set<Generation>)
    ensures forall g :: g in generations <==> Some(g) in items
  {
    set item | item in items && item.Some? :: item.value
  }

  lemma OneMoreNamed(items: seq<Option<Generation>>, i: nat)
    requires i < |items|
    ensures Named(items[..i + 1]) == Named(items[..i]) + if items[i].Some? then {items[i].value} else {}
  {
    assert items[..i + 1] == items[..i] + [items[i]];
  }

  lemma OneMoreMember(unique: seq<Generation>, i: nat)
    requires i < |unique|
    ensures Members(unique[..i + 1]) == Members(unique[..i]) + {unique[i]}
    ensures Distinct(unique) ==> unique[i] !in Members(unique[..i])
  {
    assert unique[..i + 1] == unique[..i] + [unique[i]];
  }

  lemma EnterOneMore(states: States, generations: set<Generation>, g: Generation)
    requires g in states && g !in generations
    ensures Enter(states, generations + {g}) ==
      Enter(states, generations)[g := states[g].(inFlight := states[g].inFlight + 1, drained := false)]
  {
  }

  lemma ExitOneMore(states: States, generations: set<Generation>, g: Generation)
    requires g in states && g !in generations
    ensures Exit(states, generations + {g}) == Exit(states, generations)[g := LeaveOne(states[g])]
  {
  }

  class Gate {
    var nextGeneration: map<OwnerName, nat>
    var states: States
    var retired: set<OwnerName>
    ghost var model: State

    ghost predicate Valid()
      reads this
    {
      Inv(model) && model.next == nextGeneration && model.states == states && model.retired == retired
    }

    constructor ()
      ensures Valid() && model == Init()
    {
      nextGeneration, states, retired, model := map[], map[], {}, Init();
    }

    method ReserveGeneration(owner: OwnerName) returns (r: Result<Generation, Refusal>)
      requires Valid()
      modifies this
      ensures Valid() && model == Next(old(model), Reserve(owner))
      ensures r == if owner in old(retired) then Err(Retired)
        else Ok(Generation(owner, NumberOf(old(nextGeneration), owner) + 1))
      ensures r.Ok? ==> r.value !in old(states) && r.value in states
      ensures r.Ok? ==> forall h :: h in old(states) && h.owner == owner ==> h.number < r.value.number
    {
      hide Inv;
      NextKeepsInv(model, Reserve(owner));
      if owner in retired {
        return Err(Retired);
      }
      ReservationIsNew(model, owner);
      var number := (if owner in nextGeneration then nextGeneration[owner] else 0) + 1;
      nextGeneration := nextGeneration[owner := number];
      states := states[Generation(owner, number) := GenerationState(Staged, 0, true)];
      r := Ok(Generation(owner, number));
      model := Next(model, Reserve(owner));
    }

    method PublishGeneration(g: Generation) returns (r: Result<(), Refusal>)
      requires Valid()
      modifies this
      ensures Valid() && model == Next(old(model), Publish(g))
      ensures r == if g !in old(states) then Err(Unknown) else if g.owner in retired then Err(Retired) else Ok(())
      ensures r.Ok? ==> IsActive(states, g)
    {
      hide Inv;
      NextKeepsInv(model, Publish(g));
      if g !in states {
        return Err(Unknown);
      }
      if g.owner in retired {
        return Err(Retired);
      }
      states := states[g := states[g].(lifecycle := Active)];
      r := Ok(());
      model := Next(model, Publish(g));
    }

    /** Admit a whole set of generations, each once however often it is named, or none of them. */
    method AdmitMany(items: seq<Option<Generation>>, ghost t: Ticket) returns (r: Result<seq<Generation>, Refusal>)
      requires Valid() && t !in model.admissions
      modifies this
      ensures Valid() && model == Next(old(model), Admit(t, Named(items)))
      ensures r.Ok? <==> AllActive(old(states), Named(items))
      ensures r.Ok? ==> Distinct(r.value) && Members(r.value) == Named(items) && t in model.admissions
      ensures r.Err? ==> r.error.NotActive? && states == old(states)
    {
      hide Inv, Next, Enter;
      NextKeepsInv(model, Admit(t, Named(items)));
      AdmitFacts(model, t, Named(items));
      var unique: seq<Generation> := [];
      for i := 0 to |items|
        modifies {}
        invariant Distinct(unique) && Members(unique) == Named(items[..i])
      {
        OneMoreNamed(items, i);
        if items[i].Some? && items[i].value !in unique {
          unique := unique + [items[i].value];
        }
      }
      assert items[..|items|] == items;
      for i := 0 to |unique|
        modifies {}
        invariant AllActive(states, Members(unique[..i]))
      {
        OneMoreMember(unique, i);
        if !IsActive(states, unique[i]) {
          return Err(NotActive);
        }
      }
      assert unique[..|unique|] == unique;
      EnterNobody(states);
      ActiveAreKnown(states, unique);
      for i := 0 to |unique|
        modifies this`states
        invariant states == Enter(old(states), Members(unique[..i]))
      {
        OneMoreMember(unique, i);
        EnterOneMore(old(states), Members(unique[..i]), unique[i]);
        EnteredElsewhere(old(states), Members(unique[..i]), unique[i]);
        var state := states[unique[i]];
        states := states[unique[i] := state.(inFlight := state.inFlight + 1, drained := false)];
      }
      r := Ok(unique);
      model := Next(model, Admit(t, Named(items)));
    }

    /** The end of an admission: leave every generation it entered, setting the event of those now idle. */
    method LeaveMany(unique: seq<Generation>, ghost t: Ticket)
      requires Valid() && t in model.admissions && model.admissions[t] == Members(unique) && Distinct(unique)
      modifies this
      ensures Valid() && model == Next(old(model), Leave(t))
    {
      hide Inv, Next, Exit;
      NextKeepsInv(model, Leave(t));
      LeaveFacts(model, t);
      ExitNobody(states);
      for i := 0 to |unique|
        modifies this`states
        invariant states == Exit(old(states), Members(unique[..i]))
      {
        OneMoreMember(unique, i);
        assert unique[i] in model.admissions[t];
        ExitOneMore(old(states), Members(unique[..i]), unique[i]);
        ExitedElsewhere(old(states), Members(unique[..i]), unique[i]);
        var state := states[unique[i]];
        state := state.(inFlight := state.inFlight - 1);
        if state.inFlight == 0 {
          state := state.(drained := true);
        }
        states := states[unique[i] := state];
      }
      assert unique[..|unique|] == unique;
      model := Next(model, Leave(t));
    }

    /** Stop admissions; the caller is done at once when nothing is in flight, else it waits for the event. */
    method BeginDrain(g: Generation, ghost d: DrainerId) returns (r: Result<bool, Refusal>)
      requires Valid() && d !in model.drainers
      modifies this
      ensures Valid() && model == Next(old(model), CloseAndDrain(d, g))
      ensures r == if g !in old(states) then Err(Unknown) else Ok(old(states)[g].drained)
      ensures r.Ok? ==> states[g].lifecycle == if r.value then Inactive else Draining
    {
      hide Inv;
      NextKeepsInv(model, CloseAndDrain(d, g));
      if g !in states {
        return Err(Unknown);
      }
      states := states[g := states[g].(lifecycle := Draining)];
      r := Ok(states[g].drained);
      if states[g].drained {
        states := states[g := states[g].(lifecycle := Inactive)];
      }
      model := Next(model, CloseAndDrain(d, g));
    }

    /** The rest of a drain that was woken; it does not look at the event again. */
    method EndDrain(g: Generation, ghost d: DrainerId)
      requires Valid() && d in model.drainers && model.drainers[d] == Drainer(g, true)
      modifies this
      ensures Valid() && model == Next(old(model), Resume(d))
      ensures g in states ==> states[g].lifecycle.Inactive?
    {
      hide Inv;
      NextKeepsInv(model, Resume(d));
      if g in states {
        states := states[g := states[g].(lifecycle := Inactive)];
      }
      model := Next(model, Resume(d));
    }

    method DiscardGeneration(g: Generation) returns (r: Result<(), Refusal>)
      requires Valid()
      modifies this
      ensures Valid() && model == Next(old(model), Discard(g))
      ensures r.Err? <==> g in old(states) && old(states)[g].inFlight > 0
      ensures r.Ok? ==> g !in states
    {
      hide Inv;
      NextKeepsInv(model, Discard(g));
      if g in states && states[g].inFlight > 0 {
        return Err(StillInFlight);
      }
      states := states - {g};
      r := Ok(());
      model := Next(model, Discard(g));
    }

    method RetireOwner(owner: OwnerName) returns (r: Result<(), Refusal>)
      requires Valid()
      modifies this
      ensures Valid() && model == Next(old(model), Retire(owner))
      ensures r.Err? <==> Busy(old(states), owner)
      ensures r.Ok? ==> owner in retired
    {
      hide Inv;
      NextKeepsInv(model, Retire(owner));
      if Busy(states, owner) {
        return Err(StillInFlight);
      }
      retired := retired + {owner};
      r := Ok(());
      model := Next(model, Retire(owner));
    }
  }

  lemma AdmitFacts(s: State, t: Ticket, generations: set<Generation>)
    requires t !in s.admissions
    ensures AllActive(s.states, generations) ==>
      Next(s, Admit(t, generations)) == s.(states := Enter(s.states, generations),
        admissions := s.admissions[t := generations])
    ensures !AllActive(s.states, generations) ==> Next(s, Admit(t, generations)) == s
  {
  }

  lemma LeaveFacts(s: State, t: Ticket)
    requires Inv(s) && t in s.admissions
    ensures
      var n := Next(s, Leave(t));
      && n.states == Exit(s.states, s.admissions[t]) && n.next == s.next && n.retired == s.retired
    ensures forall g :: g in s.admissions[t] ==> g in s.states && s.states[g].inFlight > 0 && !s.states[g].drained
  {
    forall g | g in s.admissions[t] ensures g in s.states && s.states[g].inFlight > 0 {
      assert t in Holders(s.admissions, g);
    }
  }

  lemma ActiveAreKnown(states: States, unique: seq<Generation>)
    requires AllActive(states, Members(unique))
    ensures forall k :: 0 <= k < |unique| ==> unique[k] in states
  {
    forall k | 0 <= k < |unique| ensures unique[k] in states {
      assert unique[k] in Members(unique);
      assert IsActive(states, unique[k]);
    }
  }

  lemma EnterNobody(states: States)
    ensures Enter(states, {}) == states
  {
  }

  lemma ExitNobody(states: States)
    ensures Exit(states, {}) == states
  {
  }

  lemma EnteredElsewhere(states: States, generations: set<Generation>, g: Generation)
    requires g !in generations && g in states
    ensures g in Enter(states, generations) && Enter(states, generations)[g] == states[g]
  {
  }

  lemma ExitedElsewhere(states: States, generations: set<Generation>, g: Generation)
    requires g !in generations && g in states
    ensures g in Exit(states, generations) && Exit(states, generations)[g] == states[g]
  {
  }
}
