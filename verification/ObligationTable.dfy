/** The shared obligation table, and what an acknowledgement owes to it. */
module ObligationTable {
  import opened Wrappers
  import Bus = EventBus
  import opened BusDelivery
  import Delivery = EventDelivery

  type Worker = nat
  type DeliveryId = Delivery.DeliveryId

  /** Owners by event name and subscriber; rows are never changed or removed. */
  type Table = map<(Bus.TypeName, Bus.Subscriber), Bus.Owner>

  /** The worker a delivery runs in, and the rows it read before its admission. */
  datatype Synchronized = Synchronized(worker: Worker, table: Table)

  /** Every worker process has a bus of its own; the table is in the database they share. */
  datatype State = State(
    delivery: Delivery.State,
    table: Table,
    buses: map<Worker, Bus.Bus>,
    synchronized: map<DeliveryId, Synchronized>)

  datatype Step =
    | OnBus(w: Worker, change: Bus.Step)               // modules come and go in one process
    | Restart(w: Worker)                             // its deliveries have failed before
    | Synchronize(w: Worker, d: DeliveryId, declared: seq<Bus.Declaration>, rows: seq<Bus.Declaration>, commits: bool)
    | Admit(d: DeliveryId, gate: Option<Bus.States>)
    | Other(step: Delivery.Step)

  function Init(): State {
    State(Delivery.Init(Delivery.Registrations(map[], map[], map[])), map[], map[], map[])
  }

  function BusOf(s: State, w: Worker): Bus.Bus {
    if w in s.buses then s.buses[w] else Bus.Empty()
  }

  /** Insert what is declared; an existing row wins. */
  function InsertAll(table: Table, declared: seq<Bus.Declaration>): (r: Table)
    ensures Within(table, r)
    decreases |declared|
  {
    if declared == [] then table
    else
      var n := |declared| - 1;
      var before := InsertAll(table, declared[..n]);
      var k := (declared[n].name, declared[n].subscriber);
      if k in before then before else before[k := declared[n].owner]
  }

  predicate Within(a: Table, b: Table) {
    forall k :: k in a ==> k in b && b[k] == a[k]
  }

  /** The rows read are the rows there are. */
  predicate Lists(rows: seq<Bus.Declaration>, table: Table) {
    && (forall row :: row in rows ==>
          (row.name, row.subscriber) in table && table[(row.name, row.subscriber)] == row.owner)
    && (forall k :: k in table ==> Bus.Declaration(k.0, k.1, table[k]) in rows)
  }

  function Verified(s: Delivery.State, d: DeliveryId): bool {
    Delivery.InStage(s, d) && s.inbox.deliveries[d].stage.Verified?
  }

  /** One transaction: insert what the bus declares, read every row, bind them, commit. */
  function AfterSynchronize(
    s: State, w: Worker, d: DeliveryId, declared: seq<Bus.Declaration>, rows: seq<Bus.Declaration>, commits: bool)
    : State
  {
    var failed := s.(delivery := Delivery.Next(s.delivery, Delivery.Fail(d)));
    var table := InsertAll(s.table, declared);
    if Bus.BindAll(BusOf(s, w), rows).Err? then failed
    else
      var buses := s.buses[w := Bus.AfterBind(BusOf(s, w), rows)];
      if commits
      then s.(table := table, buses := buses, synchronized := s.synchronized[d := Synchronized(w, table)])
      else failed.(buses := buses)
  }

  /** What else the delivery protocol does; a new delivery has not read the table yet. */
  function AfterOther(s: State, step: Delivery.Step): State {
    var n := s.(delivery := Delivery.Next(s.delivery, step));
    match step
    case Deliver(d, _) => if d in s.delivery.inbox.deliveries then n else n.(synchronized := s.synchronized - {d})
    case _ => n
  }

  predicate Runs(s: State, w: Worker, d: DeliveryId) {
    d in s.delivery.inbox.deliveries && d in s.synchronized && s.synchronized[d].worker == w
  }

  function AfterAdmit(s: State, d: DeliveryId, gate: Option<Bus.States>): State
    requires d in s.synchronized
  {
    var seen := Delivery.Next(s.delivery, Delivery.Register(RegistrationsOf(BusOf(s, s.synchronized[d].worker), gate)));
    s.(delivery := Delivery.Next(seen, Delivery.Admit(d)))
  }

  function Next(s: State, step: Step): State {
    match step
    case OnBus(w, inner) => s.(buses := s.buses[w := Bus.Next(BusOf(s, w), inner)])
    case Restart(w) => if exists d :: d in s.synchronized && Runs(s, w, d) then s else s.(buses := s.buses - {w})
    case Synchronize(w, d, declared, rows, commits) =>
      if Verified(s.delivery, d) && Lists(rows, InsertAll(s.table, declared))
      then AfterSynchronize(s, w, d, declared, rows, commits) else s
    case Admit(d, gate) => if d in s.delivery.inbox.deliveries && d in s.synchronized then AfterAdmit(s, d, gate) else s
    case Other(inner) => if inner.Register? || inner.Admit? then s else AfterOther(s, inner)
  }

  function Run(s: State, steps: seq<Step>): State
    decreases |steps|
  {
    if steps == [] then s else Next(Run(s, steps[..|steps| - 1]), steps[|steps| - 1])
  }

  // ---- What every reachable state keeps ----

  ghost predicate BusesAreTrue(s: State) {
    forall w :: w in s.buses ==> Bus.Inv(s.buses[w])
  }

  /** What a delivery read, its worker's bus owes for good. */
  ghost predicate SynchronizedIsBound(s: State) {
    forall d :: d in s.synchronized && d in s.delivery.inbox.deliveries ==>
      Within(s.synchronized[d].table, BusOf(s, s.synchronized[d].worker).durable)
  }

  /** Everyone in the table under this event name is owed. */
  predicate Includes(owed: set<Bus.Subscriber>, table: Table, name: Bus.TypeName) {
    forall k :: k in table && k.0 == name ==> k.1 in owed
  }

  ghost predicate ServingIncludes(s: State) {
    forall d :: d in s.delivery.inbox.deliveries && s.delivery.inbox.deliveries[d].stage.Serving? ==>
      && Delivery.InStage(s.delivery, d) && d in s.synchronized
      && Includes(s.delivery.inbox.deliveries[d].stage.owed, s.synchronized[d].table,
           Delivery.EventOf(s.delivery, d).typeName)
  }

  ghost predicate Inv(s: State) {
    Delivery.Inv(s.delivery) && BusesAreTrue(s) && SynchronizedIsBound(s) && ServingIncludes(s)
  }

  lemma WithinTrans(a: Table, b: Table, c: Table)
    requires Within(a, b) && Within(b, c)
    ensures Within(a, c)
  {
  }

  lemma BusOfIsTrue(s: State, w: Worker)
    requires BusesAreTrue(s)
    ensures Bus.Inv(BusOf(s, w))
  {
    Bus.EmptyIsConsistent();
    hide Bus.Inv;
  }

  /** One worker's bus moves on, keeping what it owes. */
  lemma BusMoves(s: State, w: Worker, b: Bus.Bus)
    requires BusesAreTrue(s) && SynchronizedIsBound(s)
    requires Bus.Inv(b) && Bus.ObligationsKept(BusOf(s, w), b)
    ensures
      var n := s.(buses := s.buses[w := b]);
      BusesAreTrue(n) && SynchronizedIsBound(n)
  {
    hide Bus.Inv;
    var n := s.(buses := s.buses[w := b]);
    forall d | d in n.synchronized && d in n.delivery.inbox.deliveries
      ensures Within(n.synchronized[d].table, BusOf(n, n.synchronized[d].worker).durable)
    {
      WithinTrans(s.synchronized[d].table, BusOf(s, s.synchronized[d].worker).durable,
        BusOf(n, n.synchronized[d].worker).durable);
    }
  }

  /** A step of the delivery protocol that is no admission. */
  lemma DeliveryMoves(s: State, n: State, step: Delivery.Step)
    requires Inv(s) && !step.Admit?
    requires n == s.(delivery := Delivery.Next(s.delivery, step), synchronized := n.synchronized)
    requires forall d :: d in n.delivery.inbox.deliveries && d in s.delivery.inbox.deliveries ==>
      (d in n.synchronized <==> d in s.synchronized) && (d in s.synchronized ==> n.synchronized[d] == s.synchronized[d])
    requires forall d :: d in n.synchronized && d in n.delivery.inbox.deliveries ==> d in s.delivery.inbox.deliveries
    ensures Inv(n)
  {
    hide Delivery.Next, Delivery.Inv, Bus.Inv, Within, Includes, Delivery.MayAck;
    Delivery.NextKeepsInv(s.delivery, step);
    forall d | d in n.delivery.inbox.deliveries && n.delivery.inbox.deliveries[d].stage.Serving?
      ensures Delivery.InStage(n.delivery, d) && d in n.synchronized
      ensures Includes(n.delivery.inbox.deliveries[d].stage.owed, n.synchronized[d].table,
        Delivery.EventOf(n.delivery, d).typeName)
    {
      Delivery.ServingComesFrom(s.delivery, step, d);
      Delivery.StepKeepsEvents(s.delivery, step, s.delivery.inbox.deliveries[d].message);
    }
  }

  lemma OtherKeepsInv(s: State, step: Delivery.Step)
    requires Inv(s) && !step.Register? && !step.Admit?
    ensures Inv(AfterOther(s, step))
  {
    hide Delivery.Next, Inv;
    var n := AfterOther(s, step);
    forall d | d in n.delivery.inbox.deliveries
      ensures d in s.delivery.inbox.deliveries || (step.Deliver? && step.d == d)
    {
      Delivery.DeliveryComesFrom(s.delivery, step, d);
    }
    if step.Deliver? {
      NewDeliveryKeepsInv(s, n, step);
    } else {
      DeliveryMoves(s, n, step);
    }
  }

  lemma NewDeliveryKeepsInv(s: State, n: State, step: Delivery.Step)
    requires Inv(s) && step.Deliver? && n == AfterOther(s, step)
    requires forall d :: d in n.delivery.inbox.deliveries ==> d in s.delivery.inbox.deliveries || step.d == d
    ensures Inv(n)
  {
    hide Delivery.Next, Inv;
    DeliveryMoves(s, n, step);
  }

  lemma MayAckFacts(s: Delivery.State, d: DeliveryId)
    ensures Delivery.MayAck(s, d) ==> Delivery.InStage(s, d) && s.inbox.deliveries[d].stage.Serving?
  {
  }

  lemma SynchronizeKeepsInv(
    s: State, w: Worker, d: DeliveryId, declared: seq<Bus.Declaration>, rows: seq<Bus.Declaration>, commits: bool)
    requires Inv(s) && Verified(s.delivery, d) && Lists(rows, InsertAll(s.table, declared))
    ensures Inv(AfterSynchronize(s, w, d, declared, rows, commits))
  {
    hide Delivery.Next, Delivery.Inv, Bus.Inv, Bus.BindAll, Bus.AfterBind, Within;
    hide Includes, Lists, InsertAll, BusesAreTrue, SynchronizedIsBound;
    FailKeepsInv(s, d);
    var failed := s.(delivery := Delivery.Next(s.delivery, Delivery.Fail(d)));
    BusOfIsTrue(s, w);
    if Bus.BindAll(BusOf(s, w), rows).Ok? {
      var b := Bus.AfterBind(BusOf(s, w), rows);
      Bus.BindKeepsInv(BusOf(s, w), rows);
      BusMoves(s, w, b);
      BusMoves(failed, w, b);
      BoundRows(s, w, declared, rows);
      ReadRowsAreBound(s.(buses := s.buses[w := b]), w, d, InsertAll(s.table, declared));
    }
  }

  lemma ReadRowsAreBound(s: State, w: Worker, d: DeliveryId, table: Table)
    requires SynchronizedIsBound(s) && Within(table, BusOf(s, w).durable) && Verified(s.delivery, d)
    requires ServingIncludes(s) && BusesAreTrue(s)
    ensures
      var n := s.(table := table, synchronized := s.synchronized[d := Synchronized(w, table)]);
      SynchronizedIsBound(n) && ServingIncludes(n) && BusesAreTrue(n)
  {
    hide Within, Bus.Inv, Includes;
  }

  lemma FailKeepsInv(s: State, d: DeliveryId)
    requires Inv(s)
    ensures Inv(s.(delivery := Delivery.Next(s.delivery, Delivery.Fail(d))))
  {
    hide Delivery.Next, Inv;
    var n := s.(delivery := Delivery.Next(s.delivery, Delivery.Fail(d)));
    forall e | e in n.delivery.inbox.deliveries ensures e in s.delivery.inbox.deliveries {
      Delivery.DeliveryComesFrom(s.delivery, Delivery.Fail(d), e);
    }
    DeliveryMoves(s, n, Delivery.Fail(d));
  }

  /** Every row read is bound. */
  lemma BoundRows(s: State, w: Worker, declared: seq<Bus.Declaration>, rows: seq<Bus.Declaration>)
    requires Lists(rows, InsertAll(s.table, declared)) && Bus.BindAll(BusOf(s, w), rows).Ok? && Bus.Inv(BusOf(s, w))
    ensures Within(InsertAll(s.table, declared), Bus.AfterBind(BusOf(s, w), rows).durable)
  {
    Bus.BindSucceedsExactlyWhenCompatible(BusOf(s, w), rows);
    Bus.BindIsAllOrNothing(BusOf(s, w), rows);
    hide Bus.BindAll, Bus.AfterBind, Bus.Inv, Bus.Compatible, InsertAll;
  }

  lemma AdmitKeepsInv(s: State, d: DeliveryId, gate: Option<Bus.States>)
    requires Inv(s) && d in s.delivery.inbox.deliveries && d in s.synchronized
    ensures Inv(AfterAdmit(s, d, gate))
  {
    hide Delivery.Next, Delivery.Inv, Bus.Inv, Includes, Delivery.MayAck, RegistrationsOf;
    var b := BusOf(s, s.synchronized[d].worker);
    var seen := s.(delivery := Delivery.Next(s.delivery, Delivery.Register(RegistrationsOf(b, gate))));
    RegisterKeepsInv(s, RegistrationsOf(b, gate));
    var n := AfterAdmit(s, d, gate);
    Delivery.NextKeepsInv(seen.delivery, Delivery.Admit(d));
    forall e | e in n.delivery.inbox.deliveries ensures e in seen.delivery.inbox.deliveries {
      Delivery.DeliveryComesFrom(seen.delivery, Delivery.Admit(d), e);
    }
    forall e | e in n.delivery.inbox.deliveries && n.delivery.inbox.deliveries[e].stage.Serving?
      ensures Delivery.InStage(n.delivery, e) && e in n.synchronized
      ensures Includes(n.delivery.inbox.deliveries[e].stage.owed, n.synchronized[e].table,
        Delivery.EventOf(n.delivery, e).typeName)
    {
      Delivery.ServingComesFrom(seen.delivery, Delivery.Admit(d), e);
      Delivery.StepKeepsEvents(seen.delivery, Delivery.Admit(d), seen.delivery.inbox.deliveries[e].message);
      if !seen.delivery.inbox.deliveries[e].stage.Serving? {
        ObligatedIncludes(b, gate, s.synchronized[d].table, Delivery.EventOf(seen.delivery, d).typeName);
      }
    }
  }

  lemma RegisterKeepsInv(s: State, registrations: Delivery.Registrations)
    requires Inv(s)
    ensures
      var n := s.(delivery := Delivery.Next(s.delivery, Delivery.Register(registrations)));
      && Inv(n) && n.delivery == s.delivery.(registrations := registrations)
  {
    hide Inv;
    var n := s.(delivery := Delivery.Next(s.delivery, Delivery.Register(registrations)));
    DeliveryMoves(s, n, Delivery.Register(registrations));
  }

  lemma ObligatedIncludes(b: Bus.Bus, gate: Option<Bus.States>, table: Table, name: Bus.TypeName)
    requires Within(table, b.durable)
    ensures Includes(Delivery.Obligated(RegistrationsOf(b, gate), name), table, name)
  {
    var r := RegistrationsOf(b, gate);
    forall k | k in table && k.0 == name ensures k.1 in Delivery.Named(r.durable, name) {
      assert (name, k.1) in b.durable;
    }
  }

  lemma NextKeepsInv(s: State, step: Step)
    requires Inv(s)
    ensures Inv(Next(s, step))
  {
    hide Delivery.Next, Delivery.Inv, Bus.Inv, Bus.Next, AfterSynchronize;
    hide AfterOther, AfterAdmit, Lists, InsertAll, Verified;
    match step
    case OnBus(w, inner) =>
      BusOfIsTrue(s, w);
      Bus.NextKeepsInv(BusOf(s, w), inner);
      BusMoves(s, w, Bus.Next(BusOf(s, w), inner));
    case Restart(w) => RestartKeepsInv(s, w);
    case Synchronize(w, d, declared, rows, commits) =>
      if Verified(s.delivery, d) && Lists(rows, InsertAll(s.table, declared)) {
        SynchronizeKeepsInv(s, w, d, declared, rows, commits);
      }
    case Admit(d, gate) => if d in s.delivery.inbox.deliveries && d in s.synchronized { AdmitKeepsInv(s, d, gate); }
    case Other(inner) =>
      if !inner.Register? && !inner.Admit? { OtherKeepsInv(s, inner); }
  }

  lemma RestartKeepsInv(s: State, w: Worker)
    requires Inv(s)
    ensures Inv(Next(s, Restart(w)))
  {
    hide Delivery.Inv, Bus.Inv, Within, Includes;
    var n := Next(s, Restart(w));
    forall d | d in n.synchronized && d in n.delivery.inbox.deliveries
      ensures Within(n.synchronized[d].table, BusOf(n, n.synchronized[d].worker).durable)
    {
      assert n != s ==> !Runs(s, w, d);
    }
  }

  lemma InitIsConsistent()
    ensures Inv(Init())
  {
    Delivery.InitIsConsistent(Init().delivery.registrations);
    hide Delivery.Inv;
  }

  lemma {:induction false} RunKeepsInv(s: State, steps: seq<Step>)
    requires Inv(s)
    ensures Inv(Run(s, steps))
    decreases |steps|
  {
    hide Inv, Next;
    if steps != [] {
      RunKeepsInv(s, steps[..|steps| - 1]);
      NextKeepsInv(Run(s, steps[..|steps| - 1]), steps[|steps| - 1]);
    }
  }

  // ---- Results over every run ----

  lemma RunOneMore(s: State, steps: seq<Step>)
    requires steps != []
    ensures Run(s, steps) == Next(Run(s, steps[..|steps| - 1]), steps[|steps| - 1])
  {
  }

  lemma StepKeepsRows(s: State, step: Step)
    ensures Within(s.table, Next(s, step).table)
  {
    hide Delivery.Next, Bus.Next, Bus.BindAll, Bus.AfterBind, Lists, Verified, RegistrationsOf, InsertAll;
  }

  /** Rows are never removed and never change owner, whichever worker wrote them. */
  lemma {:induction false} TableOnlyGrows(s: State, steps: seq<Step>, h: nat)
    requires h <= |steps|
    ensures Within(Run(s, steps[..h]).table, Run(s, steps).table)
    decreases |steps|
  {
    hide Next;
    if h == |steps| {
      assert steps[..h] == steps;
    } else {
      var init := steps[..|steps| - 1];
      TableOnlyGrows(s, init, h);
      assert init[..h] == steps[..h];
      StepKeepsRows(Run(s, init), steps[|steps| - 1]);
      WithinTrans(Run(s, steps[..h]).table, Run(s, init).table, Run(s, steps).table);
    }
  }

  lemma RunOfNothing()
    ensures Run(Init(), []) == Init()
  {
  }

  /** Delivery d of message m has read exactly these rows, in this worker. */
  predicate HasRead(s: State, d: DeliveryId, m: nat, read: Synchronized) {
    && d in s.delivery.inbox.deliveries && s.delivery.inbox.deliveries[d].message == m
    && d in s.synchronized && s.synchronized[d] == read
  }

  /** Step i is the synchronization in which delivery d of message m read the table as it then stood. */
  ghost predicate SynchronizedAt(steps: seq<Step>, i: nat, d: DeliveryId, m: nat, read: Synchronized) {
    && i < |steps| && steps[i].Synchronize? && steps[i].d == d && steps[i].w == read.worker
    && var after := Run(Init(), steps[..i + 1]);
      && HasRead(after, d, m, read) && after.table == read.table && Verified(after.delivery, d)
  }

  /** From step i to the end of the run it is one and the same delivery, with what it read. */
  ghost predicate HasReadSince(steps: seq<Step>, i: nat, d: DeliveryId, m: nat, read: Synchronized) {
    forall h :: i < h <= |steps| ==> HasRead(Run(Init(), steps[..h]), d, m, read)
  }

  /** Where a delivery's rows come from: it had read them before, or this is its synchronization. */
  lemma ReadComesFrom(s: State, step: Step, d: DeliveryId, m: nat, read: Synchronized)
    requires HasRead(Next(s, step), d, m, read)
    ensures
      || HasRead(s, d, m, read)
      || (step.Synchronize? && step.d == d && step.w == read.worker && Next(s, step).table == read.table
          && Verified(Next(s, step).delivery, d))
  {
    hide Delivery.Next, Bus.Next, Bus.BindAll, Bus.AfterBind, Lists, RegistrationsOf, InsertAll, Delivery.MayAck;
    match step
    case OnBus(_, _) =>
    case Restart(_) =>
    case Synchronize(_, e, _, _, _) =>
      if d in Delivery.Next(s.delivery, Delivery.Fail(e)).inbox.deliveries {
        Delivery.DeliveryComesFrom(s.delivery, Delivery.Fail(e), d);
      }
    case Admit(e, gate) =>
      if e in s.delivery.inbox.deliveries && e in s.synchronized {
        var registered := Delivery.Register(RegistrationsOf(BusOf(s, s.synchronized[e].worker), gate));
        Delivery.DeliveryComesFrom(Delivery.Next(s.delivery, registered), Delivery.Admit(e), d);
        Delivery.DeliveryComesFrom(s.delivery, registered, d);
      }
    case Other(inner) => if !inner.Register? && !inner.Admit? { Delivery.DeliveryComesFrom(s.delivery, inner, d); }
  }

  /** What a delivery has read it read at its own synchronization. */
  lemma {:induction false} ReadWasSynchronized(steps: seq<Step>, d: DeliveryId, m: nat, read: Synchronized)
    returns (i: nat)
    requires HasRead(Run(Init(), steps), d, m, read)
    ensures SynchronizedAt(steps, i, d, m, read) && HasReadSince(steps, i, d, m, read)
    decreases |steps|
  {
    hide Next, Run, Verified;
    assert steps != [] by { RunOfNothing(); }
    var init, last := steps[..|steps| - 1], steps[|steps| - 1];
    RunOneMore(Init(), steps);
    assert steps[..|steps|] == steps;
    assert forall h :: 0 <= h <= |init| ==> init[..h] == steps[..h];
    ReadComesFrom(Run(Init(), init), last, d, m, read);
    if HasRead(Run(Init(), init), d, m, read) {
      i := ReadWasSynchronized(init, d, m, read);
    } else {
      i := |init|;
    }
  }

  /** What the bus of a worker owes under an event name when a delivery is admitted in it. */
  function OwedAt(s: State, w: Worker, gate: Option<Bus.States>, name: Bus.TypeName): set<Bus.Subscriber> {
    Delivery.Obligated(RegistrationsOf(BusOf(s, w), gate), name)
  }

  /** Step j admits delivery d of message m while exactly these subscribers are obligated in its worker. */
  ghost predicate AdmittedAt(
    steps: seq<Step>, j: nat, d: DeliveryId, m: nat, owed: set<Bus.Subscriber>)
  {
    && j < |steps| && steps[j].Admit? && steps[j].d == d
    && var before := Run(Init(), steps[..j]);
      && Delivery.InStage(before.delivery, d) && before.delivery.inbox.deliveries[d].message == m
      && d in before.synchronized
      && owed == OwedAt(before, before.synchronized[d].worker, steps[j].gate,
                        Delivery.EventOf(before.delivery, d).typeName)
  }

  /** From step j to the end of the run delivery d is being served. */
  ghost predicate ServesSince(steps: seq<Step>, j: nat, d: DeliveryId, m: nat, owed: set<Bus.Subscriber>) {
    forall i :: j < i <= |steps| ==> Delivery.Serves(Run(Init(), steps[..i]).delivery, d, m, owed)
  }

  /** Where a serving delivery comes from: it served before, or this is its admission. */
  lemma ServingComesFrom(s: State, step: Step, d: DeliveryId, m: nat, owed: set<Bus.Subscriber>)
    requires Inv(s) && Delivery.Serves(Next(s, step).delivery, d, m, owed)
    ensures
      || Delivery.Serves(s.delivery, d, m, owed)
      || (step.Admit? && step.d == d && Delivery.InStage(s.delivery, d)
          && s.delivery.inbox.deliveries[d].message == m && d in s.synchronized
          && owed == OwedAt(s, s.synchronized[d].worker, step.gate, Delivery.EventOf(s.delivery, d).typeName))
  {
    hide Delivery.Next, Bus.Next, Bus.BindAll, Bus.AfterBind, Lists, RegistrationsOf, InsertAll, Verified;
    hide Delivery.Inv, Bus.Inv, Within, Includes, SynchronizedIsBound, BusesAreTrue, Delivery.MayAck;
    match step
    case OnBus(_, _) =>
    case Restart(_) =>
    case Synchronize(_, e, _, _, _) =>
      if Delivery.Serves(Delivery.Next(s.delivery, Delivery.Fail(e)), d, m, owed) {
        Delivery.ServingComesFrom(s.delivery, Delivery.Fail(e), d);
      }
    case Admit(e, gate) =>
      if e in s.delivery.inbox.deliveries && e in s.synchronized { AdmissionServes(s, e, gate, d, m, owed); }
    case Other(inner) =>
      if !inner.Register? && !inner.Admit? { Delivery.ServingComesFrom(s.delivery, inner, d); }
  }

  lemma AdmissionServes(
    s: State, e: DeliveryId, gate: Option<Bus.States>, d: DeliveryId, m: nat, owed: set<Bus.Subscriber>)
    requires Inv(s) && e in s.delivery.inbox.deliveries && e in s.synchronized
    requires Delivery.Serves(AfterAdmit(s, e, gate).delivery, d, m, owed)
    ensures
      || Delivery.Serves(s.delivery, d, m, owed)
      || (e == d && Delivery.InStage(s.delivery, d) && s.delivery.inbox.deliveries[d].message == m
          && owed == OwedAt(s, s.synchronized[d].worker, gate, Delivery.EventOf(s.delivery, d).typeName))
  {
    hide Delivery.Next, RegistrationsOf, Delivery.Obligated;
    hide Delivery.Inv, Bus.Inv, Within, Includes, SynchronizedIsBound, BusesAreTrue;
    var registrations := RegistrationsOf(BusOf(s, s.synchronized[e].worker), gate);
    RegisterKeepsInv(s, registrations);
    Delivery.ServingComesFrom(Delivery.Next(s.delivery, Delivery.Register(registrations)), Delivery.Admit(e), d);
  }

  /** A delivery under way owes exactly who was obligated in its worker at its own admission. */
  lemma {:induction false} OwedWasAdmitted(steps: seq<Step>, d: DeliveryId, m: nat, owed: set<Bus.Subscriber>)
    returns (j: nat)
    requires Delivery.Serves(Run(Init(), steps).delivery, d, m, owed)
    ensures AdmittedAt(steps, j, d, m, owed) && ServesSince(steps, j, d, m, owed)
    decreases |steps|
  {
    hide Next, Run, Inv, OwedAt;
    assert steps != [] by { RunOfNothing(); }
    var init, last := steps[..|steps| - 1], steps[|steps| - 1];
    RunOneMore(Init(), steps);
    InitIsConsistent();
    RunKeepsInv(Init(), init);
    assert steps[..|steps|] == steps;
    assert forall i :: 0 <= i <= |init| ==> init[..i] == steps[..i];
    ServingComesFrom(Run(Init(), init), last, d, m, owed);
    if Delivery.Serves(Run(Init(), init).delivery, d, m, owed) {
      j := OwedWasAdmitted(init, d, m, owed);
    } else {
      j := |init|;
    }
  }

  /** Step k acknowledges message m through delivery d, which had read these rows and owed these subscribers. */
  ghost predicate AcknowledgedAt(
    steps: seq<Step>, k: nat, d: DeliveryId, m: nat, read: Synchronized, owed: set<Bus.Subscriber>)
  {
    && k < |steps| && steps[k] == Other(Delivery.Ack(d))
    && var before := Run(Init(), steps[..k]);
      && Delivery.MayAck(before.delivery, d) && Delivery.Serves(before.delivery, d, m, owed)
      && HasRead(before, d, m, read)
  }

  /** Where an acknowledgement comes from. */
  lemma AckComesFrom(s: State, step: Step, m: nat)
    requires Inv(s) && m < |Next(s, step).delivery.publication.stream|
    requires Next(s, step).delivery.publication.stream[m].acked.Some?
    ensures
      var acked := Next(s, step).delivery.publication.stream[m].acked;
      || (step.Other? && step.step.Ack? && Delivery.MayAck(s.delivery, step.step.d)
          && Delivery.Serves(s.delivery, step.step.d, m, acked.value) && step.step.d in s.synchronized)
      || (m < |s.delivery.publication.stream| && s.delivery.publication.stream[m].acked == acked)
  {
    hide Delivery.Next, Bus.Next, Bus.BindAll, Bus.AfterBind, Lists, RegistrationsOf, InsertAll, Verified;
    hide Delivery.Inv, Bus.Inv, Within, Includes, SynchronizedIsBound, BusesAreTrue, Delivery.MayAck;
    match step
    case OnBus(_, _) =>
    case Restart(_) =>
    case Synchronize(_, e, _, _, _) =>
      if m < |Delivery.Next(s.delivery, Delivery.Fail(e)).publication.stream| {
        if Delivery.Next(s.delivery, Delivery.Fail(e)).publication.stream[m].acked.Some? {
          Delivery.AckComesFrom(s.delivery, Delivery.Fail(e), m);
        }
      }
    case Admit(e, gate) =>
      if e in s.delivery.inbox.deliveries && e in s.synchronized {
        var registrations := RegistrationsOf(BusOf(s, s.synchronized[e].worker), gate);
        RegisterKeepsInv(s, registrations);
        Delivery.AckComesFrom(s.delivery.(registrations := registrations), Delivery.Admit(e), m);
      }
    case Other(inner) =>
      if !inner.Register? && !inner.Admit? {
        Delivery.AckComesFrom(s.delivery, inner, m);
        if inner.Ack? { MayAckFacts(s.delivery, inner.d); }
      }
  }

  lemma {:induction false} AckedBy(steps: seq<Step>, m: nat)
    returns (k: nat, d: DeliveryId, read: Synchronized)
    requires m < |Run(Init(), steps).delivery.publication.stream|
    requires Run(Init(), steps).delivery.publication.stream[m].acked.Some?
    ensures AcknowledgedAt(steps, k, d, m, read, Run(Init(), steps).delivery.publication.stream[m].acked.value)
    decreases |steps|
  {
    hide Next, Run, Inv, Delivery.MayAck, Delivery.InStage;
    assert steps != [] by { RunOfNothing(); }
    var init, last := steps[..|steps| - 1], steps[|steps| - 1];
    var before, acked := Run(Init(), init), Run(Init(), steps).delivery.publication.stream[m].acked;
    RunOneMore(Init(), steps);
    InitIsConsistent();
    RunKeepsInv(Init(), init);
    AckComesFrom(before, last, m);
    if m < |before.delivery.publication.stream| && before.delivery.publication.stream[m].acked == acked {
      k, d, read := AckedBy(init, m);
      assert init[..k] == steps[..k];
    } else {
      k, d := |init|, last.step.d;
      ServesInbox(before.delivery, d, m, acked.value);
      read := before.synchronized[d];
    }
  }

  lemma ServesInbox(s: Delivery.State, d: DeliveryId, m: nat, owed: set<Bus.Subscriber>)
    requires Delivery.Serves(s, d, m, owed)
    ensures d in s.inbox.deliveries && s.inbox.deliveries[d].message == m && s.inbox.deliveries[d].stage.Serving?
  {
  }

  /**
   An acknowledged message goes back to the delivery that acknowledged it, that to its
   own admission, and that to its own synchronization: the acknowledgement covers
   exactly who was obligated in its worker at the admission, among them every
   subscriber the shared table held for the event name at the synchronization,
   whichever worker wrote the row; and each of them has had exactly one effect.
   */
  lemma AcknowledgedServesTheTable(steps: seq<Step>, m: nat)
    returns (i: nat, j: nat, k: nat, d: DeliveryId, read: Synchronized, owed: set<Bus.Subscriber>)
    requires m < |Run(Init(), steps).delivery.publication.stream|
    requires Run(Init(), steps).delivery.publication.stream[m].acked.Some?
    ensures i < j < k < |steps| && AcknowledgedAt(steps, k, d, m, read, owed)
    ensures AdmittedAt(steps[..k], j, d, m, owed) && ServesSince(steps[..k], j, d, m, owed)
    ensures SynchronizedAt(steps[..k], i, d, m, read) && HasReadSince(steps[..k], i, d, m, read)
    ensures
      var after := Run(Init(), steps).delivery;
      var e := after.publication.stream[m].event;
      && after.publication.stream[m].acked == Some(owed) && Includes(owed, read.table, e.typeName)
      && forall sub :: sub in owed ==> after.inbox.effects[Delivery.KeyFor(e, sub)] == 1
  {
    hide Run, Next, Delivery.Inv, Delivery.KeyFor, Delivery.InStage, Delivery.Serves, OwedAt;
    InitIsConsistent();
    RunKeepsInv(Init(), steps);
    var s := Run(Init(), steps);
    k, d, read := AckedBy(steps, m);
    owed := s.delivery.publication.stream[m].acked.value;
    j := OwedWasAdmitted(steps[..k], d, m, owed);
    i := ReadWasSynchronized(steps[..k], d, m, read);
    SynchronizedBeforeAdmitted(steps[..k], i, j, d, m, read, owed);
    Delivery.AckedHaveEffects(s.delivery, m);
    ServingIncludesRead(steps, k, d, m, read, owed);
  }

  /** A delivery that has just read the table is not yet admitted. */
  lemma SynchronizedBeforeAdmitted(
    steps: seq<Step>, i: nat, j: nat, d: DeliveryId, m: nat, read: Synchronized, owed: set<Bus.Subscriber>)
    requires SynchronizedAt(steps, i, d, m, read)
    requires AdmittedAt(steps, j, d, m, owed) && ServesSince(steps, j, d, m, owed)
    ensures i < j
  {
    hide Run;
    var after := Run(Init(), steps[..i + 1]);
    assert !Delivery.Serves(after.delivery, d, m, owed);
  }

  /** What an acknowledging delivery owes includes everyone it read, about the event its message still carries. */
  lemma ServingIncludesRead(
    steps: seq<Step>, k: nat, d: DeliveryId, m: nat, read: Synchronized, owed: set<Bus.Subscriber>)
    requires AcknowledgedAt(steps, k, d, m, read, owed)
    requires m < |Run(Init(), steps).delivery.publication.stream|
    ensures Includes(owed, read.table, Run(Init(), steps).delivery.publication.stream[m].event.typeName)
  {
    hide Run, Next, Delivery.Inv, Bus.Inv, Includes, Within;
    InitIsConsistent();
    RunKeepsInv(Init(), steps[..k]);
    EventStays(steps, k, m);
  }

  lemma {:induction false} EventStays(steps: seq<Step>, k: nat, m: nat)
    requires k <= |steps| && m < |Run(Init(), steps[..k]).delivery.publication.stream|
    ensures m < |Run(Init(), steps).delivery.publication.stream|
    ensures Run(Init(), steps).delivery.publication.stream[m].event
      == Run(Init(), steps[..k]).delivery.publication.stream[m].event
    decreases |steps|
  {
    hide Next, Run;
    if k == |steps| {
      assert steps[..k] == steps;
    } else {
      var init := steps[..|steps| - 1];
      assert init[..k] == steps[..k];
      EventStays(init, k, m);
      RunOneMore(Init(), steps);
      StepKeepsEvents(Run(Init(), init), steps[|steps| - 1], m);
    }
  }

  lemma StepKeepsEvents(s: State, step: Step, m: nat)
    requires m < |s.delivery.publication.stream|
    ensures m < |Next(s, step).delivery.publication.stream|
    ensures Next(s, step).delivery.publication.stream[m].event == s.delivery.publication.stream[m].event
  {
    hide Delivery.Next, Bus.Next, Bus.BindAll, Bus.AfterBind, Lists, RegistrationsOf, InsertAll, Verified;
    match step
    case OnBus(_, _) =>
    case Restart(_) =>
    case Synchronize(_, e, _, _, _) => Delivery.StepKeepsEvents(s.delivery, Delivery.Fail(e), m);
    case Admit(e, gate) =>
      if e in s.delivery.inbox.deliveries && e in s.synchronized {
        var registered := Delivery.Register(RegistrationsOf(BusOf(s, s.synchronized[e].worker), gate));
        Delivery.StepKeepsEvents(s.delivery, registered, m);
        Delivery.StepKeepsEvents(Delivery.Next(s.delivery, registered), Delivery.Admit(e), m);
      }
    case Other(inner) => Delivery.StepKeepsEvents(s.delivery, inner, m);
  }
}
