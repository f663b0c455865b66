/** Durable event delivery, from the outbox to the handlers' effects. */
module EventDelivery {
  import opened Wrappers
  import opened Collections
  import opened Paths
  import opened OutboxPublication

  type DeliveryId = nat

  /** An inbox receipt's primary key. */
  datatype Key = Key(tenant: Tenant, subscriber: Subscriber, id: EventId)

  /** What the open subscriber transaction holds uncommitted. */
  datatype Transaction = Transaction(claimed: bool, handled: bool)

  datatype Stage =
    | Checking
    | Verified
    | Serving(subscribers: seq<Subscriber>, owed: set<Subscriber>, done: nat, transaction: Transaction)

  datatype Delivery = Delivery(message: nat, stage: Stage)

  datatype Inbox = Inbox(receipts: set<Key>, effects: multiset<Key>, deliveries: map<DeliveryId, Delivery>)

  /** Subscriber registrations as a delivery sees them, by event type. */
  datatype Registrations = Registrations(
    durable: map<TypeName, set<Subscriber>>,
    handlers: map<TypeName, set<Subscriber>>,
    active: map<TypeName, set<Subscriber>>)

  /**
   The outbox and its publishers, a broker that may deliver any message any number
   of times, and consumers that serve each obligated subscriber in its own
   transaction, where the inbox receipt and the handler's effect commit together.
   Any delivery may fail between two steps.
   */
  datatype State = State(publication: Publication, inbox: Inbox, registrations: Registrations)

  datatype Step =
    | Outgoing(step: OutboxPublication.Step)
    | Inject(event: Event)                    // anything else a client puts on the stream
    | Register(registrations: Registrations)  // modules come and go
    | Deliver(d: DeliveryId, message: nat)    // even an ended message may have a copy still on its way
    | Check(d: DeliveryId, decodes: bool)     // envelope, committed source and payload
    | Admit(d: DeliveryId)
    | Claim(d: DeliveryId)
    | Handle(d: DeliveryId)
    | CommitSubscriber(d: DeliveryId)
    | Fail(d: DeliveryId)                     // error, cancellation or crash: roll back, redeliver later
    | Ack(d: DeliveryId)

  function Init(registrations: Registrations): State {
    State(Empty(), Inbox({}, multiset{}, map[]), registrations)
  }

  function Named(names: map<TypeName, set<Subscriber>>, t: TypeName): set<Subscriber> {
    if t in names then names[t] else {}
  }

  /** Everyone who must be served: durable obligations and registered handlers. */
  function Obligated(r: Registrations, t: TypeName): set<Subscriber> {
    Named(r.durable, t) + Named(r.handlers, t)
  }

  /** The registered handlers whose module generation is active. */
  function Active(r: Registrations, t: TypeName): set<Subscriber> {
    Named(r.handlers, t) * Named(r.active, t)
  }

  function KeyFor(e: Event, subscriber: Subscriber): Key {
    Key(e.tenant, subscriber, e.id)
  }

  predicate InStage(s: State, d: DeliveryId) {
    d in s.inbox.deliveries && s.inbox.deliveries[d].message < |s.publication.stream|
  }

  function EventOf(s: State, d: DeliveryId): Event
    requires InStage(s, d)
  {
    s.publication.stream[s.inbox.deliveries[d].message].event
  }

  predicate Busy(s: State, d: DeliveryId) {
    && InStage(s, d) && s.inbox.deliveries[d].stage.Serving?
    && s.inbox.deliveries[d].stage.done < |s.inbox.deliveries[d].stage.subscribers|
  }

  /** The receipt the current subscriber transaction is about. */
  function CurrentKey(s: State, d: DeliveryId): Key
    requires Busy(s, d)
  {
    KeyFor(EventOf(s, d), s.inbox.deliveries[d].stage.subscribers[s.inbox.deliveries[d].stage.done])
  }

  predicate Claims(s: State, d: DeliveryId, k: Key) {
    Busy(s, d) && s.inbox.deliveries[d].stage.transaction.claimed && CurrentKey(s, d) == k
  }

  function Drop(s: State, d: DeliveryId): State {
    s.(inbox := s.inbox.(deliveries := s.inbox.deliveries - {d}))
  }

  function SetStage(s: State, d: DeliveryId, stage: Stage): State
    requires d in s.inbox.deliveries
  {
    s.(inbox := s.inbox.(deliveries := s.inbox.deliveries[d := s.inbox.deliveries[d].(stage := stage)]))
  }

  function SetStream(s: State, stream: Stream): State {
    s.(publication := s.publication.(stream := stream))
  }

  /**
   The envelope must match a committed row, and its payload must decode, or its
   message ends: the broker sends it no more, though a copy on its way may still arrive.
   */
  function AfterCheck(s: State, d: DeliveryId, decodes: bool): State
    requires InStage(s, d)
  {
    var m, stream := s.inbox.deliveries[d].message, s.publication.stream;
    if !Genuine(s.publication.outbox, EventOf(s, d)) then
      Drop(SetStream(s, stream[m := stream[m].(terminated := Some(NotCommitted))]), d)
    else if !decodes then
      Drop(SetStream(s, stream[m := stream[m].(terminated := Some(Undecodable))]), d)
    else SetStage(s, d, Verified)
  }

  /** All obligated subscribers are active and served in name order, or the broker must redeliver. */
  function AfterAdmit(s: State, d: DeliveryId): State
    requires InStage(s, d)
  {
    var obligated := Obligated(s.registrations, EventOf(s, d).typeName);
    var active := Active(s.registrations, EventOf(s, d).typeName);
    if obligated <= active
    then SetStage(s, d, Serving(Ascending(active), obligated, 0, Transaction(false, false)))
    else Drop(s, d)
  }

  /** Insert the receipt; a committed one means skip this subscriber, an uncommitted rival means wait. */
  function AfterClaim(s: State, d: DeliveryId): State
    requires Busy(s, d)
  {
    var stage := s.inbox.deliveries[d].stage;
    if CurrentKey(s, d) in s.inbox.receipts then SetStage(s, d, stage.(done := stage.done + 1))
    else if exists other :: other in s.inbox.deliveries && Claims(s, other, CurrentKey(s, d)) then s
    else SetStage(s, d, stage.(transaction := Transaction(true, false)))
  }

  /** Commit whatever the transaction holds. */
  function AfterCommit(s: State, d: DeliveryId): State
    requires Busy(s, d)
  {
    var stage, k := s.inbox.deliveries[d].stage, CurrentKey(s, d);
    var n := SetStage(s, d, stage.(done := stage.done + 1, transaction := Transaction(false, false)));
    n.(inbox := n.inbox.(
      receipts := if stage.transaction.claimed then n.inbox.receipts + {k} else n.inbox.receipts,
      effects := if stage.transaction.handled then n.inbox.effects + multiset{k} else n.inbox.effects))
  }

  function AfterAck(s: State, d: DeliveryId): State
    requires InStage(s, d) && s.inbox.deliveries[d].stage.Serving?
  {
    var m, stream := s.inbox.deliveries[d].message, s.publication.stream;
    Drop(SetStream(s, stream[m := stream[m].(acked := Some(s.inbox.deliveries[d].stage.owed))]), d)
  }

  predicate MayHandle(s: State, d: DeliveryId) {
    Busy(s, d) && s.inbox.deliveries[d].stage.transaction == Transaction(true, false)
  }

  predicate MayCommit(s: State, d: DeliveryId) {
    Busy(s, d) && s.inbox.deliveries[d].stage.transaction == Transaction(true, true)
  }

  predicate MayAck(s: State, d: DeliveryId) {
    && InStage(s, d) && s.inbox.deliveries[d].stage.Serving?
    && s.inbox.deliveries[d].stage.done == |s.inbox.deliveries[d].stage.subscribers|
  }

  function Next(s: State, step: Step): State {
    match step
    case Outgoing(inner) => s.(publication := OutboxPublication.Next(s.publication, inner))
    case Inject(e) => SetStream(s, s.publication.stream + [NewMessage(e, Elsewhere)])
    case Register(registrations) => s.(registrations := registrations)
    case Deliver(d, m) =>
      if d !in s.inbox.deliveries && m < |s.publication.stream|
      then s.(inbox := s.inbox.(deliveries := s.inbox.deliveries[d := Delivery(m, Checking)])) else s
    case Check(d, decodes) =>
      if InStage(s, d) && s.inbox.deliveries[d].stage.Checking? then AfterCheck(s, d, decodes) else s
    case Admit(d) => if InStage(s, d) && s.inbox.deliveries[d].stage.Verified? then AfterAdmit(s, d) else s
    case Claim(d) =>
      if Busy(s, d) && !s.inbox.deliveries[d].stage.transaction.claimed then AfterClaim(s, d) else s
    case Handle(d) =>
      if MayHandle(s, d)
      then SetStage(s, d, s.inbox.deliveries[d].stage.(transaction := Transaction(true, true))) else s
    case CommitSubscriber(d) => if MayCommit(s, d) then AfterCommit(s, d) else s
    case Fail(d) => Drop(s, d)
    case Ack(d) => if MayAck(s, d) then AfterAck(s, d) else s
  }

  function Run(s: State, steps: seq<Step>): State
    decreases |steps|
  {
    if steps == [] then s else Next(Run(s, steps[..|steps| - 1]), steps[|steps| - 1])
  }

  // ---- What every reachable state keeps ----

  /** A handler's effect is committed exactly when its receipt is, and at most once. */
  ghost predicate EffectsMatchReceipts(receipts: set<Key>, effects: multiset<Key>) {
    forall k :: effects[k] == if k in receipts then 1 else 0
  }

  /** A delivery serves exactly those owed, and those already passed have receipts. */
  ghost predicate DeliveryIsTrue(receipts: set<Key>, stream: Stream, v: Delivery) {
    && v.message < |stream|
    && (v.stage.Serving? ==>
      && v.stage.done <= |v.stage.subscribers|
      && (forall sub :: sub in v.stage.subscribers <==> sub in v.stage.owed)
      && (forall j :: 0 <= j < v.stage.done ==> KeyFor(stream[v.message].event, v.stage.subscribers[j]) in receipts)
      && (v.stage.transaction.claimed ==>
            && v.stage.done < |v.stage.subscribers|
            && KeyFor(stream[v.message].event, v.stage.subscribers[v.stage.done]) !in receipts)
      && (v.stage.transaction.handled ==> v.stage.transaction.claimed))
  }

  ghost predicate DeliveriesAreTrue(s: State) {
    forall d :: d in s.inbox.deliveries ==>
      DeliveryIsTrue(s.inbox.receipts, s.publication.stream, s.inbox.deliveries[d])
  }

  /** No two open transactions hold the same uncommitted receipt. */
  ghost predicate ClaimsAreExclusive(s: State) {
    forall c, d, k :: Claims(s, c, k) && Claims(s, d, k) ==> c == d
  }

  /** An acknowledged message has a receipt for everyone owed; an outbox message ends otherwise only undecodable. */
  ghost predicate MessageIsTrue(receipts: set<Key>, m: Message) {
    && (m.acked.Some? ==> forall sub :: sub in m.acked.value ==> KeyFor(m.event, sub) in receipts)
    && (m.origin.FromOutbox? && m.terminated.Some? ==> m.terminated.value.Undecodable?)
  }

  ghost predicate MessagesAreTrue(s: State) {
    forall i :: 0 <= i < |s.publication.stream| ==> MessageIsTrue(s.inbox.receipts, s.publication.stream[i])
  }

  ghost predicate Consistent(s: State) {
    EffectsMatchReceipts(s.inbox.receipts, s.inbox.effects) && DeliveriesAreTrue(s) && ClaimsAreExclusive(s)
      && MessagesAreTrue(s)
  }

  ghost predicate Inv(s: State) {
    OutboxPublication.Inv(s.publication) && Consistent(s)
  }

  /** The stream only gained fresh messages. */
  lemma GrowthKeepsConsistent(s: State, n: State)
    requires Consistent(s) && n.inbox == s.inbox && s.publication.stream <= n.publication.stream
    requires forall i :: |s.publication.stream| <= i < |n.publication.stream| ==>
      n.publication.stream[i].acked.None? && n.publication.stream[i].terminated.None?
    ensures Consistent(n)
  {
    hide EffectsMatchReceipts;
    var before, after := s.publication.stream, n.publication.stream;
    assert forall i :: 0 <= i < |before| ==> after[i] == before[i];
    assert forall c, k :: Claims(n, c, k) ==> Claims(s, c, k) by {
      assert forall d :: d in s.inbox.deliveries ==> s.inbox.deliveries[d].message < |before|;
    }
    hide Claims;
  }

  lemma DropKeepsConsistent(s: State, d: DeliveryId)
    requires Consistent(s)
    ensures Consistent(Drop(s, d))
  {
    hide EffectsMatchReceipts, DeliveryIsTrue, MessageIsTrue;
    var n := Drop(s, d);
    assert forall c, k :: Claims(n, c, k) ==> Claims(s, c, k);
  }

  lemma MarkKeepsInv(s: State, m: nat, marked: Message)
    requires Inv(s) && m < |s.publication.stream|
    requires marked.event == s.publication.stream[m].event && marked.origin == s.publication.stream[m].origin
    requires MessageIsTrue(s.inbox.receipts, marked)
    ensures Inv(SetStream(s, s.publication.stream[m := marked]))
  {
    hide EffectsMatchReceipts, MessageIsTrue, OutboxPublication.Inv;
    var stream := s.publication.stream[m := marked];
    var n := SetStream(s, stream);
    StreamStepKeepsInv(s.publication, stream);
    assert forall i :: 0 <= i < |stream| ==> stream[i].event == s.publication.stream[i].event;
    assert forall c, k :: Claims(n, c, k) <==> Claims(s, c, k);
    assert MessagesAreTrue(n);
    hide MessagesAreTrue, Claims;
    forall d | d in n.inbox.deliveries ensures DeliveryIsTrue(n.inbox.receipts, stream, n.inbox.deliveries[d]) {
      assert DeliveryIsTrue(s.inbox.receipts, s.publication.stream, s.inbox.deliveries[d]);
    }
  }

  lemma StageKeepsConsistent(s: State, d: DeliveryId, stage: Stage)
    requires Consistent(s) && d in s.inbox.deliveries
    requires DeliveryIsTrue(s.inbox.receipts, s.publication.stream, s.inbox.deliveries[d].(stage := stage))
    requires forall c, k :: c != d && Claims(s, c, k) ==> !Claims(SetStage(s, d, stage), d, k)
    ensures Consistent(SetStage(s, d, stage))
  {
    hide EffectsMatchReceipts, DeliveryIsTrue, MessageIsTrue;
    var n := SetStage(s, d, stage);
    assert forall c, k :: c != d ==> (Claims(n, c, k) <==> Claims(s, c, k));
    hide Claims;
  }

  lemma DeliverKeepsConsistent(s: State, d: DeliveryId, m: nat)
    requires Consistent(s) && d !in s.inbox.deliveries && m < |s.publication.stream|
    ensures Consistent(Next(s, Deliver(d, m)))
  {
    hide EffectsMatchReceipts, MessageIsTrue;
    var n := Next(s, Deliver(d, m));
    assert forall c, k :: Claims(n, c, k) ==> Claims(s, c, k);
    hide Claims;
  }

  lemma CheckKeepsInv(s: State, d: DeliveryId, decodes: bool)
    requires Inv(s) && InStage(s, d) && s.inbox.deliveries[d].stage.Checking?
    ensures Inv(AfterCheck(s, d, decodes))
  {
    var m, stream := s.inbox.deliveries[d].message, s.publication.stream;
    assert MessageIsTrue(s.inbox.receipts, stream[m]);
    var reason := if Genuine(s.publication.outbox, EventOf(s, d)) then Undecodable else NotCommitted;
    var marked := stream[m].(terminated := Some(reason));
    if reason.NotCommitted? || !decodes {
      MarkKeepsInv(s, m, marked);
      DropKeepsConsistent(SetStream(s, stream[m := marked]), d);
    } else {
      StageKeepsConsistent(s, d, Verified);
    }
    hide *;
  }

  lemma AdmitKeepsConsistent(s: State, d: DeliveryId)
    requires Consistent(s) && InStage(s, d)
    ensures Consistent(AfterAdmit(s, d))
  {
    var obligated := Obligated(s.registrations, EventOf(s, d).typeName);
    var active := Active(s.registrations, EventOf(s, d).typeName);
    if obligated <= active {
      assert active <= obligated;
      StageKeepsConsistent(s, d, Serving(Ascending(active), obligated, 0, Transaction(false, false)));
    } else {
      DropKeepsConsistent(s, d);
    }
    hide *;
  }

  lemma ClaimKeepsConsistent(s: State, d: DeliveryId)
    requires Consistent(s) && Busy(s, d) && !s.inbox.deliveries[d].stage.transaction.claimed
    ensures Consistent(AfterClaim(s, d))
  {
    hide ClaimsAreExclusive, MessagesAreTrue, EffectsMatchReceipts;
    var stage, k := s.inbox.deliveries[d].stage, CurrentKey(s, d);
    assert DeliveryIsTrue(s.inbox.receipts, s.publication.stream, s.inbox.deliveries[d]);
    if k in s.inbox.receipts {
      StageKeepsConsistent(s, d, stage.(done := stage.done + 1));
    } else if exists other :: other in s.inbox.deliveries && Claims(s, other, k) {
    } else {
      StageKeepsConsistent(s, d, stage.(transaction := Transaction(true, false)));
    }
    hide *;
  }

  lemma HandleKeepsConsistent(s: State, d: DeliveryId)
    requires Consistent(s) && MayHandle(s, d)
    ensures Consistent(SetStage(s, d, s.inbox.deliveries[d].stage.(transaction := Transaction(true, true))))
  {
    hide MessagesAreTrue, EffectsMatchReceipts;
    var stage := s.inbox.deliveries[d].stage.(transaction := Transaction(true, true));
    assert DeliveryIsTrue(s.inbox.receipts, s.publication.stream, s.inbox.deliveries[d]);
    assert forall k :: Claims(SetStage(s, d, stage), d, k) ==> Claims(s, d, k);
    StageKeepsConsistent(s, d, stage);
    hide *;
  }

  /** Receipt and effect appear together; others waiting for the same key hold no claim on it. */
  lemma CommitKeepsConsistent(s: State, d: DeliveryId)
    requires Consistent(s) && MayCommit(s, d)
    ensures Consistent(AfterCommit(s, d))
  {
    var n, k := AfterCommit(s, d), CurrentKey(s, d);
    assert DeliveryIsTrue(s.inbox.receipts, s.publication.stream, s.inbox.deliveries[d]);
    assert n.inbox.receipts == s.inbox.receipts + {k} && n.inbox.effects == s.inbox.effects + multiset{k};
    assert EffectsMatchReceipts(n.inbox.receipts, n.inbox.effects);
    hide EffectsMatchReceipts;
    assert Claims(s, d, k);
    assert forall c, j :: Claims(n, c, j) ==> c != d && Claims(s, c, j);
    CommitKeepsDelivery(s, d);
    hide AfterCommit;
    forall c | c in n.inbox.deliveries && c != d
      ensures DeliveryIsTrue(n.inbox.receipts, n.publication.stream, n.inbox.deliveries[c])
    {
      assert DeliveryIsTrue(s.inbox.receipts, s.publication.stream, s.inbox.deliveries[c]);
      assert forall j :: Claims(s, c, j) ==> j != k;
      OtherDeliveryStaysTrue(s, c, k);
    }
    hide Claims;
  }

  lemma OtherDeliveryStaysTrue(s: State, c: DeliveryId, k: Key)
    requires c in s.inbox.deliveries
    requires DeliveryIsTrue(s.inbox.receipts, s.publication.stream, s.inbox.deliveries[c])
    requires !Claims(s, c, k)
    ensures DeliveryIsTrue(s.inbox.receipts + {k}, s.publication.stream, s.inbox.deliveries[c])
  {
  }

  lemma CommitKeepsDelivery(s: State, d: DeliveryId)
    requires DeliveriesAreTrue(s) && MayCommit(s, d)
    ensures
      var n := AfterCommit(s, d);
      && DeliveryIsTrue(n.inbox.receipts, n.publication.stream, n.inbox.deliveries[d])
      && n.publication == s.publication
      && n.inbox.receipts == s.inbox.receipts + {CurrentKey(s, d)}
      && n.inbox.deliveries.Keys == s.inbox.deliveries.Keys
      && forall c :: c in s.inbox.deliveries && c != d ==> n.inbox.deliveries[c] == s.inbox.deliveries[c]
  {
    assert DeliveryIsTrue(s.inbox.receipts, s.publication.stream, s.inbox.deliveries[d]);
  }

  lemma AckKeepsInv(s: State, d: DeliveryId)
    requires Inv(s) && MayAck(s, d)
    ensures Inv(AfterAck(s, d))
  {
    var v, stream := s.inbox.deliveries[d], s.publication.stream;
    var marked := stream[v.message].(acked := Some(v.stage.owed));
    assert MessageIsTrue(s.inbox.receipts, stream[v.message]);
    assert DeliveryIsTrue(s.inbox.receipts, stream, v);
    MarkKeepsInv(s, v.message, marked);
    DropKeepsConsistent(SetStream(s, stream[v.message := marked]), d);
    hide *;
  }

  lemma NextKeepsInv(s: State, step: Step)
    requires Inv(s)
    ensures Inv(Next(s, step))
  {
    hide Consistent, OutboxPublication.Inv, OutboxPublication.Next,
         AfterCheck, AfterAdmit, AfterClaim, AfterCommit, AfterAck, SetStage, Drop;
    match step
    case Outgoing(inner) => OutgoingKeepsInv(s, inner);
    case Inject(e) => InjectKeepsInv(s, e);
    case Register(registrations) => GrowthKeepsConsistent(s, Next(s, step));
    case Deliver(d, m) =>
      if d !in s.inbox.deliveries && m < |s.publication.stream| { DeliverKeepsConsistent(s, d, m); }
    case Check(d, decodes) =>
      if InStage(s, d) && s.inbox.deliveries[d].stage.Checking? { CheckKeepsInv(s, d, decodes); }
    case Admit(d) =>
      if InStage(s, d) && s.inbox.deliveries[d].stage.Verified? {
        AdmitKeepsConsistent(s, d);
        InboxStepsOnly(s, d);
      }
    case Claim(d) =>
      if Busy(s, d) && !s.inbox.deliveries[d].stage.transaction.claimed {
        ClaimKeepsConsistent(s, d);
        InboxStepsOnly(s, d);
      }
    case Handle(d) =>
      if MayHandle(s, d) {
        HandleKeepsConsistent(s, d);
        InboxStepsOnly(s, d);
      }
    case CommitSubscriber(d) =>
      if MayCommit(s, d) {
        CommitKeepsConsistent(s, d);
        InboxStepsOnly(s, d);
      }
    case Fail(d) =>
      DropKeepsConsistent(s, d);
      InboxStepsOnly(s, d);
    case Ack(d) => if MayAck(s, d) { AckKeepsInv(s, d); }
  }

  lemma InboxStepsOnly(s: State, d: DeliveryId)
    ensures Drop(s, d).publication == s.publication
    ensures InStage(s, d) ==> AfterAdmit(s, d).publication == s.publication
    ensures d in s.inbox.deliveries ==> forall stage :: SetStage(s, d, stage).publication == s.publication
    ensures Busy(s, d) ==> AfterClaim(s, d).publication == AfterCommit(s, d).publication == s.publication
  {
  }

  lemma OutgoingKeepsInv(s: State, inner: OutboxPublication.Step)
    requires Inv(s)
    ensures Inv(Next(s, Outgoing(inner)))
  {
    hide Consistent, OutboxPublication.Inv;
    OutboxPublication.NextKeepsInv(s.publication, inner);
    PublishersOnlyAppend(s.publication, inner);
    GrowthKeepsConsistent(s, Next(s, Outgoing(inner)));
  }

  lemma PublishersOnlyAppend(p: Publication, step: OutboxPublication.Step)
    ensures
      var n := OutboxPublication.Next(p, step);
      && p.stream <= n.stream
      && forall i :: |p.stream| <= i < |n.stream| ==> n.stream[i].acked.None? && n.stream[i].terminated.None?
  {
    hide Picks;
  }

  lemma InjectKeepsInv(s: State, e: Event)
    requires Inv(s)
    ensures Inv(Next(s, Inject(e)))
  {
    hide Consistent, OutboxPublication.Inv;
    StreamStepKeepsInv(s.publication, s.publication.stream + [NewMessage(e, Elsewhere)]);
    GrowthKeepsConsistent(s, Next(s, Inject(e)));
  }

  lemma InitIsConsistent(registrations: Registrations)
    ensures Inv(Init(registrations))
  {
  }

  lemma {:induction false} RunKeepsInv(s: State, steps: seq<Step>)
    requires Inv(s)
    ensures Inv(Run(s, steps))
    decreases |steps|
  {
    hide Inv, Next;
    if steps != [] {
      RunKeepsInv(s, steps[..|steps| - 1]);
      NextKeepsInv(Run(s, steps[..|steps| - 1]), steps[|steps| - 1]);
    }
  }

  // ---- Results over every run ----

  /** Whatever is published, redelivered, crashed or served twice at once: one effect per receipt, and at most one. */
  lemma EffectsCommitAtMostOnce(registrations: Registrations, steps: seq<Step>, k: Key)
    ensures
      var s := Run(Init(registrations), steps);
      s.inbox.effects[k] <= 1 && (s.inbox.effects[k] == 1 <==> k in s.inbox.receipts)
  {
    InitIsConsistent(registrations);
    RunKeepsInv(Init(registrations), steps);
    hide Next, Run;
  }

  /** A receipt, and the effect with it, is never undone. */
  lemma {:induction false} ReceiptsAreKept(s: State, steps: seq<Step>)
    ensures s.inbox.receipts <= Run(s, steps).inbox.receipts
    decreases |steps|
  {
    if steps != [] {
      ReceiptsAreKept(s, steps[..|steps| - 1]);
      StepKeepsReceipts(Run(s, steps[..|steps| - 1]), steps[|steps| - 1]);
      hide Next;
    }
  }

  lemma StepKeepsReceipts(s: State, step: Step)
    ensures s.inbox.receipts <= Next(s, step).inbox.receipts
  {
    hide Claims, OutboxPublication.Next, Obligated, Active;
  }

  /**
   A published row's message is in the stream, no committed row is lost, and an
   unpublished one stays reachable for a publisher.
   */
  lemma NoEventIsLost(registrations: Registrations, steps: seq<Step>, id: EventId)
    ensures
      var p := Run(Init(registrations), steps).publication;
      id in p.outbox.rows ==> AccountedFor(p, id)
  {
    InitIsConsistent(registrations);
    RunKeepsInv(Init(registrations), steps);
    hide Next, Run;
    var p := Run(Init(registrations), steps).publication;
    if id in p.outbox.rows { RowIsAccountedFor(p, id); }
  }

  /** Once committed, an event's row outlives every later step and keeps what it says. */
  lemma {:induction false} CommittedEventsStay(s: State, steps: seq<Step>, id: EventId)
    requires Inv(s)
    ensures RowGoesOn(s.publication.outbox, Run(s, steps).publication.outbox, id)
    decreases |steps|
  {
    if steps != [] {
      var init := steps[..|steps| - 1];
      CommittedEventsStay(s, init, id);
      RunKeepsInv(s, init);
      DeliveryKeepsRows(Run(s, init), steps[|steps| - 1], id);
      hide Next, Inv, Run;
      assert Run(s, steps) == Next(Run(s, init), steps[|steps| - 1]) by { RunUnfolds(s, steps); }
    }
  }

  lemma RunUnfolds(s: State, steps: seq<Step>)
    requires steps != []
    ensures Run(s, steps) == Next(Run(s, steps[..|steps| - 1]), steps[|steps| - 1])
  {
  }

  lemma DeliveryKeepsRows(s: State, step: Step, id: EventId)
    requires Inv(s)
    ensures RowGoesOn(s.publication.outbox, Next(s, step).publication.outbox, id)
  {
    hide OutboxPublication.Inv, OutboxPublication.Next, Claims, Genuine, Obligated, Active, Consistent;
    if step.Outgoing? { StepKeepsRows(s.publication, step.step, id); }
  }

  /** A message a publisher sent ends without acknowledgement only when its payload does not decode. */
  lemma GenuineMessagesAreNotTerminated(registrations: Registrations, steps: seq<Step>, m: nat)
    ensures
      var stream := Run(Init(registrations), steps).publication.stream;
      m < |stream| && stream[m].origin.FromOutbox? && stream[m].terminated.Some? ==>
        stream[m].terminated == Some(Undecodable)
  {
    InitIsConsistent(registrations);
    RunKeepsInv(Init(registrations), steps);
    hide Next, Run;
    var s := Run(Init(registrations), steps);
    if m < |s.publication.stream| { assert MessageIsTrue(s.inbox.receipts, s.publication.stream[m]); }
  }

  // ---- An acknowledgement covers everyone obligated when the delivery was admitted ----

  /** A step keeps what every stored message says. */
  lemma StepKeepsEvents(s: State, step: Step, m: nat)
    requires m < |s.publication.stream|
    ensures m < |Next(s, step).publication.stream|
    ensures Next(s, step).publication.stream[m].event == s.publication.stream[m].event
  {
    hide Claims, OutboxPublication.Next, Obligated, Active, Genuine;
    if step.Outgoing? { PublishersOnlyAppend(s.publication, step.step); }
  }

  /** Where a delivery comes from. */
  lemma DeliveryComesFrom(s: State, step: Step, d: DeliveryId)
    requires d in Next(s, step).inbox.deliveries
    ensures
      var v := Next(s, step).inbox.deliveries[d];
      if d in s.inbox.deliveries then v.message == s.inbox.deliveries[d].message
      else step == Deliver(d, v.message) && v.stage.Checking?
  {
    hide Claims, OutboxPublication.Next, Obligated, Active, Genuine;
  }

  /** Where a serving delivery comes from: it served before, or this is its admission. */
  lemma ServingComesFrom(s: State, step: Step, d: DeliveryId)
    requires d in Next(s, step).inbox.deliveries && Next(s, step).inbox.deliveries[d].stage.Serving?
    ensures
      var v := Next(s, step).inbox.deliveries[d];
      && d in s.inbox.deliveries && v.message == s.inbox.deliveries[d].message
      && if s.inbox.deliveries[d].stage.Serving? then v.stage.owed == s.inbox.deliveries[d].stage.owed
         else step == Admit(d) && InStage(s, d) && v.stage.owed == Obligated(s.registrations, EventOf(s, d).typeName)
  {
    hide Claims, OutboxPublication.Next, Obligated, Active, Genuine;
  }

  /** Where an acknowledgement comes from. */
  lemma AckComesFrom(s: State, step: Step, m: nat)
    requires m < |Next(s, step).publication.stream| && Next(s, step).publication.stream[m].acked.Some?
    ensures
      var acked := Next(s, step).publication.stream[m].acked;
      || (step.Ack? && MayAck(s, step.d) && s.inbox.deliveries[step.d].message == m
          && acked.value == s.inbox.deliveries[step.d].stage.owed)
      || (m < |s.publication.stream| && s.publication.stream[m].acked == acked
          && !(step.Ack? && MayAck(s, step.d) && s.inbox.deliveries[step.d].message == m))
  {
    hide Claims, OutboxPublication.Next, Obligated, Active, Genuine;
    if step.Outgoing? { PublishersOnlyAppend(s.publication, step.step); }
  }

  lemma RunOfNothing(s: State)
    ensures Run(s, []) == s
  {
  }

  /** Delivery d of message m is being served, and owes exactly these subscribers. */
  predicate Serves(s: State, d: DeliveryId, m: nat, owed: set<Subscriber>) {
    && InStage(s, d) && s.inbox.deliveries[d].message == m
    && s.inbox.deliveries[d].stage.Serving? && s.inbox.deliveries[d].stage.owed == owed
  }

  /** Step j admits delivery d of message m while exactly these subscribers are obligated. */
  ghost predicate AdmittedAt(s: State, steps: seq<Step>, j: nat, d: DeliveryId, m: nat, owed: set<Subscriber>) {
    && j < |steps| && steps[j] == Admit(d)
    && var before := Run(s, steps[..j]);
      && InStage(before, d) && before.inbox.deliveries[d].message == m
      && owed == Obligated(before.registrations, EventOf(before, d).typeName)
  }

  /** From step j to the end of the run it is one and the same delivery. */
  ghost predicate ServesSince(s: State, steps: seq<Step>, j: nat, d: DeliveryId, m: nat, owed: set<Subscriber>) {
    forall i :: j < i <= |steps| ==> Serves(Run(s, steps[..i]), d, m, owed)
  }

  /** A delivery under way owes exactly who was obligated at its own admission. */
  lemma {:induction false} OwedWasAdmitted(s: State, steps: seq<Step>, d: DeliveryId, m: nat, owed: set<Subscriber>)
    returns (j: nat)
    requires Inv(s) && s.inbox.deliveries == map[] && Serves(Run(s, steps), d, m, owed)
    ensures AdmittedAt(s, steps, j, d, m, owed) && ServesSince(s, steps, j, d, m, owed)
    decreases |steps|
  {
    hide Next, Run, Inv;
    assert steps != [] by { RunOfNothing(s); }
    var init, last := steps[..|steps| - 1], steps[|steps| - 1];
    var before := Run(s, init);
    RunKeepsInv(s, init);
    RunUnfolds(s, steps);
    assert steps[..|steps|] == steps;
    assert forall i :: 0 <= i <= |init| ==> init[..i] == steps[..i];
    ServingComesFrom(before, last, d);
    if before.inbox.deliveries[d].stage.Serving? {
      DeliveryHasMessage(before, d);
      j := OwedWasAdmitted(s, init, d, m, owed);
    } else {
      j := |init|;
    }
  }

  lemma DeliveryHasMessage(s: State, d: DeliveryId)
    requires Inv(s) && d in s.inbox.deliveries
    ensures InStage(s, d)
  {
    assert DeliveryIsTrue(s.inbox.receipts, s.publication.stream, s.inbox.deliveries[d]);
  }

  /** Step k acknowledges message m through delivery d, which owed these subscribers. */
  ghost predicate AcknowledgedAt(s: State, steps: seq<Step>, k: nat, d: DeliveryId, m: nat, owed: set<Subscriber>) {
    && k < |steps| && steps[k] == Ack(d) && MayAck(Run(s, steps[..k]), d) && Serves(Run(s, steps[..k]), d, m, owed)
  }

  lemma {:induction false} AckedBy(s: State, steps: seq<Step>, m: nat) returns (k: nat, d: DeliveryId)
    requires s.publication.stream == [] && m < |Run(s, steps).publication.stream|
    requires Run(s, steps).publication.stream[m].acked.Some?
    ensures AcknowledgedAt(s, steps, k, d, m, Run(s, steps).publication.stream[m].acked.value)
    decreases |steps|
  {
    hide Next, Run, MayAck;
    assert steps != [] by { RunOfNothing(s); }
    var init, last := steps[..|steps| - 1], steps[|steps| - 1];
    RunUnfolds(s, steps);
    AckComesFrom(Run(s, init), last, m);
    if last.Ack? && MayAck(Run(s, init), last.d) {
      MayAckServes(Run(s, init), last.d);
      if Run(s, init).inbox.deliveries[last.d].message == m {
        k, d := |init|, last.d;
        return;
      }
    }
    k, d := AckedBy(s, init, m);
    assert init[..k] == steps[..k];
  }

  lemma MayAckServes(s: State, d: DeliveryId)
    requires MayAck(s, d)
    ensures InStage(s, d) && s.inbox.deliveries[d].stage.Serving?
  {
  }

  /**
   An acknowledged message goes back to the delivery that acknowledged it, and that to
   its own admission: the acknowledgement covers exactly everyone obligated to the
   event type then, and each of them has had exactly one effect.
   */
  lemma AcknowledgedMeansServed(registrations: Registrations, steps: seq<Step>, m: nat)
    returns (j: nat, k: nat, d: DeliveryId)
    requires m < |Run(Init(registrations), steps).publication.stream|
    requires Run(Init(registrations), steps).publication.stream[m].acked.Some?
    ensures j < k < |steps| && steps[j] == Admit(d) && steps[k] == Ack(d)
    ensures MayAck(Run(Init(registrations), steps[..k]), d)
    ensures
      var before, after := Run(Init(registrations), steps[..j]), Run(Init(registrations), steps);
      && InStage(before, d) && before.inbox.deliveries[d].message == m
      && var obligated := Obligated(before.registrations, EventOf(before, d).typeName);
        && after.publication.stream[m].acked == Some(obligated)
        && (forall i :: j < i <= k ==> Serves(Run(Init(registrations), steps[..i]), d, m, obligated))
        && (forall sub :: sub in obligated ==>
              after.inbox.effects[KeyFor(after.publication.stream[m].event, sub)] == 1)
  {
    var s, after := Init(registrations), Run(Init(registrations), steps);
    hide Run, Next, MayAck, Inv;
    InitIsConsistent(registrations);
    k, d := AckedBy(s, steps, m);
    var owed := after.publication.stream[m].acked.value;
    j := OwedWasAdmitted(s, steps[..k], d, m, owed);
    assert steps[..k][..j] == steps[..j];
    assert forall i :: 0 <= i <= k ==> steps[..k][..i] == steps[..i];
    RunKeepsInv(s, steps);
    AckedHaveEffects(after, m);
  }

  lemma AckedHaveEffects(s: State, m: nat)
    requires Inv(s) && m < |s.publication.stream| && s.publication.stream[m].acked.Some?
    ensures forall sub :: sub in s.publication.stream[m].acked.value ==>
      s.inbox.effects[KeyFor(s.publication.stream[m].event, sub)] == 1
  {
    InvEffects(s);
    assert MessageIsTrue(s.inbox.receipts, s.publication.stream[m]);
    hide KeyFor;
  }

  // ---- Serving one delivery ----

  function KeysOf(e: Event, subscribers: seq<Subscriber>): (keys: set<Key>)
    ensures forall sub :: sub in subscribers ==> KeyFor(e, sub) in keys
    ensures forall k :: k in keys ==> k.subscriber in subscribers && k == KeyFor(e, k.subscriber)
  {
    set sub | sub in subscribers :: KeyFor(e, sub)
  }

  lemma KeysOneMore(e: Event, subscribers: seq<Subscriber>, n: nat)
    requires n < |subscribers|
    ensures KeysOf(e, subscribers[..n + 1]) == KeysOf(e, subscribers[..n]) + {KeyFor(e, subscribers[n])}
  {
    assert subscribers[..n + 1] == subscribers[..n] + [subscribers[n]];
  }

  /** What serving some subscribers of an event leaves committed: the missing receipts, each with one effect. */
  function Serve(inbox: Inbox, e: Event, subscribers: seq<Subscriber>): Inbox {
    var keys := KeysOf(e, subscribers);
    inbox.(receipts := inbox.receipts + keys, effects := inbox.effects + multiset(keys - inbox.receipts))
  }

  lemma ServeOneMore(inbox: Inbox, e: Event, subscribers: seq<Subscriber>, n: nat)
    requires n < |subscribers|
    ensures
      var k, before, after := KeyFor(e, subscribers[n]), Serve(inbox, e, subscribers[..n]),
        Serve(inbox, e, subscribers[..n + 1]);
      && after.receipts == before.receipts + {k}
      && after.effects == (if k in before.receipts then before.effects else before.effects + multiset{k})
      && after.deliveries == before.deliveries
  {
    var k := KeyFor(e, subscribers[n]);
    KeysOneMore(e, subscribers, n);
    var before := KeysOf(e, subscribers[..n]);
    hide KeysOf, KeyFor;
    if k in inbox.receipts + before {
      assert before + {k} - inbox.receipts == before - inbox.receipts;
    } else {
      assert before + {k} - inbox.receipts == (before - inbox.receipts) + {k};
      assert multiset((before - inbox.receipts) + {k}) == multiset(before - inbox.receipts) + multiset{k};
    }
  }

  /** A subscriber with a receipt adds nothing; any other adds its receipt and one effect. */
  lemma ServedOneMore(inbox: Inbox, now: Inbox, e: Event, subscribers: seq<Subscriber>, n: nat)
    requires n < |subscribers| && now == Serve(inbox, e, subscribers[..n])
    ensures
      var k := KeyFor(e, subscribers[n]);
      Serve(inbox, e, subscribers[..n + 1]) ==
        if k in now.receipts then now else Inbox(now.receipts + {k}, now.effects + multiset{k}, now.deliveries)
  {
    ServeOneMore(inbox, e, subscribers, n);
    hide Serve, KeyFor;
    var k := KeyFor(e, subscribers[n]);
    if k in now.receipts { assert now.receipts + {k} == now.receipts; }
  }

  /** Why a subscriber's transaction ends in an error, if it does. */
  datatype Trouble = Smooth | Denied | Broken

  /** A refusal comes before the claim; a broken handler or commit matters only to a transaction that claimed. */
  predicate Stops(receipts: set<Key>, k: Key, trouble: Trouble) {
    trouble.Denied? || (trouble.Broken? && k !in receipts)
  }

  lemma StopsFacts(receipts: set<Key>, k: Key, trouble: Trouble)
    ensures Stops(receipts, k, trouble) <==> trouble.Denied? || (trouble.Broken? && k !in receipts)
  {
  }

  lemma WholePrefix(subscribers: seq<Subscriber>)
    ensures subscribers[..|subscribers|] == subscribers
  {
  }

  /** None of the first n subscribers stopped the delivery. */
  ghost predicate Passed(inbox: Inbox, e: Event, subscribers: seq<Subscriber>, troubles: nat -> Trouble, n: nat)
    requires n <= |subscribers|
  {
    forall i :: 0 <= i < n ==>
      !Stops(Serve(inbox, e, subscribers[..i]).receipts, KeyFor(e, subscribers[i]), troubles(i))
  }

  lemma PassedOneMore(inbox: Inbox, e: Event, subscribers: seq<Subscriber>, troubles: nat -> Trouble, n: nat)
    requires n < |subscribers| && Passed(inbox, e, subscribers, troubles, n)
    requires !Stops(Serve(inbox, e, subscribers[..n]).receipts, KeyFor(e, subscribers[n]), troubles(n))
    ensures Passed(inbox, e, subscribers, troubles, n + 1)
  {
    hide Stops, Serve, KeyFor;
  }

  /** What consuming a delivery comes to: everyone served and counted, or an error at the first who stopped it. */
  ghost predicate Consumed(
    before: Inbox, after: Inbox, e: Event, subscribers: seq<Subscriber>, troubles: nat -> Trouble, r: Result<nat, nat>)
  {
    var stop := if r.Ok? then |subscribers| else r.error;
    && stop <= |subscribers|
    && after == Serve(before, e, subscribers[..stop])
    && (r.Ok? ==> r.value == |KeysOf(e, subscribers) - before.receipts|)
    && (r.Err? ==> stop < |subscribers| && Stops(after.receipts, KeyFor(e, subscribers[stop]), troubles(stop)))
    && Passed(before, e, subscribers, troubles, stop)
  }

  lemma StoppedAt(before: Inbox, after: Inbox, e: Event, subscribers: seq<Subscriber>, troubles: nat -> Trouble, i: nat)
    requires i < |subscribers| && after == Serve(before, e, subscribers[..i])
    requires Stops(after.receipts, KeyFor(e, subscribers[i]), troubles(i))
    requires Passed(before, e, subscribers, troubles, i)
    ensures Consumed(before, after, e, subscribers, troubles, Err(i))
  {
    hide Serve, Stops, Passed, KeyFor;
  }

  lemma AllConsumed(
    before: Inbox, after: Inbox, e: Event, subscribers: seq<Subscriber>, troubles: nat -> Trouble, processed: nat)
    requires Progress(before, after, e, subscribers, troubles, |subscribers|, processed)
    ensures Consumed(before, after, e, subscribers, troubles, Ok(processed))
  {
    hide Serve, Stops, Passed, KeyFor, KeysOf;
    WholePrefix(subscribers);
  }

  /** The inbox and handler tables of one database, as one delivery at a time sees them. */
  class EventConsumer {
    var receipts: set<Key>
    var effects: multiset<Key>

    ghost function Contents(): Inbox
      reads this
    {
      Inbox(receipts, effects, map[])
    }

    constructor ()
      ensures Contents() == Inbox({}, multiset{}, map[])
    {
      receipts, effects := {}, multiset{};
    }

    /** Serve the subscribers in turn; stop at the first error, keeping what was committed before it. */
    method Consume(event: Event, subscribers: seq<Subscriber>, troubles: nat -> Trouble) returns (r: Result<nat, nat>)
      modifies this
      ensures Consumed(old(Contents()), Contents(), event, subscribers, troubles, r)
    {
      hide KeyFor, Progress, Consumed;
      ghost var before := Contents();
      var processed, i := 0, 0;
      NoProgress(before, event, subscribers, troubles);
      while i < |subscribers|
        invariant 0 <= i <= |subscribers| && 0 <= processed
        invariant Progress(before, Contents(), event, subscribers, troubles, i, processed)
      {
        var k := KeyFor(event, subscribers[i]);
        Advance(before, Contents(), event, subscribers, troubles, i, processed);
        if troubles(i).Denied? {
          return Err(i);
        }
        var claimed := k !in receipts;
        if claimed {
          if troubles(i).Broken? {
            return Err(i);
          }
          receipts := receipts + {k};
          effects := effects + multiset{k};
          processed := processed + 1;
        }
        i := i + 1;
      }
      AllConsumed(before, Contents(), event, subscribers, troubles, processed);
      r := Ok(processed);
    }
  }

  /** The first i subscribers have been served, none of them stopped the delivery, and the new receipts are counted. */
  ghost predicate Progress(
    before: Inbox, now: Inbox, e: Event, subscribers: seq<Subscriber>, troubles: nat -> Trouble, i: nat, processed: nat)
    requires i <= |subscribers|
  {
    && now == Serve(before, e, subscribers[..i]) && Passed(before, e, subscribers, troubles, i)
    && processed == |KeysOf(e, subscribers[..i]) - before.receipts|
  }

  lemma NoProgress(before: Inbox, e: Event, subscribers: seq<Subscriber>, troubles: nat -> Trouble)
    ensures Progress(before, before, e, subscribers, troubles, 0, 0)
  {
    NothingServed(before, e, subscribers, troubles);
    hide Serve, KeysOf, Passed;
  }

  /** What the next subscriber's turn comes to. */
  lemma Advance(
    before: Inbox, now: Inbox, e: Event, subscribers: seq<Subscriber>, troubles: nat -> Trouble, i: nat, processed: nat)
    requires i < |subscribers| && Progress(before, now, e, subscribers, troubles, i, processed)
    ensures
      var k := KeyFor(e, subscribers[i]);
      if troubles(i).Denied? || (k !in now.receipts && troubles(i).Broken?)
      then Consumed(before, now, e, subscribers, troubles, Err(i))
      else if k in now.receipts then Progress(before, now, e, subscribers, troubles, i + 1, processed)
      else Progress(before, Inbox(now.receipts + {k}, now.effects + multiset{k}, now.deliveries),
                    e, subscribers, troubles, i + 1, processed + 1)
  {
    hide KeysOf, KeyFor, Serve, Passed, Stops, Consumed;
    var k := KeyFor(e, subscribers[i]);
    StopsFacts(now.receipts, k, troubles(i));
    if Stops(now.receipts, k, troubles(i)) {
      StoppedAt(before, now, e, subscribers, troubles, i);
    } else {
      ServedOneMore(before, now, e, subscribers, i);
      CountOneMore(before, e, subscribers, i);
      PassedOneMore(before, e, subscribers, troubles, i);
    }
  }

  lemma NothingServed(inbox: Inbox, e: Event, subscribers: seq<Subscriber>, troubles: nat -> Trouble)
    ensures Serve(inbox, e, subscribers[..0]) == inbox && Passed(inbox, e, subscribers, troubles, 0)
    ensures |KeysOf(e, subscribers[..0]) - inbox.receipts| == 0
  {
    assert KeysOf(e, subscribers[..0]) == {};
    assert inbox.receipts + {} == inbox.receipts;
  }

  lemma CountOneMore(inbox: Inbox, e: Event, subscribers: seq<Subscriber>, n: nat)
    requires n < |subscribers|
    ensures
      var k := KeyFor(e, subscribers[n]);
      |KeysOf(e, subscribers[..n + 1]) - inbox.receipts| == |KeysOf(e, subscribers[..n]) - inbox.receipts|
        + if k in Serve(inbox, e, subscribers[..n]).receipts then 0 else 1
  {
    var k, before, receipts := KeyFor(e, subscribers[n]), KeysOf(e, subscribers[..n]), inbox.receipts;
    KeysOneMore(e, subscribers, n);
    hide KeysOf, KeyFor;
    if k in receipts + before {
      assert before + {k} - receipts == before - receipts;
    } else {
      assert before + {k} - receipts == (before - receipts) + {k};
    }
  }

  // ---- Any outbox message can still be delivered ----

  function TurnSteps(d: DeliveryId, n: nat): seq<Step> {
    if n == 0 then [] else TurnSteps(d, n - 1) + [Claim(d)] + [Handle(d)] + [CommitSubscriber(d)]
  }

  lemma RunOneMore(s: State, steps: seq<Step>, step: Step)
    ensures Run(s, steps + [step]) == Next(Run(s, steps), step)
  {
    assert (steps + [step])[..|steps|] == steps;
  }

  /** A delivery serving e in state s, with i subscribers done and none in progress. */
  function ServingAt(
    s: State, d: DeliveryId, inbox: Inbox, m: nat, subscribers: seq<Subscriber>, owed: set<Subscriber>, i: nat): State
  {
    s.(inbox := inbox.(deliveries := map[d := Delivery(m, Serving(subscribers, owed, i, Transaction(false, false)))]))
  }

  lemma SkipSubscriber(
    s: State, d: DeliveryId, inbox: Inbox, m: nat, subscribers: seq<Subscriber>, owed: set<Subscriber>, i: nat)
    requires m < |s.publication.stream| && i < |subscribers|
    requires KeyFor(s.publication.stream[m].event, subscribers[i]) in inbox.receipts
    ensures
      var before := ServingAt(s, d, inbox, m, subscribers, owed, i);
      Next(Next(Next(before, Claim(d)), Handle(d)), CommitSubscriber(d)) ==
        ServingAt(s, d, inbox, m, subscribers, owed, i + 1)
  {
    hide OutboxPublication.Next, AfterCheck, AfterAdmit, AfterAck, AfterCommit, KeyFor;
    var before, after := ServingAt(s, d, inbox, m, subscribers, owed, i),
      ServingAt(s, d, inbox, m, subscribers, owed, i + 1);
    assert CurrentKey(before, d) == KeyFor(s.publication.stream[m].event, subscribers[i]);
    assert Next(before, Claim(d)) == after;
    assert Next(after, Handle(d)) == after;
  }

  lemma ServeSubscriber(
    s: State, d: DeliveryId, inbox: Inbox, m: nat, subscribers: seq<Subscriber>, owed: set<Subscriber>, i: nat)
    requires m < |s.publication.stream| && i < |subscribers|
    requires KeyFor(s.publication.stream[m].event, subscribers[i]) !in inbox.receipts
    ensures
      var before := ServingAt(s, d, inbox, m, subscribers, owed, i);
      var k := KeyFor(s.publication.stream[m].event, subscribers[i]);
      Next(Next(Next(before, Claim(d)), Handle(d)), CommitSubscriber(d)) ==
        ServingAt(s, d, inbox.(receipts := inbox.receipts + {k}, effects := inbox.effects + multiset{k}),
                  m, subscribers, owed, i + 1)
  {
    hide OutboxPublication.Next, AfterCheck, AfterAdmit, AfterAck, KeyFor;
    var before := ServingAt(s, d, inbox, m, subscribers, owed, i);
    assert CurrentKey(before, d) == KeyFor(s.publication.stream[m].event, subscribers[i]);
    assert forall c, k :: !Claims(before, c, k);
    var claimed := Next(before, Claim(d));
    assert MayHandle(claimed, d);
    var handled := Next(claimed, Handle(d));
    hide Claims, AfterClaim;
    assert MayCommit(handled, d);
    assert CurrentKey(handled, d) == CurrentKey(before, d);
  }

  /** Undisturbed, a delivery that has begun serves its first n subscribers and leaves what Serve says. */
  lemma {:induction false} TurnsServe(
    s: State, d: DeliveryId, inbox: Inbox, m: nat, subscribers: seq<Subscriber>, owed: set<Subscriber>, n: nat)
    requires m < |s.publication.stream| && n <= |subscribers|
    ensures
      Run(ServingAt(s, d, inbox, m, subscribers, owed, 0), TurnSteps(d, n)) ==
        ServingAt(s, d, Serve(inbox, s.publication.stream[m].event, subscribers[..n]), m, subscribers, owed, n)
    decreases n
  {
    hide Next, Run, Serve, ServingAt;
    var start, e := ServingAt(s, d, inbox, m, subscribers, owed, 0), s.publication.stream[m].event;
    if n == 0 {
      NothingServed(inbox, e, subscribers, (i: nat) => Smooth);
      RunOfNothing(start);
    } else {
      var before := Serve(inbox, e, subscribers[..n - 1]);
      TurnsServe(s, d, inbox, m, subscribers, owed, n - 1);
      RunOneMore(start, TurnSteps(d, n - 1), Claim(d));
      RunOneMore(start, TurnSteps(d, n - 1) + [Claim(d)], Handle(d));
      RunOneMore(start, TurnSteps(d, n - 1) + [Claim(d)] + [Handle(d)], CommitSubscriber(d));
      ServeOneMore(inbox, e, subscribers, n - 1);
      if KeyFor(e, subscribers[n - 1]) in before.receipts {
        SkipSubscriber(s, d, before, m, subscribers, owed, n - 1);
        SameServing(s, d, before, Serve(inbox, e, subscribers[..n]), m, subscribers, owed, n);
      } else {
        ServeSubscriber(s, d, before, m, subscribers, owed, n - 1);
      }
    }
  }

  lemma SameServing(
    s: State, d: DeliveryId, a: Inbox, b: Inbox, m: nat, subscribers: seq<Subscriber>, owed: set<Subscriber>, i: nat)
    requires b.receipts == a.receipts && b.effects == a.effects
    ensures ServingAt(s, d, a, m, subscribers, owed, i) == ServingAt(s, d, b, m, subscribers, owed, i)
  {
  }

  lemma {:induction false} RunConcat(s: State, a: seq<Step>, b: seq<Step>)
    ensures Run(s, a + b) == Run(Run(s, a), b)
    decreases |b|
  {
    hide Next;
    if b == [] {
      assert a + b == a;
    } else {
      RunConcat(s, a, b[..|b| - 1]);
      assert (a + b)[..|a + b| - 1] == a + b[..|b| - 1];
    }
  }

  /** From delivery to acknowledgement without trouble. */
  function WholeDelivery(d: DeliveryId, m: nat, n: nat): seq<Step> {
    [Deliver(d, m), Check(d, true), Admit(d)] + TurnSteps(d, n) + [Ack(d)]
  }

  /** The broker keeps sending a message until it is acknowledged or ended. */
  predicate StillSent(m: Message) {
    m.acked.None? && m.terminated.None?
  }

  /** Every open delivery fails. */
  function Fails(open: seq<DeliveryId>): seq<Step> {
    if open == [] then [] else Fails(open[..|open| - 1]) + [Fail(open[|open| - 1])]
  }

  lemma {:induction false} FailsDrop(s: State, open: seq<DeliveryId>)
    ensures Run(s, Fails(open)) == s.(inbox := s.inbox.(deliveries := s.inbox.deliveries - Members(open)))
    decreases |open|
  {
    if open == [] {
      RunOfNothing(s);
    } else {
      var init, last := open[..|open| - 1], open[|open| - 1];
      FailsDrop(s, init);
      RunOneMore(s, Fails(init), Fail(last));
      hide Run;
      assert open == init + [last];
      assert Members(open) == Members(init) + {last};
    }
  }

  /** The end of every open delivery, then one of this message without trouble. */
  function FreshDelivery(s: State, d: DeliveryId, m: nat, n: nat): seq<Step> {
    Fails(Ascending(s.inbox.deliveries.Keys)) + WholeDelivery(d, m, n)
  }

  /** The obligated subscribers of an acknowledged message have been served once each, and nobody else was. */
  ghost predicate ServedAndAcknowledged(s: State, n: State, m: nat, obligated: set<Subscriber>)
    requires m < |s.publication.stream|
  {
    var e := s.publication.stream[m].event;
    && m < |n.publication.stream| && n.publication.stream[m].acked == Some(obligated)
    && (forall sub :: sub in obligated ==> n.inbox.effects[KeyFor(e, sub)] == 1)
    && (forall k :: k !in KeysOf(e, Ascending(obligated)) ==> n.inbox.effects[k] == s.inbox.effects[k])
  }

  /**
   Whatever crashed or is under way, an outbox message the broker still sends and
   whose payload decodes can be served: once everyone obligated is active, the failure
   of the open deliveries and one more delivery serve them all and acknowledge it.
   */
  lemma OutboxMessageCanBeServed(s: State, d: DeliveryId, m: nat)
    requires Inv(s) && m < |s.publication.stream|
    requires s.publication.stream[m].origin.FromOutbox? && StillSent(s.publication.stream[m])
    requires Obligated(s.registrations, s.publication.stream[m].event.typeName)
      <= Active(s.registrations, s.publication.stream[m].event.typeName)
    ensures
      var obligated := Obligated(s.registrations, s.publication.stream[m].event.typeName);
      ServedAndAcknowledged(s, Run(s, FreshDelivery(s, d, m, |obligated|)), m, obligated)
  {
    hide Inv, Next, Run, Obligated, Active;
    var obligated := Obligated(s.registrations, s.publication.stream[m].event.typeName);
    var open := Ascending(s.inbox.deliveries.Keys);
    var quiet := Run(s, Fails(open));
    FailsDrop(s, open);
    RunKeepsInv(s, Fails(open));
    RunConcat(s, Fails(open), WholeDelivery(d, m, |obligated|));
    assert quiet.inbox.deliveries == map[];
    hide Fails, WholeDelivery;
    QuietDeliveryServes(quiet, d, m);
  }

  lemma QuietDeliveryServes(s: State, d: DeliveryId, m: nat)
    requires Inv(s) && s.inbox.deliveries == map[]
    requires m < |s.publication.stream|
    requires s.publication.stream[m].origin.FromOutbox? && StillSent(s.publication.stream[m])
    requires Obligated(s.registrations, s.publication.stream[m].event.typeName)
      <= Active(s.registrations, s.publication.stream[m].event.typeName)
    ensures
      var obligated := Obligated(s.registrations, s.publication.stream[m].event.typeName);
      ServedAndAcknowledged(s, Run(s, WholeDelivery(d, m, |obligated|)), m, obligated)
  {
    var e := s.publication.stream[m].event;
    var obligated := Obligated(s.registrations, e.typeName);
    var subs := Ascending(obligated);
    hide Next, Run, TurnSteps, Inv, Ascending, Obligated, Active, KeyFor, Serve, ServingAt, KeysOf;
    var opening := [Deliver(d, m), Check(d, true), Admit(d)];
    var n := |obligated|;
    OpeningAdmits(s, d, m);
    TurnsServe(s, d, s.inbox, m, subs, obligated, n);
    WholePrefix(subs);
    var served := ServingAt(s, d, Serve(s.inbox, e, subs), m, subs, obligated, n);
    RunConcat(s, opening, TurnSteps(d, n));
    RunOneMore(s, opening + TurnSteps(d, n), Ack(d));
    ServedMayAck(s, d, Serve(s.inbox, e, subs), m, subs, obligated);
    AckFacts(served, d);
    WholeDeliveryIs(d, m, n);
    RunKeepsInv(s, WholeDelivery(d, m, n));
    InvEffects(Run(s, WholeDelivery(d, m, n)));
    ServeFacts(s.inbox, e, subs);
  }

  lemma WholeDeliveryIs(d: DeliveryId, m: nat, n: nat)
    ensures WholeDelivery(d, m, n) == [Deliver(d, m), Check(d, true), Admit(d)] + TurnSteps(d, n) + [Ack(d)]
  {
  }

  lemma ServedMayAck(s: State, d: DeliveryId, inbox: Inbox, m: nat, subscribers: seq<Subscriber>, owed: set<Subscriber>)
    requires m < |s.publication.stream|
    ensures
      var served := ServingAt(s, d, inbox, m, subscribers, owed, |subscribers|);
      && MayAck(served, d) && served.publication == s.publication
      && served.inbox.receipts == inbox.receipts && served.inbox.effects == inbox.effects
      && served.inbox.deliveries[d].message == m && served.inbox.deliveries[d].stage.owed == owed
  {
  }

  lemma ServeFacts(inbox: Inbox, e: Event, subscribers: seq<Subscriber>)
    ensures
      var after := Serve(inbox, e, subscribers);
      && (forall sub :: sub in subscribers ==> KeyFor(e, sub) in after.receipts)
      && (forall k :: k !in KeysOf(e, subscribers) ==> after.effects[k] == inbox.effects[k])
  {
  }

  lemma InvEffects(s: State)
    requires Inv(s)
    ensures forall k :: s.inbox.effects[k] == if k in s.inbox.receipts then 1 else 0
  {
  }

  lemma AckFacts(s: State, d: DeliveryId)
    requires MayAck(s, d)
    ensures
      var n, v := Next(s, Ack(d)), s.inbox.deliveries[d];
      && |n.publication.stream| == |s.publication.stream| && n.publication.stream[v.message].acked == Some(v.stage.owed)
      && n.inbox.receipts == s.inbox.receipts && n.inbox.effects == s.inbox.effects
  {
  }

  lemma OpeningAdmits(s: State, d: DeliveryId, m: nat)
    requires OutboxPublication.Inv(s.publication) && s.inbox.deliveries == map[]
    requires m < |s.publication.stream| && s.publication.stream[m].origin.FromOutbox?
    requires Obligated(s.registrations, s.publication.stream[m].event.typeName)
      <= Active(s.registrations, s.publication.stream[m].event.typeName)
    ensures
      var obligated := Obligated(s.registrations, s.publication.stream[m].event.typeName);
      Run(s, [Deliver(d, m), Check(d, true), Admit(d)]) ==
        ServingAt(s, d, s.inbox, m, Ascending(obligated), obligated, 0)
  {
    hide OutboxPublication.Next, Obligated, Active, AfterCheck, AfterAdmit, Run;
    var t := s.publication.stream[m].event.typeName;
    assert Genuine(s.publication.outbox, s.publication.stream[m].event);
    var delivered := Next(s, Deliver(d, m));
    var verified := SetStage(delivered, d, Verified);
    CheckPasses(delivered, d);
    AdmitPasses(verified, d);
    RunThree(s, Deliver(d, m), Check(d, true), Admit(d));
    ActiveIsObligated(s.registrations, t);
  }

  lemma ActiveIsObligated(r: Registrations, t: TypeName)
    requires Obligated(r, t) <= Active(r, t)
    ensures Active(r, t) == Obligated(r, t)
  {
  }

  lemma CheckPasses(s: State, d: DeliveryId)
    requires InStage(s, d) && s.inbox.deliveries[d].stage.Checking? && Genuine(s.publication.outbox, EventOf(s, d))
    ensures Next(s, Check(d, true)) == SetStage(s, d, Verified)
  {
  }

  lemma AdmitPasses(s: State, d: DeliveryId)
    requires InStage(s, d) && s.inbox.deliveries[d].stage.Verified?
    requires Obligated(s.registrations, EventOf(s, d).typeName) <= Active(s.registrations, EventOf(s, d).typeName)
    ensures
      Next(s, Admit(d)) ==
        SetStage(s, d, Serving(Ascending(Active(s.registrations, EventOf(s, d).typeName)),
                               Obligated(s.registrations, EventOf(s, d).typeName), 0, Transaction(false, false)))
  {
    hide Obligated, Active, SetStage, Drop, InStage, EventOf, Ascending;
    AdmitIs(s, d);
  }

  lemma AdmitIs(s: State, d: DeliveryId)
    requires InStage(s, d) && s.inbox.deliveries[d].stage.Verified?
    ensures Next(s, Admit(d)) == AfterAdmit(s, d)
  {
    hide AfterAdmit, OutboxPublication.Next;
  }

  lemma RunThree(s: State, a: Step, b: Step, c: Step)
    ensures Run(s, [a, b, c]) == Next(Next(Next(s, a), b), c)
  {
    hide Next;
    RunOneMore(s, [], a);
    RunOneMore(s, [a], b);
    RunOneMore(s, [a, b], c);
    assert [] + [a] == [a] && [a] + [b] == [a, b] && [a, b] + [c] == [a, b, c];
  }
}
