/**
 The dependency container's singletons: owners that retain what they depend on,
 the order in which they are published, the validation of everything an owner
 reaches, and teardown in reverse publication order. The order is topological
 because an owner retains its dependencies before it is published, and stays so
 when a generation is removed; so closing in reverse order finishes each dependent
 before anything it builds on. Whether a waiter may block on an initialiser is
 decided by the wait graph.
 */
module SingletonOrder {
  import opened Wrappers
  import opened Collections
  import opened Paths
  import Search = WaitGraph

  type Key = nat
  type OwnerId = Node
  type RegistrationId = nat

  /** A retained dependency: the registration it was resolved under and, for an owned resource, its owner. */
  datatype Reference = Reference(key: Key, registration: RegistrationId, owner: Option<OwnerId>)

  /** early counts the dependencies retained before publication; stamp is when the owner was published. */
  datatype Owner = Owner(
    key: Key,
    registration: RegistrationId,
    singleton: bool,          // false for a transient, or for an owner of one request
    published: bool,
    failed: bool,             // an owner of one request that ended by itself after publication
    finalizing: bool,
    finished: bool,
    dependencies: seq<Reference>,
    early: nat,
    stamp: nat)

  type Owners = map<OwnerId, Owner>

  datatype State = State(
    registrations: map<Key, RegistrationId>,
    inactive: set<RegistrationId>,        // registrations whose module generation is not active
    owners: Owners,
    singletons: map<Key, OwnerId>,
    order: seq<Key>,
    closed: bool,
    clock: nat,
    nextRegistration: RegistrationId)

  datatype Step =
    | Register(key: Key)
    | Unregister(key: Key)
    | SetInactive(registrations: set<RegistrationId>)
    | Start(o: OwnerId, key: Key, singleton: bool)
    | Retain(o: OwnerId, reference: Reference)
    | Publish(o: OwnerId)
    | Fail(o: OwnerId)
    | FailLate(o: OwnerId)
    | RequestClose(o: OwnerId)
    | Finalized(o: OwnerId)
    | Remove(key: Key)          // after its owner was drained
    | Shut

  function Init(): State {
    State(map[], {}, map[], map[], [], false, 0, 0)
  }

  // ---- Validity of an owner and of all it reaches ----

  predicate RegistrationOk(s: State, key: Key, registration: RegistrationId) {
    !s.closed && key in s.registrations && s.registrations[key] == registration && registration !in s.inactive
  }

  /** What the check asks of one owner and of the registrations it names. */
  predicate OwnerOk(s: State, o: OwnerId, requirePublished: bool) {
    && o in s.owners
    && RegistrationOk(s, s.owners[o].key, s.owners[o].registration)
    && !s.owners[o].failed && !s.owners[o].finalizing && (requirePublished ==> s.owners[o].published)
    && forall r :: r in s.owners[o].dependencies ==> RegistrationOk(s, r.key, r.registration)
  }

  predicate DependsOn(owners: Owners, o: OwnerId, d: OwnerId) {
    o in owners && exists i :: 0 <= i < |owners[o].dependencies| && owners[o].dependencies[i].owner == Some(d)
  }

  function TargetsOf(references: seq<Reference>): (targets: set<OwnerId>)
    ensures forall d :: d in targets <==> exists i :: 0 <= i < |references| && references[i].owner == Some(d)
  {
    set i | 0 <= i < |references| && references[i].owner.Some? :: references[i].owner.value
  }

  function DependencyEdges(owners: Owners): (edges: set<Edge>)
    ensures forall o: OwnerId, d: OwnerId :: (o, d) in edges <==> DependsOn(owners, o, d)
  {
    set o, d | o in owners && d in TargetsOf(owners[o].dependencies) :: (o, d)
  }

  /** Every owner reached is valid; only the root may still be unpublished. */
  ghost predicate GraphOk(s: State, root: OwnerId, requirePublished: bool) {
    forall o :: Reaches(DependencyEdges(s.owners), root, o) ==> OwnerOk(s, o, o != root || requirePublished)
  }

  // ---- The steps ----

  /** Starting, not yet published or failed. */
  predicate Running(s: State, o: OwnerId) {
    o in s.owners && !s.owners[o].published && !s.owners[o].finished
  }

  /** Another initializer of this key is in flight under its present registration. */
  predicate InFlight(s: State, key: Key) {
    exists o :: o in s.owners && Running(s, o) && s.owners[o].singleton && s.owners[o].key == key
      && key in s.registrations && s.owners[o].registration == s.registrations[key]
  }

  predicate MayStart(s: State, o: OwnerId, key: Key, singleton: bool) {
    && o !in s.owners && key in s.registrations && RegistrationOk(s, key, s.registrations[key])
    && (singleton ==> key !in s.singletons && !InFlight(s, key))
  }

  ghost predicate MayRetain(s: State, o: OwnerId, r: Reference) {
    && o in s.owners && !s.owners[o].finished
    && (r.owner.Some? ==>
          r.owner.value != o && r.owner.value in s.owners && GraphOk(s, r.owner.value, true)
          && r.key == s.owners[r.owner.value].key && r.registration == s.owners[r.owner.value].registration)
  }

  function SetOwner(s: State, o: OwnerId, owner: Owner): State {
    s.(owners := s.owners[o := owner])
  }

  function AfterPublish(s: State, o: OwnerId): State
    requires o in s.owners
  {
    var owner := s.owners[o];
    var published := owner.(published := true, early := |owner.dependencies|, stamp := s.clock);
    var n := SetOwner(s, o, published).(clock := s.clock + 1);
    if owner.singleton then n.(singletons := n.singletons[owner.key := o], order := n.order + [owner.key]) else n
  }

  function Without(order: seq<Key>, key: Key): (r: seq<Key>)
    ensures |r| <= |order|
    ensures forall k :: k in r ==> k in order
  {
    if order == [] then [] else if order[0] == key then order[1..] else [order[0]] + Without(order[1..], key)
  }

  ghost function Next(s: State, step: Step): State {
    match step
    case Register(key) =>
      if s.closed || key in s.registrations then s
      else s.(registrations := s.registrations[key := s.nextRegistration], nextRegistration := s.nextRegistration + 1)
    case Unregister(key) => s.(registrations := s.registrations - {key})
    case SetInactive(registrations) => s.(inactive := registrations)
    case Start(o, key, singleton) =>
      if MayStart(s, o, key, singleton)
      then SetOwner(s, o, Owner(key, s.registrations[key], singleton, false, false, false, false, [], 0, 0)) else s
    case Retain(o, r) =>
      if MayRetain(s, o, r) && r !in s.owners[o].dependencies
      then SetOwner(s, o, s.owners[o].(dependencies := s.owners[o].dependencies + [r])) else s
    case Publish(o) => if Running(s, o) && GraphOk(s, o, false) then AfterPublish(s, o) else s
    case Fail(o) => if Running(s, o) then SetOwner(s, o, s.owners[o].(finalizing := true, finished := true)) else s
    case FailLate(o) =>
      if o in s.owners && s.owners[o].published && !s.owners[o].singleton
      then SetOwner(s, o, s.owners[o].(failed := true)) else s
    case RequestClose(o) =>
      if o in s.owners && s.owners[o].published then SetOwner(s, o, s.owners[o].(finalizing := true)) else s
    case Finalized(o) =>
      if o in s.owners && s.owners[o].finalizing then SetOwner(s, o, s.owners[o].(finished := true)) else s
    case Remove(key) =>
      if key in s.singletons then s.(singletons := s.singletons - {key}, order := Without(s.order, key)) else s
    case Shut => s.(closed := true)
  }

  ghost function Run(s: State, steps: seq<Step>): State
    decreases |steps|
  {
    if steps == [] then s else Run(Next(s, steps[0]), steps[1..])
  }

  // ---- What every reachable state keeps ----

  ghost predicate OwnersAreTrue(s: State) {
    forall o :: o in s.owners ==>
      var owner := s.owners[o];
      && owner.registration < s.nextRegistration
      && (owner.published ==> owner.stamp < s.clock && owner.early <= |owner.dependencies|)
      && (!owner.published ==> owner.early == 0)
  }

  /** Whatever an unpublished owner retained, and a published one retained before, was published before it. */
  ghost predicate DependenciesComeFirst(s: State) {
    forall o, i :: o in s.owners && 0 <= i < |s.owners[o].dependencies| ==> ReferenceComesFirst(s, o, i)
  }

  ghost predicate ReferenceComesFirst(s: State, o: OwnerId, i: nat)
    requires o in s.owners && i < |s.owners[o].dependencies|
  {
    var r := s.owners[o].dependencies[i];
    r.owner.Some? ==>
      && r.owner.value in s.owners && s.owners[r.owner.value].published
      && (s.owners[o].published && i < s.owners[o].early ==> s.owners[r.owner.value].stamp < s.owners[o].stamp)
  }

  ghost predicate SingletonsAreTrue(s: State) {
    && (forall key :: key in s.singletons ==>
          s.singletons[key] in s.owners
          && s.owners[s.singletons[key]].key == key && s.owners[s.singletons[key]].singleton
          && s.owners[s.singletons[key]].published)
    && (forall key :: key in s.order <==> key in s.singletons)
    && (forall key :: key in s.registrations ==> s.registrations[key] < s.nextRegistration)
  }

  /** When each published singleton was published. */
  function Stamps(s: State): map<Key, nat> {
    map key | key in s.singletons && s.singletons[key] in s.owners :: s.owners[s.singletons[key]].stamp
  }

  predicate Ordered(order: seq<Key>, stamps: map<Key, nat>) {
    && (forall key :: key in order ==> key in stamps)
    && (forall i, j :: 0 <= i < j < |order| ==>
          order[i] in order && order[j] in order && stamps[order[i]] < stamps[order[j]])
  }

  /** The order lists the published singletons by publication time. */
  ghost predicate OrderIsByStamp(s: State) {
    Ordered(s.order, Stamps(s))
  }

  /** One initializer at a time for the present registration of a key, and none while the key is published. */
  ghost predicate InitializersAreSingle(s: State) {
    forall o :: Initializing(s, o) ==>
      && s.owners[o].key !in s.singletons
      && forall p :: Initializing(s, p) && s.owners[p].key == s.owners[o].key ==> p == o
  }

  predicate Initializing(s: State, o: OwnerId) {
    && Running(s, o) && s.owners[o].singleton
    && s.owners[o].key in s.registrations && s.registrations[s.owners[o].key] == s.owners[o].registration
  }

  ghost predicate Inv(s: State) {
    && OwnersAreTrue(s) && DependenciesComeFirst(s) && SingletonsAreTrue(s) && OrderIsByStamp(s)
    && InitializersAreSingle(s)
  }

  lemma GraphOkIncludesRoot(s: State, root: OwnerId, requirePublished: bool)
    requires GraphOk(s, root, requirePublished)
    ensures OwnerOk(s, root, requirePublished)
  {
    SelfReaches(DependencyEdges(s.owners), root);
  }

  /** Nothing published, stamped or ordered differs; owners may be added or marked. */
  ghost predicate SamePublications(s: State, n: State) {
    && n.singletons == s.singletons && n.order == s.order && n.clock == s.clock
    && (forall o :: o in s.owners ==> o in n.owners && SameOwner(s.owners[o], n.owners[o]))
  }

  /** Changes to one owner that keep its identity, its stamp and its early dependencies. */
  ghost predicate SameOwner(a: Owner, b: Owner) {
    && b.key == a.key && b.registration == a.registration && b.singleton == a.singleton && b.published == a.published
    && b.early == a.early && b.stamp == a.stamp && (a.finished ==> b.finished) && a.dependencies <= b.dependencies
  }

  lemma SameOrder(s: State, n: State)
    requires SamePublications(s, n) && SingletonsAreTrue(s) && OrderIsByStamp(s)
    ensures OrderIsByStamp(n)
  {
    hide Ordered;
    assert Stamps(n) == Stamps(s);
  }

  lemma SameSingletons(s: State, n: State)
    requires SamePublications(s, n) && SingletonsAreTrue(s)
    requires forall key :: key in n.registrations ==> n.registrations[key] < n.nextRegistration
    ensures SingletonsAreTrue(n)
  {
  }

  /** No initializer was added. */
  lemma SameInitializers(s: State, n: State)
    requires InitializersAreSingle(s) && n.singletons.Keys <= s.singletons.Keys
    requires forall o :: Initializing(n, o) ==> Initializing(s, o) && n.owners[o].key == s.owners[o].key
    ensures InitializersAreSingle(n)
  {
    hide Initializing;
  }

  lemma SameReferences(s: State, n: State)
    requires SamePublications(s, n) && DependenciesComeFirst(s) && OwnersAreTrue(s)
    requires forall o :: o in n.owners ==>
      if o in s.owners then n.owners[o].dependencies == s.owners[o].dependencies else n.owners[o].dependencies == []
    ensures DependenciesComeFirst(n)
  {
    forall o, i | o in n.owners && 0 <= i < |n.owners[o].dependencies| ensures ReferenceComesFirst(n, o, i) {
      assert ReferenceComesFirst(s, o, i);
    }
  }

  predicate OfRegistry(step: Step) {
    step.Register? || step.Unregister? || step.SetInactive? || step.Shut?
  }

  lemma RegistryFacts(s: State, step: Step)
    requires OfRegistry(step)
    ensures
      var n := Next(s, step);
      && n.owners == s.owners && n.singletons == s.singletons && n.order == s.order && n.clock == s.clock
      && s.nextRegistration <= n.nextRegistration
      && forall key :: key in n.registrations ==>
           if key in s.registrations then n.registrations[key] == s.registrations[key]
           else n.registrations[key] == s.nextRegistration < n.nextRegistration
  {
  }

  lemma RegistryStepKeepsInv(s: State, step: Step)
    requires Inv(s) && OfRegistry(step)
    ensures Inv(Next(s, step))
  {
    hide Next, OrderIsByStamp, DependenciesComeFirst, InitializersAreSingle, SamePublications;
    var n := Next(s, step);
    RegistryFacts(s, step);
    assert forall o :: Initializing(n, o) ==> Initializing(s, o);
    SameInitializers(s, n);
    assert SamePublications(s, n) by { ReflexivePublications(s, n); }
    SameOrder(s, n);
    SameSingletons(s, n);
    SameReferences(s, n);
    hide *;
  }

  lemma ReflexivePublications(s: State, n: State)
    requires n.owners == s.owners && n.singletons == s.singletons && n.order == s.order && n.clock == s.clock
    ensures SamePublications(s, n)
  {
  }

  lemma StartFacts(s: State, o: OwnerId, key: Key, singleton: bool)
    requires MayStart(s, o, key, singleton)
    ensures
      var n := Next(s, Start(o, key, singleton));
      && n == SetOwner(s, o, Owner(key, s.registrations[key], singleton, false, false, false, false, [], 0, 0))
      && SamePublications(s, n) && o !in s.owners
      && (forall p :: Initializing(n, p) ==>
            (Initializing(s, p) && p != o && n.owners[p] == s.owners[p]) || (p == o && singleton))
  {
  }

  lemma StartKeepsInv(s: State, o: OwnerId, key: Key, singleton: bool)
    requires Inv(s) && MayStart(s, o, key, singleton)
    ensures Inv(Next(s, Start(o, key, singleton)))
  {
    hide Next, OrderIsByStamp, DependenciesComeFirst, SamePublications;
    var n := Next(s, Start(o, key, singleton));
    StartFacts(s, o, key, singleton);
    StartKeepsInitializers(s, o, key, singleton);
    hide MayStart, Initializing, InitializersAreSingle;
    SameOrder(s, n);
    SameSingletons(s, n);
    SameReferences(s, n);
  }

  lemma StartKeepsInitializers(s: State, o: OwnerId, key: Key, singleton: bool)
    requires InitializersAreSingle(s) && MayStart(s, o, key, singleton)
    ensures InitializersAreSingle(Next(s, Start(o, key, singleton)))
  {
    var n := Next(s, Start(o, key, singleton));
    StartFacts(s, o, key, singleton);
    hide Next, SamePublications;
    if singleton {
      assert forall p :: Initializing(s, p) ==> s.owners[p].key != key;
    }
    hide Initializing, MayStart;
  }

  lemma OwnerStepKeepsInv(s: State, o: OwnerId, owner: Owner)
    requires Inv(s) && o in s.owners && SameOwner(s.owners[o], owner)
    requires forall i :: |s.owners[o].dependencies| <= i < |owner.dependencies| && owner.dependencies[i].owner.Some? ==>
      owner.dependencies[i].owner.value in s.owners && s.owners[owner.dependencies[i].owner.value].published
    ensures Inv(SetOwner(s, o, owner))
  {
    hide OrderIsByStamp, DependenciesComeFirst, InitializersAreSingle, SamePublications;
    var n := SetOwner(s, o, owner);
    OwnerStepKeepsReferences(s, o, owner);
    OwnerStepFacts(s, o, owner);
    SameInitializers(s, n);
    hide Initializing;
    SameOrder(s, n);
    SameSingletons(s, n);
  }

  lemma OwnerStepFacts(s: State, o: OwnerId, owner: Owner)
    requires o in s.owners && SameOwner(s.owners[o], owner)
    ensures SamePublications(s, SetOwner(s, o, owner))
    ensures forall p :: Initializing(SetOwner(s, o, owner), p) ==>
      Initializing(s, p) && SetOwner(s, o, owner).owners[p].key == s.owners[p].key
  {
  }

  lemma OwnerStepKeepsReferences(s: State, o: OwnerId, owner: Owner)
    requires DependenciesComeFirst(s) && OwnersAreTrue(s) && o in s.owners && SameOwner(s.owners[o], owner)
    requires forall i :: |s.owners[o].dependencies| <= i < |owner.dependencies| && owner.dependencies[i].owner.Some? ==>
      owner.dependencies[i].owner.value in s.owners && s.owners[owner.dependencies[i].owner.value].published
    ensures DependenciesComeFirst(SetOwner(s, o, owner))
  {
    var n := SetOwner(s, o, owner);
    forall p, i | p in n.owners && 0 <= i < |n.owners[p].dependencies| ensures ReferenceComesFirst(n, p, i) {
      if i < |s.owners[p].dependencies| { assert ReferenceComesFirst(s, p, i); }
    }
  }

  lemma PublishFields(s: State, o: OwnerId)
    requires Running(s, o)
    ensures
      var n, owner := AfterPublish(s, o), s.owners[o];
      && n.owners == s.owners[o := owner.(published := true, early := |owner.dependencies|, stamp := s.clock)]
      && n.clock == s.clock + 1 && n.registrations == s.registrations && n.nextRegistration == s.nextRegistration
      && n.singletons == (if owner.singleton then s.singletons[owner.key := o] else s.singletons)
      && n.order == (if owner.singleton then s.order + [owner.key] else s.order)
  {
  }

  lemma PublishKeepsInitializers(s: State, o: OwnerId)
    requires InitializersAreSingle(s) && Running(s, o) && OwnerOk(s, o, false)
    ensures InitializersAreSingle(AfterPublish(s, o))
    ensures s.owners[o].singleton ==> s.owners[o].key !in s.singletons
  {
    var n := AfterPublish(s, o);
    assert s.owners[o].singleton ==> Initializing(s, o);
    PublishFields(s, o);
    hide AfterPublish;
    assert forall p :: Initializing(n, p) ==> Initializing(s, p) && p != o && n.owners[p].key == s.owners[p].key;
    hide Initializing;
  }

  lemma PublishKeepsSingletons(s: State, o: OwnerId)
    requires OwnersAreTrue(s) && SingletonsAreTrue(s) && Running(s, o)
    ensures OwnersAreTrue(AfterPublish(s, o)) && SingletonsAreTrue(AfterPublish(s, o))
  {
    PublishFields(s, o);
    hide AfterPublish;
  }

  lemma PublishKeepsInv(s: State, o: OwnerId)
    requires Inv(s) && Running(s, o) && GraphOk(s, o, false)
    ensures Inv(AfterPublish(s, o))
  {
    hide GraphOk, OwnersAreTrue, SingletonsAreTrue, DependenciesComeFirst, OrderIsByStamp, InitializersAreSingle;
    GraphOkIncludesRoot(s, o, false);
    PublishKeepsInitializers(s, o);
    PublishKeepsSingletons(s, o);
    PublishKeepsOrder(s, o);
    PublishKeepsReferences(s, o);
  }

  lemma PublishKeepsReferences(s: State, o: OwnerId)
    requires OwnersAreTrue(s) && DependenciesComeFirst(s) && Running(s, o)
    ensures DependenciesComeFirst(AfterPublish(s, o))
  {
    var n := AfterPublish(s, o);
    assert n.owners == s.owners[o := n.owners[o]];
    assert n.owners[o].stamp == s.clock && n.owners[o].published
      && n.owners[o].dependencies == s.owners[o].dependencies;
    hide AfterPublish;
    forall p, i | p in n.owners && 0 <= i < |n.owners[p].dependencies| ensures ReferenceComesFirst(n, p, i) {
      assert ReferenceComesFirst(s, p, i);
    }
  }

  lemma PublishStamps(s: State, o: OwnerId)
    requires OwnersAreTrue(s) && SingletonsAreTrue(s) && Running(s, o)
    requires s.owners[o].singleton ==> s.owners[o].key !in s.singletons
    ensures
      var stamps := Stamps(AfterPublish(s, o));
      stamps == if s.owners[o].singleton then Stamps(s)[s.owners[o].key := s.clock] else Stamps(s)
  {
    hide AfterPublish;
    PublishFields(s, o);
  }

  lemma StampsAreBelow(s: State)
    requires OwnersAreTrue(s) && SingletonsAreTrue(s)
    ensures forall k :: k in Stamps(s) ==> k in s.singletons && Stamps(s)[k] < s.clock
  {
  }

  lemma PublishKeepsOrder(s: State, o: OwnerId)
    requires OwnersAreTrue(s) && SingletonsAreTrue(s) && OrderIsByStamp(s) && Running(s, o)
    requires s.owners[o].singleton ==> s.owners[o].key !in s.singletons
    ensures OrderIsByStamp(AfterPublish(s, o))
  {
    PublishStamps(s, o);
    StampsAreBelow(s);
    hide Ordered, AfterPublish, Stamps, OwnersAreTrue, SingletonsAreTrue;
    PublishFields(s, o);
    if s.owners[o].singleton {
      OrderedAppend(s.order, Stamps(s), s.owners[o].key, s.clock);
    }
  }

  lemma OrderedAppend(order: seq<Key>, stamps: map<Key, nat>, key: Key, clock: nat)
    requires Ordered(order, stamps) && key !in stamps && forall k :: k in stamps ==> stamps[k] < clock
    ensures Ordered(order + [key], stamps[key := clock])
  {
  }

  lemma OrderedTail(order: seq<Key>, stamps: map<Key, nat>)
    requires Ordered(order, stamps) && order != []
    ensures Ordered(order[1..], stamps)
    ensures forall k :: k in order[1..] ==> k in order && k != order[0] && stamps[order[0]] < stamps[k]
    ensures forall k :: k in order ==> k == order[0] || k in order[1..]
  {
    assert forall i :: 0 <= i < |order[1..]| ==> order[1..][i] == order[i + 1];
  }

  lemma {:induction false} WithoutKeepsOrder(order: seq<Key>, stamps: map<Key, nat>, key: Key)
    requires Ordered(order, stamps)
    ensures forall k :: k in Without(order, key) <==> k in order && k != key
    ensures Ordered(Without(order, key), stamps - {key})
    decreases |order|
  {
    if order == [] {
    } else {
      OrderedTail(order, stamps);
      WithoutKeepsOrder(order[1..], stamps, key);
      if order[0] == key {
        OrderedWithoutOther(order[1..], stamps, key);
      } else {
        OrderedCons(order[0], Without(order[1..], key), stamps - {key});
      }
    }
  }

  lemma OrderedWithoutOther(order: seq<Key>, stamps: map<Key, nat>, key: Key)
    requires Ordered(order, stamps) && key !in order
    ensures Ordered(order, stamps - {key})
  {
  }

  lemma OrderedCons(first: Key, rest: seq<Key>, stamps: map<Key, nat>)
    requires Ordered(rest, stamps) && first in stamps && forall k :: k in rest ==> stamps[first] < stamps[k]
    ensures Ordered([first] + rest, stamps)
  {
    var all := [first] + rest;
    forall i, j | 0 <= i < j < |all| ensures all[i] in all && all[j] in all && stamps[all[i]] < stamps[all[j]] {
      assert all[j] == rest[j - 1] && rest[j - 1] in rest;
    }
  }

  lemma RemoveKeepsInv(s: State, key: Key)
    requires Inv(s) && key in s.singletons
    ensures Inv(Next(s, Remove(key)))
  {
    var n := Next(s, Remove(key));
    assert n.owners == s.owners && n.registrations == s.registrations && n.clock == s.clock;
    assert n.singletons == s.singletons - {key} && n.order == Without(s.order, key);
    hide Next, OrderIsByStamp, DependenciesComeFirst, InitializersAreSingle;
    assert forall o :: Initializing(n, o) ==> Initializing(s, o);
    SameInitializers(s, n);
    hide Initializing;
    RemoveKeepsOrder(s, n, key);
    assert DependenciesComeFirst(n) by { SameOwnersSameReferences(s, n); }
  }

  lemma SameOwnersSameReferences(s: State, n: State)
    requires DependenciesComeFirst(s) && n.owners == s.owners
    ensures DependenciesComeFirst(n)
  {
    forall o, i | o in n.owners && 0 <= i < |n.owners[o].dependencies| ensures ReferenceComesFirst(n, o, i) {
      assert ReferenceComesFirst(s, o, i);
    }
  }

  lemma RemoveKeepsOrder(s: State, n: State, key: Key)
    requires SingletonsAreTrue(s) && OrderIsByStamp(s)
    requires n.owners == s.owners && n.registrations == s.registrations && n.nextRegistration == s.nextRegistration
    requires n.singletons == s.singletons - {key} && n.order == Without(s.order, key)
    ensures SingletonsAreTrue(n) && OrderIsByStamp(n)
  {
    hide Ordered, Without;
    assert Stamps(n) == Stamps(s) - {key};
    WithoutKeepsOrder(s.order, Stamps(s), key);
  }

  lemma RetainKeepsInv(s: State, o: OwnerId, r: Reference)
    requires Inv(s) && MayRetain(s, o, r)
    ensures Inv(SetOwner(s, o, s.owners[o].(dependencies := s.owners[o].dependencies + [r])))
  {
    if r.owner.Some? { GraphOkIncludesRoot(s, r.owner.value, true); }
    hide GraphOk, Inv;
    OwnerStepKeepsInv(s, o, s.owners[o].(dependencies := s.owners[o].dependencies + [r]));
  }

  lemma NextKeepsInv(s: State, step: Step)
    requires Inv(s)
    ensures Inv(Next(s, step))
  {
    hide Inv, GraphOk, MayStart, SetOwner, AfterPublish, Without;
    match step
    case Start(o, key, singleton) => if MayStart(s, o, key, singleton) { StartKeepsInv(s, o, key, singleton); }
    case Retain(o, r) => if MayRetain(s, o, r) && r !in s.owners[o].dependencies { RetainKeepsInv(s, o, r); }
    case Publish(o) => if Running(s, o) && GraphOk(s, o, false) { PublishKeepsInv(s, o); }
    case Fail(o) =>
      if Running(s, o) { OwnerStepKeepsInv(s, o, s.owners[o].(finalizing := true, finished := true)); }
    case FailLate(o) =>
      if o in s.owners && s.owners[o].published && !s.owners[o].singleton {
        OwnerStepKeepsInv(s, o, s.owners[o].(failed := true));
      }
    case RequestClose(o) =>
      if o in s.owners && s.owners[o].published { OwnerStepKeepsInv(s, o, s.owners[o].(finalizing := true)); }
    case Finalized(o) =>
      if o in s.owners && s.owners[o].finalizing { OwnerStepKeepsInv(s, o, s.owners[o].(finished := true)); }
    case Remove(key) => if key in s.singletons { RemoveKeepsInv(s, key); }
    case _ => RegistryStepKeepsInv(s, step);
  }

  lemma InitIsConsistent()
    ensures Inv(Init())
  {
  }

  lemma {:induction false} RunKeepsInv(s: State, steps: seq<Step>)
    requires Inv(s)
    ensures Inv(Run(s, steps))
    decreases |steps|
  {
    hide Inv, Next;
    if steps != [] {
      NextKeepsInv(s, steps[0]);
      RunKeepsInv(Next(s, steps[0]), steps[1..]);
    }
  }

  // ---- Publication order is dependency order ----

  /** Published owners and what they retained before publication, through owned transients too. */
  function EarlyEdges(owners: Owners): (edges: set<Edge>)
    ensures forall o: OwnerId, d: OwnerId :: (o, d) in edges <==>
      o in owners && owners[o].published && owners[o].early <= |owners[o].dependencies|
      && d in TargetsOf(owners[o].dependencies[..owners[o].early])
  {
    set o, d | o in owners && owners[o].published && owners[o].early <= |owners[o].dependencies|
      && d in TargetsOf(owners[o].dependencies[..owners[o].early]) :: (o, d)
  }

  /** One owner reaches a different one through early dependencies. */
  ghost predicate BuildsOn(s: State, o: OwnerId, d: OwnerId) {
    o != d && Reaches(EarlyEdges(s.owners), o, d)
  }

  function StampOf(owners: Owners): map<Node, nat> {
    map o: Node | o in owners && owners[o].published :: owners[o].stamp
  }

  lemma StampsFallAlongEdges(s: State)
    requires OwnersAreTrue(s) && DependenciesComeFirst(s)
    ensures
      var rank := StampOf(s.owners);
      forall e :: e in EarlyEdges(s.owners) ==> e.0 in rank && e.1 in rank && rank[e.1] < rank[e.0]
  {
    var rank := StampOf(s.owners);
    forall e | e in EarlyEdges(s.owners) ensures e.0 in rank && e.1 in rank && rank[e.1] < rank[e.0] {
      var o, d := e.0, e.1;
      assert (o, d) in EarlyEdges(s.owners);
      var i :| 0 <= i < s.owners[o].early && s.owners[o].dependencies[..s.owners[o].early][i].owner == Some(d);
      assert ReferenceComesFirst(s, o, i);
    }
  }

  lemma ReachedWasPublishedEarlier(s: State, o: OwnerId, d: OwnerId)
    requires OwnersAreTrue(s) && DependenciesComeFirst(s)
    requires o != d && Reaches(EarlyEdges(s.owners), o, d)
    ensures o in s.owners && d in s.owners && s.owners[d].stamp < s.owners[o].stamp
  {
    var p :| WalkFromTo(EarlyEdges(s.owners), p, o, d);
    StampsFallAlongEdges(s);
    RankFallsAlong(EarlyEdges(s.owners), StampOf(s.owners), p);
  }

  /**
   In every reachable state, after any removals too: a published singleton that
   reaches another still published one through what was retained before
   publication stands after it in the order.
   */
  lemma OrderIsTopological(steps: seq<Step>, i: nat, j: nat)
    requires
      var s := Run(Init(), steps);
      i < |s.order| && j < |s.order|
    ensures
      var s := Run(Init(), steps);
      && s.order[i] in s.singletons && s.order[j] in s.singletons
      && (BuildsOn(s, s.singletons[s.order[j]], s.singletons[s.order[i]]) ==> i < j)
  {
    var s := Run(Init(), steps);
    InitIsConsistent();
    RunKeepsInv(Init(), steps);
    hide Run, EarlyEdges;
    InvOrdered(s);
    OrderedBuildsUp(s, s.order, i, j);
  }

  lemma OrderedBuildsUp(s: State, order: seq<Key>, i: nat, j: nat)
    requires Inv(s) && Ordered(order, Stamps(s)) && i < |order| && j < |order|
    ensures order[i] in s.singletons && order[j] in s.singletons
    ensures BuildsOn(s, s.singletons[order[j]], s.singletons[order[i]]) ==> i < j
  {
    hide EarlyEdges;
    assert order[i] in order && order[j] in order;
    if j < i { assert Stamps(s)[order[j]] < Stamps(s)[order[i]]; }
    if BuildsOn(s, s.singletons[order[j]], s.singletons[order[i]]) {
      ReachedWasPublishedEarlier(s, s.singletons[order[j]], s.singletons[order[i]]);
    }
  }

  // ---- Teardown ----

  datatype Event = Begun(o: OwnerId) | Ended(o: OwnerId)

  /** Closing some owners one after the other, each drained before the next begins. */
  function Closings(owners: seq<OwnerId>): (events: seq<Event>)
    ensures |events| == 2 * |owners|
    ensures forall k :: 0 <= k < |owners| ==> events[2 * k] == Begun(owners[k]) && events[2 * k + 1] == Ended(owners[k])
  {
    if owners == [] then []
    else
      var n := |owners| - 1;
      Closings(owners[..n]) + [Begun(owners[n]), Ended(owners[n])]
  }

  lemma OneMoreClosing(owners: seq<OwnerId>, o: OwnerId)
    ensures Closings(owners + [o]) == Closings(owners) + [Begun(o), Ended(o)]
  {
    assert (owners + [o])[..|owners|] == owners;
  }

  /** The owners published under some keys, last key first. */
  function LastFirst(singletons: map<Key, OwnerId>, keys: seq<Key>): (owners: seq<OwnerId>)
    requires forall k :: 0 <= k < |keys| ==> keys[k] in singletons
    ensures |owners| == |keys|
    ensures forall k :: 0 <= k < |keys| ==> owners[k] == singletons[keys[|keys| - 1 - k]]
  {
    seq(|keys|, k requires 0 <= k < |keys| => singletons[keys[|keys| - 1 - k]])
  }

  /** Closing some keys last first, the owner under key j has ended before the one under key i is begun. */
  ghost predicate FinishesFirst(s: State, order: seq<Key>, i: nat, j: nat)
    requires i < |order| && j < |order| && forall k :: 0 <= k < |order| ==> order[k] in s.singletons
  {
    var events, last := Closings(LastFirst(s.singletons, order)), |order| - 1;
    && 2 * (last - j) + 1 < 2 * (last - i) < |events|
    && events[2 * (last - j) + 1] == Ended(s.singletons[order[j]])
    && events[2 * (last - i)] == Begun(s.singletons[order[i]])
  }

  /** Closing published keys last first finishes each dependent before it begins on anything the dependent reaches. */
  lemma OrderedFinishFirst(s: State, order: seq<Key>, i: nat, j: nat)
    requires Inv(s) && Ordered(order, Stamps(s)) && i < |order| && j < |order|
    requires forall k :: 0 <= k < |order| ==> order[k] in s.singletons
    requires BuildsOn(s, s.singletons[order[j]], s.singletons[order[i]])
    ensures FinishesFirst(s, order, i, j)
  {
    hide Inv, Closings, BuildsOn, Ordered, Stamps, Reaches;
    OrderedBuildsUp(s, order, i, j);
    var owners, last := LastFirst(s.singletons, order), |order| - 1;
    assert owners[last - j] == s.singletons[order[j]] && owners[last - i] == s.singletons[order[i]];
    var events := Closings(owners);
    assert events[2 * (last - j) + 1] == Ended(owners[last - j]);
    assert events[2 * (last - i)] == Begun(owners[last - i]);
  }

  /** Reverse publication order finishes each dependent before it begins on anything the dependent reaches. */
  lemma DependentsFinishFirst(s: State, i: nat, j: nat)
    requires Inv(s) && i < |s.order| && j < |s.order|
    requires forall k :: 0 <= k < |s.order| ==> s.order[k] in s.singletons
    requires BuildsOn(s, s.singletons[s.order[j]], s.singletons[s.order[i]])
    ensures FinishesFirst(s, s.order, i, j)
  {
    InvOrdered(s);
    hide Inv, BuildsOn, Ordered, Stamps, FinishesFirst;
    OrderedFinishFirst(s, s.order, i, j);
  }

  /** So it does inside a generation that is removed: only the keys of the generation are closed, in the same order. */
  lemma RemovedDependentsFinishFirst(s: State, keys: set<Key>, i: nat, j: nat)
    requires Inv(s) && i < |Selected(s.order, keys)| && j < |Selected(s.order, keys)|
    requires forall k :: 0 <= k < |Selected(s.order, keys)| ==> Selected(s.order, keys)[k] in s.singletons
    requires BuildsOn(s, s.singletons[Selected(s.order, keys)[j]], s.singletons[Selected(s.order, keys)[i]])
    ensures FinishesFirst(s, Selected(s.order, keys), i, j)
  {
    InvOrdered(s);
    SelectedKeepsOrder(Stamps(s), keys, s.order);
    hide Inv, BuildsOn, Selected, Ordered, Stamps, FinishesFirst;
    OrderedFinishFirst(s, Selected(s.order, keys), i, j);
  }

  /** One owner after another of a removed generation is closed, drained and taken out of the order. */
  ghost predicate Removing(before: State, now: State, order: seq<Key>, i: nat)
    requires i <= |order|
  {
    && Inv(now)
    && now.singletons.Keys == before.singletons.Keys - Members(order[i..])
    && (forall key :: key in now.singletons ==> now.singletons[key] == before.singletons[key])
    && now.registrations == before.registrations
  }

  /** The keys of an order that are in a set, in that order. */
  function Selected(order: seq<Key>, keys: set<Key>): seq<Key>
    decreases |order|
  {
    if order == [] then []
    else
      var init, last := order[..|order| - 1], order[|order| - 1];
      if last in keys then Selected(init, keys) + [last] else Selected(init, keys)
  }

  /** Singleton initializers that have neither published nor failed. */
  function Unfinished(owners: Owners): (initializers: set<OwnerId>)
    ensures forall o :: o in initializers <==>
      o in owners && owners[o].singleton && !owners[o].published && !owners[o].finished
  {
    set o | o in owners && owners[o].singleton && !owners[o].published && !owners[o].finished
  }

  function UnfinishedOf(owners: Owners, keys: set<Key>): (initializers: set<OwnerId>)
    ensures forall o :: o in initializers <==> o in Unfinished(owners) && owners[o].key in keys
  {
    set o | o in Unfinished(owners) && owners[o].key in keys
  }

  ghost predicate SameButOwners(s: State, n: State) {
    && n.singletons == s.singletons && n.order == s.order && n.registrations == s.registrations && n.closed == s.closed
  }

  lemma FailFacts(s: State, o: OwnerId)
    requires Inv(s) && o in Unfinished(s.owners)
    ensures
      var n := SetOwner(s, o, s.owners[o].(finalizing := true, finished := true));
      && o in s.owners && n == Next(s, Fail(o)) && Inv(n) && SameButOwners(s, n)
      && Unfinished(n.owners) == Unfinished(s.owners) - {o}
  {
    hide Inv, Next;
    NextKeepsInv(s, Fail(o));
    FailIs(s, o);
  }

  lemma FailIs(s: State, o: OwnerId)
    requires Running(s, o)
    ensures Next(s, Fail(o)) == SetOwner(s, o, s.owners[o].(finalizing := true, finished := true))
  {
  }

  class Container {
    var state: State
    var log: seq<Event>

    constructor ()
      ensures state == Init() && log == []
    {
      state, log := Init(), [];
    }

    /** Ask a published owner to close and wait until it is finalized. */
    method CloseOwner(key: Key)
      requires Inv(state) && key in state.singletons
      modifies this
      ensures
        var o := old(state).singletons[key];
        && state == Next(Next(old(state), RequestClose(o)), Finalized(o))
        && log == old(log) + [Begun(o), Ended(o)]
      ensures Inv(state) && SameButOwners(old(state), state)
      ensures Unfinished(state.owners) == Unfinished(old(state).owners)
    {
      hide Inv, Next, SetOwner, Unfinished;
      var o := state.singletons[key];
      CloseFacts(state, key);
      state := SetOwner(state, o, state.owners[o].(finalizing := true));
      log := log + [Begun(o)];
      state := SetOwner(state, o, state.owners[o].(finished := true));
      log := log + [Ended(o)];
    }

    /** Wait for some initializers to end. One that ends without publishing has failed. */
    method DrainInitializers(initializers: set<OwnerId>)
      requires Inv(state) && initializers <= Unfinished(state.owners)
      modifies this`state
      ensures Inv(state) && Unfinished(state.owners) == Unfinished(old(state).owners) - initializers
      ensures SameButOwners(old(state), state)
    {
      hide Inv, Next, SetOwner, Unfinished;
      var rest := initializers;
      while rest != {}
        invariant Inv(state) && rest <= initializers
        invariant Unfinished(state.owners) == Unfinished(old(state).owners) - (initializers - rest)
        invariant SameButOwners(old(state), state)
        decreases |rest|
      {
        var o: OwnerId :| o in rest;
        FailFacts(state, o);
        state := SetOwner(state, o, state.owners[o].(finalizing := true, finished := true));
        rest := rest - {o};
      }
    }

    /** End every initializer, then close every published singleton, last published first. */
    method CleanupSingletons()
      requires Inv(state)
      modifies this
      ensures forall k :: 0 <= k < |old(state).order| ==> old(state).order[k] in old(state).singletons
      ensures log == old(log) + Closings(LastFirst(old(state).singletons, old(state).order))
      ensures state.singletons == map[] && state.order == [] && state.registrations == map[] && state.closed
      ensures Unfinished(state.owners) == {}
    {
      hide Inv, Next, Closings, Unfinished;
      state := state.(closed := true);
      NextKeepsInv(old(state), Shut);
      ShutOnlyCloses(old(state));
      DrainInitializers(Unfinished(state.owners));
      OrderIsPublished(state);
      var order := state.order;
      ghost var owners := LastFirst(state.singletons, order);
      NoClosings();
      var i := |order|;
      assert owners[..0] == [];
      while i > 0
        invariant 0 <= i <= |order| && Inv(state)
        invariant state.singletons == old(state).singletons && state.order == order && state.closed
        invariant log == old(log) + Closings(owners[..|order| - i])
        invariant Unfinished(state.owners) == {}
      {
        i := i - 1;
        OneMoreClosing(owners[..|order| - i - 1], owners[|order| - i - 1]);
        assert owners[..|order| - i] == owners[..|order| - i - 1] + [owners[|order| - i - 1]];
        CloseOwner(order[i]);
      }
      assert owners[..|order|] == owners;
      state := state.(singletons := map[], order := [], registrations := map[]);
    }

    /**
     Wait for the initializers of one generation to end, then close and remove its
     published singletons, last published first.
     */
    method RemoveSingletonKeys(keys: set<Key>)
      requires Inv(state)
      modifies this
      ensures forall k :: 0 <= k < |Selected(old(state).order, keys)| ==>
        Selected(old(state).order, keys)[k] in old(state).singletons
      ensures log == old(log) + Closings(LastFirst(old(state).singletons, Selected(old(state).order, keys)))
      ensures Inv(state)
      ensures forall key :: key in state.order <==> key in old(state).order && key !in keys
      ensures state.registrations == old(state).registrations - keys
      ensures Unfinished(state.owners) == Unfinished(old(state).owners) - UnfinishedOf(old(state).owners, keys)
    {
      hide Inv, Next, Closings, Selected, Removing, Without, Unfinished, UnfinishedOf;
      DrainInitializers(UnfinishedOf(state.owners, keys));
      ghost var start := state;
      var order := Selected(state.order, keys);
      SelectedStart(state, keys);
      ghost var owners := LastFirst(state.singletons, order);
      NoClosings();
      assert owners[..0] == [];
      var i := |order|;
      while i > 0
        invariant 0 <= i <= |order| && Removing(start, state, order, i)
        invariant Unfinished(state.owners) == Unfinished(start.owners)
        invariant log == old(log) + Closings(owners[..|order| - i])
      {
        ghost var now := state;
        NotYetRemoved(start, state, order, i);
        RemovingIsConsistent(start, state, order, i);
        OneMoreClosing(owners[..|order| - i], owners[|order| - i]);
        assert owners[..|order| - i + 1] == owners[..|order| - i] + [owners[|order| - i]];
        CloseOwner(order[i - 1]);
        RemoveFacts(state, order[i - 1]);
        state := state.(singletons := state.singletons - {order[i - 1]}, order := Without(state.order, order[i - 1]));
        RemovedOne(start, now, state, order, i);
        i := i - 1;
      }
      assert owners[..|order|] == owners;
      RemovedAll(start, state, keys);
      RemovingIsConsistent(start, state, order, 0);
      UnregisterKeepsInv(state, keys);
      state := state.(registrations := state.registrations - keys);
    }
  }

  lemma CloseFacts(s: State, key: Key)
    requires Inv(s) && key in s.singletons
    ensures
      var o := s.singletons[key];
      && o in s.owners
      && var closing := SetOwner(s, o, s.owners[o].(finalizing := true));
         && o in closing.owners
         && var closed := SetOwner(closing, o, closing.owners[o].(finished := true));
            && closing == Next(s, RequestClose(o)) && closed == Next(closing, Finalized(o)) && Inv(closed)
            && closed.singletons == s.singletons && closed.order == s.order
            && closed.registrations == s.registrations && closed.closed == s.closed
            && Unfinished(closed.owners) == Unfinished(s.owners)
  {
    hide Inv, Next;
    var o := s.singletons[key];
    PublishedOwner(s, key);
    ClosingIs(s, o);
    NextKeepsInv(s, RequestClose(o));
    var closing := SetOwner(s, o, s.owners[o].(finalizing := true));
    FinalizedIs(closing, o);
    NextKeepsInv(closing, Finalized(o));
    hide Inv, Next;
  }

  lemma PublishedOwner(s: State, key: Key)
    requires Inv(s) && key in s.singletons
    ensures s.singletons[key] in s.owners && s.owners[s.singletons[key]].published
  {
  }

  lemma ClosingIs(s: State, o: OwnerId)
    requires o in s.owners && s.owners[o].published
    ensures Next(s, RequestClose(o)) == SetOwner(s, o, s.owners[o].(finalizing := true))
  {
  }

  lemma FinalizedIs(s: State, o: OwnerId)
    requires o in s.owners && s.owners[o].finalizing
    ensures Next(s, Finalized(o)) == SetOwner(s, o, s.owners[o].(finished := true))
  {
  }

  lemma RemovedOne(before: State, now: State, after: State, order: seq<Key>, i: nat)
    requires 0 < i <= |order| && Removing(before, now, order, i) && Inv(after)
    requires after.singletons == now.singletons - {order[i - 1]} && after.registrations == now.registrations
    ensures Removing(before, after, order, i - 1)
  {
    hide Inv;
    assert order[i - 1..] == [order[i - 1]] + order[i..];
    assert Members(order[i - 1..]) == Members(order[i..]) + {order[i - 1]};
  }

  lemma NotYetRemoved(before: State, now: State, order: seq<Key>, i: nat)
    requires 0 < i <= |order| && Removing(before, now, order, i)
    requires forall a, b :: 0 <= a < b < |order| ==> order[a] != order[b]
    requires forall k :: 0 <= k < |order| ==> order[k] in before.singletons
    ensures order[i - 1] in now.singletons && now.singletons[order[i - 1]] == before.singletons[order[i - 1]]
  {
    hide Inv;
  }

  lemma RemovedAll(before: State, now: State, keys: set<Key>)
    requires Inv(before) && Removing(before, now, Selected(before.order, keys), 0)
    ensures now.singletons.Keys == before.singletons.Keys - keys
    ensures forall key :: key in now.order <==> key in before.order && key !in keys
  {
    var order := Selected(before.order, keys);
    SelectedFacts(before.order, keys);
    OrderIsPublished(before);
    OrderIsPublished(now);
    hide Inv;
    assert order[0..] == order;
    forall key | key in now.order ensures key in now.singletons {
    }
    forall key | key in before.order ensures key in before.singletons {
    }
  }

  lemma SelectedStart(s: State, keys: set<Key>)
    requires Inv(s)
    ensures
      var order := Selected(s.order, keys);
      && Removing(s, s, order, |order|)
      && (forall a, b :: 0 <= a < b < |order| ==> order[a] != order[b])
      && (forall k :: 0 <= k < |order| ==> order[k] in s.singletons)
  {
    var order := Selected(s.order, keys);
    InvOrdered(s);
    SelectedKeepsOrder(Stamps(s), keys, s.order);
    OrderedIsDistinct(order, Stamps(s));
    SelectedFacts(s.order, keys);
    OrderIsPublished(s);
    hide Inv, Selected;
    forall k | 0 <= k < |order| ensures order[k] in s.singletons {
      assert order[k] in order;
    }
    assert order[|order|..] == [];
  }

  lemma {:induction false} SelectedFacts(order: seq<Key>, keys: set<Key>)
    ensures |Selected(order, keys)| <= |order|
    ensures forall k :: k in Selected(order, keys) <==> k in order && k in keys
  {
    if order != [] {
      SelectedFacts(order[..|order| - 1], keys);
      assert order == order[..|order| - 1] + [order[|order| - 1]];
    }
  }

  lemma {:induction false} SelectedKeepsOrder(stamps: map<Key, nat>, keys: set<Key>, order: seq<Key>)
    requires Ordered(order, stamps)
    ensures Ordered(Selected(order, keys), stamps)
    decreases |order|
  {
    if order != [] {
      var init, last := order[..|order| - 1], order[|order| - 1];
      assert order == init + [last];
      PrefixOrdered(order, stamps);
      SelectedKeepsOrder(stamps, keys, init);
      SelectedFacts(init, keys);
      if last in keys {
        forall k | k in Selected(init, keys) ensures k in stamps && stamps[k] < stamps[last] {
          var i :| 0 <= i < |init| && init[i] == k;
          assert stamps[order[i]] < stamps[order[|order| - 1]];
        }
        LastOrdered(Selected(init, keys), last, stamps);
      }
    }
  }

  lemma PrefixOrdered(order: seq<Key>, stamps: map<Key, nat>)
    requires order != [] && Ordered(order, stamps)
    ensures Ordered(order[..|order| - 1], stamps) && order[|order| - 1] in stamps
  {
    var init := order[..|order| - 1];
    assert forall i :: 0 <= i < |init| ==> init[i] == order[i];
  }

  lemma LastOrdered(order: seq<Key>, last: Key, stamps: map<Key, nat>)
    requires Ordered(order, stamps) && last in stamps
    requires forall k :: k in order ==> k in stamps && stamps[k] < stamps[last]
    ensures Ordered(order + [last], stamps)
  {
  }

  lemma OrderedIsDistinct(order: seq<Key>, stamps: map<Key, nat>)
    requires Ordered(order, stamps)
    ensures forall i, j :: 0 <= i < j < |order| ==> order[i] != order[j]
  {
    forall i, j | 0 <= i < j < |order| ensures order[i] != order[j] {
      assert stamps[order[i]] < stamps[order[j]];
    }
  }

  lemma {:induction false} RemoveFacts(s: State, key: Key)
    requires Inv(s) && key in s.singletons
    ensures
      var n := Next(s, Remove(key));
      && Inv(n) && n == s.(singletons := s.singletons - {key}, order := Without(s.order, key))
      && (forall k :: k in n.order <==> k in s.order && k != key)
  {
    hide Inv, Next, Without, Stamps, Ordered;
    RemoveKeepsInv(s, key);
    InvOrdered(s);
    WithoutKeepsOrder(s.order, Stamps(s), key);
    RemoveIs(s, key);
  }

  lemma RemoveIs(s: State, key: Key)
    requires key in s.singletons
    ensures Next(s, Remove(key)) == s.(singletons := s.singletons - {key}, order := Without(s.order, key))
  {
  }

  lemma InvOrdered(s: State)
    requires Inv(s)
    ensures Ordered(s.order, Stamps(s))
  {
  }

  lemma RemovingIsConsistent(before: State, now: State, order: seq<Key>, i: nat)
    requires i <= |order| && Removing(before, now, order, i)
    ensures Inv(now) && now.registrations == before.registrations
  {
    hide Inv;
  }

  lemma UnregisterKeepsInv(s: State, keys: set<Key>)
    requires Inv(s)
    ensures Inv(s.(registrations := s.registrations - keys))
    decreases |keys|
  {
    hide Inv, Next;
    if keys == {} {
      assert s.registrations - keys == s.registrations;
    } else {
      var key :| key in keys;
      NextKeepsInv(s, Unregister(key));
      UnregisterIs(s, key);
      UnregisterKeepsInv(s.(registrations := s.registrations - {key}), keys - {key});
      assert s.registrations - {key} - (keys - {key}) == s.registrations - keys;
    }
  }

  lemma UnregisterIs(s: State, key: Key)
    ensures Next(s, Unregister(key)) == s.(registrations := s.registrations - {key})
  {
  }

  lemma NoClosings()
    ensures Closings([]) == []
  {
  }

  lemma ShutOnlyCloses(s: State)
    ensures Next(s, Shut) == s.(closed := true)
  {
  }

  lemma OrderIsPublished(s: State)
    requires Inv(s)
    ensures forall k :: 0 <= k < |s.order| ==> s.order[k] in s.singletons
    ensures forall k :: k in s.singletons ==> k in s.order
  {
    assert forall k :: 0 <= k < |s.order| ==> s.order[k] in s.order;
  }

  // ---- Validating everything an owner reaches ----

  function OwnerUniverse(owners: Owners, extra: OwnerId): (universe: set<OwnerId>)
    ensures extra in universe && forall e :: e in DependencyEdges(owners) ==> e.1 in universe
  {
    {extra} + set e | e in DependencyEdges(owners) :: e.1
  }

  /** The newly seen owners are valid; the root alone may be excused from being published. */
  ghost predicate AllOk(s: State, found: set<OwnerId>, root: OwnerId, requirePublished: bool) {
    forall o :: o in found ==> OwnerOk(s, o, o != root || requirePublished)
  }

  /**
   Depth-first validation with one visited set for the whole check. Success leaves
   the newly visited owners valid and closed under dependencies; failure names an
   invalid owner that is reached.
   */
  method ValidateFrom(
    s: State, owner: OwnerId, visited: set<OwnerId>, requirePublished: bool, ghost universe: set<OwnerId>)
    returns (ok: bool, seen: set<OwnerId>, ghost bad: OwnerId)
    requires owner in universe && forall e :: e in DependencyEdges(s.owners) ==> e.1 in universe
    ensures ok ==> owner in seen && visited <= seen <= visited + universe
    ensures ok ==> AllOk(s, seen - visited, owner, requirePublished)
    ensures ok ==> Search.Explored(DependencyEdges(s.owners), seen - visited, seen)
    ensures !ok ==> Reaches(DependencyEdges(s.owners), owner, bad) && bad !in visited
    ensures !ok ==> !OwnerOk(s, bad, bad != owner || requirePublished)
    decreases |universe - visited|
  {
    hide Reaches, RegistrationOk;
    ok, seen, bad := true, visited, owner;
    SelfReaches(DependencyEdges(s.owners), owner);
    if owner in visited {
      return;
    }
    seen := visited + {owner};
    if owner !in s.owners || !RegistrationOk(s, s.owners[owner].key, s.owners[owner].registration) {
      return false, seen, owner;
    }
    if s.owners[owner].failed || s.owners[owner].finalizing || (requirePublished && !s.owners[owner].published) {
      return false, seen, owner;
    }
    var dependencies := s.owners[owner].dependencies;
    assert seen - visited - {owner} == {};
    var i := 0;
    while i < |dependencies|
      invariant 0 <= i <= |dependencies| && ok
      invariant visited + {owner} <= seen <= visited + universe
      invariant forall j :: 0 <= j < i ==> RegistrationOk(s, dependencies[j].key, dependencies[j].registration)
      invariant forall j :: 0 <= j < i && dependencies[j].owner.Some? ==> dependencies[j].owner.value in seen
      invariant AllOk(s, seen - visited - {owner}, owner, true)
      invariant Search.Explored(DependencyEdges(s.owners), seen - visited - {owner}, seen)
    {
      var dependency := dependencies[i];
      if !RegistrationOk(s, dependency.key, dependency.registration) {
        return false, seen, owner;
      }
      if dependency.owner.Some? {
        Search.FewerLeft(universe, visited, seen, owner);
        assert (owner, dependency.owner.value) in DependencyEdges(s.owners);
        ghost var before := seen;
        ok, seen, bad := ValidateFrom(s, dependency.owner.value, seen, true, universe);
        if !ok {
          EdgeReaches(DependencyEdges(s.owners), owner, dependency.owner.value);
          ReachesTransitive(DependencyEdges(s.owners), owner, dependency.owner.value, bad);
          return;
        }
        AllOkJoins(s, visited, before, seen, owner, dependency.owner.value);
        Search.ExploreMore(DependencyEdges(s.owners), owner, visited, before, seen);
      }
      i := i + 1;
    }
    DependenciesSeen(s, owner, visited, seen, requirePublished);
  }

  lemma AllOkJoins(
    s: State, visited: set<OwnerId>, before: set<OwnerId>, after: set<OwnerId>, owner: OwnerId, child: OwnerId)
    requires visited + {owner} <= before <= after
    requires AllOk(s, before - visited - {owner}, owner, true) && AllOk(s, after - before, child, true)
    ensures AllOk(s, after - visited - {owner}, owner, true)
  {
    hide OwnerOk;
    forall o | o in after - visited - {owner} ensures OwnerOk(s, o, true) {
      assert o in after - before || o in before - visited - {owner};
    }
  }

  lemma DependenciesSeen(s: State, owner: OwnerId, visited: set<OwnerId>, seen: set<OwnerId>, requirePublished: bool)
    requires owner !in visited && visited + {owner} <= seen
    requires AllOk(s, seen - visited - {owner}, owner, true) && OwnerOk(s, owner, requirePublished)
    requires Search.Explored(DependencyEdges(s.owners), seen - visited - {owner}, seen)
    requires forall j :: 0 <= j < |s.owners[owner].dependencies| && s.owners[owner].dependencies[j].owner.Some? ==>
      s.owners[owner].dependencies[j].owner.value in seen
    ensures AllOk(s, seen - visited, owner, requirePublished)
    ensures Search.Explored(DependencyEdges(s.owners), seen - visited, seen)
  {
    forall o | o in seen - visited ensures OwnerOk(s, o, o != owner || requirePublished) {
      assert o == owner || o in seen - visited - {owner};
    }
    forall o, d | (o, d) in DependencyEdges(s.owners) && o in seen - visited ensures d in seen {
      assert o == owner || o in seen - visited - {owner};
    }
  }

  /** The check accepts exactly when every owner reached from the root is valid. */
  method ValidateOwnerGraph(s: State, root: OwnerId, requirePublished: bool) returns (ok: bool)
    ensures ok <==> GraphOk(s, root, requirePublished)
  {
    var seen;
    ghost var bad;
    ok, seen, bad := ValidateFrom(s, root, {}, requirePublished, OwnerUniverse(s.owners, root));
    if ok {
      ClosedIsOk(s, root, seen, requirePublished);
    }
  }

  lemma ClosedIsOk(s: State, root: OwnerId, seen: set<OwnerId>, requirePublished: bool)
    requires root in seen && AllOk(s, seen - {}, root, requirePublished)
    requires Search.Explored(DependencyEdges(s.owners), seen - {}, seen)
    ensures GraphOk(s, root, requirePublished)
  {
    hide OwnerOk;
    assert seen - {} == seen;
    forall o | Reaches(DependencyEdges(s.owners), root, o) ensures OwnerOk(s, o, o != root || requirePublished) {
      var p :| WalkFromTo(DependencyEdges(s.owners), p, root, o);
      assert forall e :: e in DependencyEdges(s.owners) && e.0 in seen ==>
        (e.0, e.1) in DependencyEdges(s.owners) && e.1 in seen;
      ClosedSetKeepsWalks(DependencyEdges(s.owners), seen, p);
    }
  }
}
