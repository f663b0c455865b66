/**
 The event bus: handlers by event class, one class per event name, and the
 durable obligations that outlive the modules that declared them. Dictionaries of
 dictionaries are kept flat, keyed by the pair. An obligation is never lost and
 never changes owner; what a bus owes is what a delivery must serve.
 */
module EventBus {
  import opened Wrappers
  import opened Paths
  import ContributionGate

  type TypeName = nat
  type Subscriber = nat
  type Owner = nat
  type Generation = ContributionGate.Generation
  type States = ContributionGate.States

  datatype EventClass = EventClass(id: nat, name: TypeName)

  datatype Handler = Handler(owner: Owner, generation: Option<Generation>)

  datatype Declaration = Declaration(name: TypeName, subscriber: Subscriber, owner: Owner)

  /** Who owes each durable subscription, by event name and subscriber. */
  type Obligations = map<(TypeName, Subscriber), Owner>

  datatype Bus = Bus(
    handlers: map<(EventClass, Subscriber), Handler>,
    eventTypes: map<TypeName, EventClass>,
    durable: Obligations)

  datatype Conflict = ClassTaken | OwnedByAnother | AlreadySubscribed | OwnershipChanged

  datatype Step =
    | Subscribe(c: EventClass, subscriber: Subscriber, handler: Handler)
    | Bind(declarations: seq<Declaration>)
    | RemoveGeneration(g: Generation, published: bool)

  // ---- The operations ----

  function SubscribeConflict(b: Bus, c: EventClass, subscriber: Subscriber, handler: Handler): Option<Conflict> {
    if c.name in b.eventTypes && b.eventTypes[c.name] != c then Some(ClassTaken)
    else if (c.name, subscriber) in b.durable && b.durable[(c.name, subscriber)] != handler.owner
      then Some(OwnedByAnother)
    else if (c, subscriber) in b.handlers then Some(AlreadySubscribed)
    else None
  }

  /** A refused subscription may still have fixed the class of the event name. */
  function AfterSubscribe(b: Bus, c: EventClass, subscriber: Subscriber, handler: Handler): Bus {
    match SubscribeConflict(b, c, subscriber, handler)
    case Some(ClassTaken) => b
    case Some(_) => b.(eventTypes := b.eventTypes[c.name := c])
    case None => b.(eventTypes := b.eventTypes[c.name := c], handlers := b.handlers[(c, subscriber) := handler])
  }

  /** Some registered handler of this name and subscriber belongs to another owner. */
  predicate HandlerDisagrees(b: Bus, d: Declaration) {
    exists k :: k in b.handlers && k.0.name == d.name && k.1 == d.subscriber && b.handlers[k].owner != d.owner
  }

  function BindOne(b: Bus, merged: Obligations, d: Declaration): Result<Obligations, Conflict> {
    if (d.name, d.subscriber) in merged && merged[(d.name, d.subscriber)] != d.owner then Err(OwnershipChanged)
    else if HandlerDisagrees(b, d) then Err(OwnedByAnother)
    else Ok(merged[(d.name, d.subscriber) := d.owner])
  }

  function BindAll(b: Bus, declarations: seq<Declaration>): Result<Obligations, Conflict>
    decreases |declarations|
  {
    if declarations == [] then Ok(b.durable)
    else
      var n := |declarations| - 1;
      var before := BindAll(b, declarations[..n]);
      if before.Err? then before else BindOne(b, before.value, declarations[n])
  }

  function AfterBind(b: Bus, declarations: seq<Declaration>): Bus {
    match BindAll(b, declarations)
    case Ok(merged) => b.(durable := merged)
    case Err(_) => b
  }

  predicate OfGeneration(h: Handler, g: Generation) {
    h.generation == Some(g)
  }

  /** Handlers of the classes already visited lose the generation's entries. */
  function KeptHandlers(b: Bus, g: Generation, visited: set<EventClass>): (r: map<(EventClass, Subscriber), Handler>)
    ensures forall k :: k in r <==> k in b.handlers && !(k.0 in visited && OfGeneration(b.handlers[k], g))
    ensures forall k :: k in r ==> r[k] == b.handlers[k]
  {
    map k | k in b.handlers && !(k.0 in visited && OfGeneration(b.handlers[k], g)) :: b.handlers[k]
  }

  /** What the removed handlers of a class still owe. */
  function Owed(b: Bus, g: Generation, c: EventClass): (r: Obligations)
    ensures forall k :: k in r <==> k.0 == c.name && (c, k.1) in b.handlers && OfGeneration(b.handlers[(c, k.1)], g)
    ensures forall k :: k in r ==> r[k] == b.handlers[(c, k.1)].owner
  {
    map sub | sub in SubscribersOf(b, c) && OfGeneration(b.handlers[(c, sub)], g) ::
      (c.name, sub) := b.handlers[(c, sub)].owner
  }

  function SubscribersOf(b: Bus, c: EventClass): (r: set<Subscriber>)
    ensures forall sub :: sub in r <==> (c, sub) in b.handlers
  {
    set k | k in b.handlers && k.0 == c :: k.1
  }

  function Classes(b: Bus): (r: set<EventClass>)
    ensures forall c :: c in r <==> exists sub :: (c, sub) in b.handlers
  {
    set k | k in b.handlers :: k.0
  }

  predicate HasObligations(durable: Obligations, name: TypeName) {
    exists k :: k in durable && k.0 == name
  }

  /** Remove a generation's handlers of one class; obligations outlive a generation that was published. */
  function RemoveFrom(b: Bus, g: Generation, published: bool, c: EventClass): Bus {
    var durable := if published then b.durable + Owed(b, g, c) else b.durable;
    var n := b.(handlers := KeptHandlers(b, g, {c}), durable := durable);
    if SubscribersOf(n, c) == {} && !HasObligations(durable, c.name) then n.(eventTypes := n.eventTypes - {c.name})
    else n
  }

  // ---- What the bus keeps ----

  /** A registered handler agrees with the obligation, if there is one. */
  ghost predicate HandlersAgree(b: Bus) {
    forall k :: k in b.handlers && (k.0.name, k.1) in b.durable ==> b.durable[(k.0.name, k.1)] == b.handlers[k].owner
  }

  /** Every registered handler is of the one class its event name has. */
  ghost predicate OneClassPerName(b: Bus) {
    && (forall k :: k in b.handlers ==> k.0.name in b.eventTypes && b.eventTypes[k.0.name] == k.0)
    && (forall name :: name in b.eventTypes ==> b.eventTypes[name].name == name)
  }

  /** A name keeps a class only while it has handlers or obligations. */
  ghost predicate TypesAreUsed(b: Bus) {
    forall name :: name in b.eventTypes ==> HasHandlers(b, name) || HasObligations(b.durable, name)
  }

  ghost predicate Inv(b: Bus) {
    HandlersAgree(b) && OneClassPerName(b) && TypesAreUsed(b)
  }

  /** No obligation is lost or changes owner. */
  ghost predicate ObligationsKept(a: Bus, b: Bus) {
    forall k :: k in a.durable ==> k in b.durable && b.durable[k] == a.durable[k]
  }

  /** While a name has obligations its class, once known, does not change. */
  ghost predicate ClassesKept(a: Bus, b: Bus) {
    forall name :: name in a.eventTypes && (HasObligations(a.durable, name) || HasHandlers(b, name)) ==>
      name in b.eventTypes && b.eventTypes[name] == a.eventTypes[name]
  }

  predicate HasHandlers(b: Bus, name: TypeName) {
    exists k :: k in b.handlers && k.0.name == name
  }

  lemma SubscribeKeepsInv(b: Bus, c: EventClass, subscriber: Subscriber, handler: Handler)
    requires Inv(b)
    ensures Inv(AfterSubscribe(b, c, subscriber, handler))
    ensures ObligationsKept(b, AfterSubscribe(b, c, subscriber, handler))
    ensures ClassesKept(b, AfterSubscribe(b, c, subscriber, handler))
  {
    SubscribeKeepsUse(b, c, subscriber, handler);
    SubscribeKeepsClasses(b, c, subscriber, handler);
    hide HasObligations, HasHandlers, TypesAreUsed, ClassesKept;
  }

  lemma SubscribeKeepsClasses(b: Bus, c: EventClass, subscriber: Subscriber, handler: Handler)
    ensures ClassesKept(b, AfterSubscribe(b, c, subscriber, handler))
  {
    hide HasObligations, HasHandlers;
  }

  lemma SubscribeKeepsUse(b: Bus, c: EventClass, subscriber: Subscriber, handler: Handler)
    requires Inv(b)
    ensures TypesAreUsed(AfterSubscribe(b, c, subscriber, handler))
  {
    var n := AfterSubscribe(b, c, subscriber, handler);
    forall name | name in n.eventTypes ensures HasHandlers(n, name) || HasObligations(n.durable, name) {
      match SubscribeConflict(b, c, subscriber, handler)
      case None =>
        if name == c.name {
          assert (c, subscriber) in n.handlers;
        } else if HasHandlers(b, name) {
          var k :| k in b.handlers && k.0.name == name;
          assert k in n.handlers;
        }
      case Some(OwnedByAnother) => assert (c.name, subscriber) in b.durable;
      case Some(AlreadySubscribed) =>
        assert (c, subscriber) in b.handlers;
        assert HasHandlers(b, c.name);
        SameHandlers(b, n, name);
      case Some(_) =>
    }
  }

  lemma SameHandlers(b: Bus, n: Bus, name: TypeName)
    requires n.handlers == b.handlers
    ensures HasHandlers(n, name) <==> HasHandlers(b, name)
  {
  }

  /** A binding keeps what was there, adds exactly what was declared, and disagrees with no handler. */
  lemma {:induction false} BindFacts(b: Bus, declarations: seq<Declaration>)
    requires HandlersAgree(b) && BindAll(b, declarations).Ok?
    ensures
      var merged := BindAll(b, declarations).value;
      && (forall k :: k in b.durable ==> k in merged && merged[k] == b.durable[k])
      && (forall d :: d in declarations ==>
            (d.name, d.subscriber) in merged && merged[(d.name, d.subscriber)] == d.owner)
      && (forall k :: k in merged ==> k in b.durable || Declaration(k.0, k.1, merged[k]) in declarations)
      && HandlersAgree(b.(durable := merged))
    decreases |declarations|
  {
    if declarations != [] {
      var n := |declarations| - 1;
      BindFacts(b, declarations[..n]);
      assert declarations == declarations[..n] + [declarations[n]];
    }
  }

  /** No declaration contradicts an obligation, a handler or another declaration. */
  ghost predicate Compatible(b: Bus, declarations: seq<Declaration>) {
    && (forall d :: d in declarations ==>
          && ((d.name, d.subscriber) in b.durable ==> b.durable[(d.name, d.subscriber)] == d.owner)
          && !HandlerDisagrees(b, d))
    && (forall d, e :: d in declarations && e in declarations && d.name == e.name && d.subscriber == e.subscriber ==>
          d.owner == e.owner)
  }

  lemma {:induction false} BindSucceedsExactlyWhenCompatible(b: Bus, declarations: seq<Declaration>)
    requires HandlersAgree(b)
    ensures BindAll(b, declarations).Ok? <==> Compatible(b, declarations)
    decreases |declarations|
  {
    if declarations != [] {
      var n := |declarations| - 1;
      var d := declarations[n];
      assert declarations == declarations[..n] + [d];
      BindSucceedsExactlyWhenCompatible(b, declarations[..n]);
      assert Compatible(b, declarations) ==> Compatible(b, declarations[..n]);
      if BindAll(b, declarations[..n]).Ok? {
        BindFacts(b, declarations[..n]);
        hide HandlerDisagrees, HandlersAgree;
      }
    }
  }

  // ---- Removing a generation ----

  function NamesOf(b: Bus): set<(TypeName, Subscriber)> {
    set k | k in b.handlers :: (k.0.name, k.1)
  }

  /** The removed handler of a visited class that this pair names, one class per name. */
  predicate Leaves(b: Bus, g: Generation, visited: set<EventClass>, k: (TypeName, Subscriber)) {
    && k.0 in b.eventTypes && b.eventTypes[k.0] in visited
    && (b.eventTypes[k.0], k.1) in b.handlers && OfGeneration(b.handlers[(b.eventTypes[k.0], k.1)], g)
  }

  function OwedBy(b: Bus, g: Generation, visited: set<EventClass>): (r: Obligations)
    ensures forall k :: k in r <==> k in NamesOf(b) && Leaves(b, g, visited, k)
    ensures forall k :: k in r ==> Leaves(b, g, visited, k) && r[k] == b.handlers[(b.eventTypes[k.0], k.1)].owner
  {
    map k | k in NamesOf(b) && Leaves(b, g, visited, k) :: b.handlers[(b.eventTypes[k.0], k.1)].owner
  }

  function DurableAfter(b: Bus, g: Generation, published: bool, visited: set<EventClass>): Obligations {
    if published then b.durable + OwedBy(b, g, visited) else b.durable
  }

  /** The class of a name is forgotten once it has neither handlers nor obligations. */
  predicate Forgotten(b: Bus, g: Generation, published: bool, visited: set<EventClass>, name: TypeName)
    requires name in b.eventTypes
  {
    && b.eventTypes[name] in visited && b.eventTypes[name] in Classes(b)
    && (forall k :: k in b.handlers && k.0 == b.eventTypes[name] ==> OfGeneration(b.handlers[k], g))
    && !HasObligations(DurableAfter(b, g, published, visited), name)
  }

  /** The bus when the classes visited so far have lost the generation. */
  function RemoveSome(b: Bus, g: Generation, published: bool, visited: set<EventClass>): Bus {
    Bus(KeptHandlers(b, g, visited),
        map name | name in b.eventTypes && !Forgotten(b, g, published, visited, name) :: b.eventTypes[name],
        DurableAfter(b, g, published, visited))
  }

  function AfterRemove(b: Bus, g: Generation, published: bool): Bus {
    RemoveSome(b, g, published, Classes(b))
  }

  lemma OwedOneMore(b: Bus, g: Generation, visited: set<EventClass>, c: EventClass)
    requires OneClassPerName(b) && c in Classes(b) && c !in visited
    ensures OwedBy(b, g, visited + {c}) == OwedBy(b, g, visited) + Owed(b, g, c)
    ensures forall k :: k in OwedBy(b, g, visited) ==> k.0 != c.name
  {
    var sub :| (c, sub) in b.handlers;
    assert b.eventTypes[c.name] == c;
    assert forall k :: k in Owed(b, g, c) ==> k in NamesOf(b) by {
      forall k | k in Owed(b, g, c) ensures k in NamesOf(b) { assert (c, k.1) in b.handlers; }
    }
  }

  lemma RestUntouched(b: Bus, g: Generation, published: bool, visited: set<EventClass>, c: EventClass)
    requires c !in visited
    ensures Owed(RemoveSome(b, g, published, visited), g, c) == Owed(b, g, c)
  {
    hide Forgotten, DurableAfter;
    var n := RemoveSome(b, g, published, visited);
    assert forall sub :: (c, sub) in n.handlers <==> (c, sub) in b.handlers;
  }

  lemma VisitOne(b: Bus, g: Generation, published: bool, visited: set<EventClass>, c: EventClass)
    requires OneClassPerName(b) && c in Classes(b) && c !in visited
    ensures RemoveFrom(RemoveSome(b, g, published, visited), g, published, c) ==
      RemoveSome(b, g, published, visited + {c})
  {
    var n := RemoveSome(b, g, published, visited);
    var m, all := RemoveFrom(n, g, published, c), RemoveSome(b, g, published, visited + {c});
    RestUntouched(b, g, published, visited, c);
    OwedOneMore(b, g, visited, c);
    VisitHandlers(b, g, published, visited, c);
    VisitDurable(b, g, published, visited, c);
    hide Owed, OwedBy, KeptHandlers;
    VisitTypes(b, g, published, visited, c);
  }

  lemma VisitHandlers(b: Bus, g: Generation, published: bool, visited: set<EventClass>, c: EventClass)
    ensures KeptHandlers(RemoveSome(b, g, published, visited), g, {c}) == KeptHandlers(b, g, visited + {c})
  {
    hide Forgotten, DurableAfter;
  }

  lemma VisitDurable(b: Bus, g: Generation, published: bool, visited: set<EventClass>, c: EventClass)
    requires OneClassPerName(b) && c in Classes(b) && c !in visited
    ensures DurableAfter(b, g, published, visited + {c}) ==
      if published then DurableAfter(b, g, published, visited) + Owed(b, g, c) else b.durable
  {
    OwedOneMore(b, g, visited, c);
    hide OwedBy, Owed, Classes, OneClassPerName;
    UnionIsAssociative(b.durable, OwedBy(b, g, visited), Owed(b, g, c));
  }

  lemma UnionIsAssociative(a: Obligations, b: Obligations, c: Obligations)
    ensures a + (b + c) == a + b + c
  {
  }

  lemma OtherObligations(
    b: Bus, g: Generation, published: bool, visited: set<EventClass>, c: EventClass, name: TypeName)
    requires OneClassPerName(b) && c in Classes(b) && c !in visited && name != c.name
    ensures HasObligations(DurableAfter(b, g, published, visited + {c}), name) <==>
      HasObligations(DurableAfter(b, g, published, visited), name)
  {
    VisitDurable(b, g, published, visited, c);
    hide DurableAfter, Classes, OneClassPerName;
    var before, after := DurableAfter(b, g, published, visited), DurableAfter(b, g, published, visited + {c});
    if published {
      assert forall k: (TypeName, Subscriber) :: k.0 == name ==> (k in after <==> k in before);
    } else {
      UnpublishedObligations(b, g, visited);
      UnpublishedObligations(b, g, visited + {c});
    }
  }

  lemma UnpublishedObligations(b: Bus, g: Generation, visited: set<EventClass>)
    ensures DurableAfter(b, g, false, visited) == b.durable
  {
  }

  lemma ForgottenElsewhere(
    b: Bus, g: Generation, published: bool, visited: set<EventClass>, c: EventClass, name: TypeName)
    requires OneClassPerName(b) && c in Classes(b) && c !in visited && name in b.eventTypes && name != c.name
    ensures Forgotten(b, g, published, visited + {c}, name) <==> Forgotten(b, g, published, visited, name)
  {
    OtherObligations(b, g, published, visited, c, name);
    assert b.eventTypes[name] != c;
    hide DurableAfter, HasObligations, Classes;
  }

  /** Whether visiting this class forgets its name. */
  lemma ForgottenHere(b: Bus, g: Generation, published: bool, visited: set<EventClass>, c: EventClass)
    requires OneClassPerName(b) && c in Classes(b) && c !in visited
    ensures c.name in b.eventTypes && b.eventTypes[c.name] == c && !Forgotten(b, g, published, visited, c.name)
    ensures Forgotten(b, g, published, visited + {c}, c.name) <==>
      (forall sub :: (c, sub) !in KeptHandlers(b, g, visited + {c}))
        && !HasObligations(DurableAfter(b, g, published, visited + {c}), c.name)
  {
    var sub :| (c, sub) in b.handlers;
    hide DurableAfter, HasObligations;
    assert forall k :: k in b.handlers && k.0 == c ==> (c, k.1) in b.handlers;
  }

  lemma VisitTypes(b: Bus, g: Generation, published: bool, visited: set<EventClass>, c: EventClass)
    requires OneClassPerName(b) && c in Classes(b) && c !in visited
    ensures RemoveFrom(RemoveSome(b, g, published, visited), g, published, c).eventTypes
      == RemoveSome(b, g, published, visited + {c}).eventTypes
  {
    hide RemoveFrom, DurableAfter, HasObligations, Owed, KeptHandlers, Classes, Forgotten;
    var n := RemoveSome(b, g, published, visited);
    VisitHandlers(b, g, published, visited, c);
    VisitDurable(b, g, published, visited, c);
    RestUntouched(b, g, published, visited, c);
    ForgottenHere(b, g, published, visited, c);
    if !published {
      UnpublishedObligations(b, g, visited);
      UnpublishedObligations(b, g, visited + {c});
    }
    RemoveFromTypes(n, g, published, c);
    forall name | name in b.eventTypes && name != c.name
      ensures Forgotten(b, g, published, visited + {c}, name) <==> Forgotten(b, g, published, visited, name)
    {
      ForgottenElsewhere(b, g, published, visited, c, name);
    }
  }

  lemma RemoveFromTypes(b: Bus, g: Generation, published: bool, c: EventClass)
    ensures
      var durable := if published then b.durable + Owed(b, g, c) else b.durable;
      RemoveFrom(b, g, published, c).eventTypes ==
        if (forall sub :: (c, sub) !in KeptHandlers(b, g, {c})) && !HasObligations(durable, c.name)
        then b.eventTypes - {c.name} else b.eventTypes
  {
    hide KeptHandlers, Owed, HasObligations;
    var durable := if published then b.durable + Owed(b, g, c) else b.durable;
    var n := b.(handlers := KeptHandlers(b, g, {c}), durable := durable);
    assert SubscribersOf(n, c) == {} <==> forall sub :: (c, sub) !in n.handlers;
  }

  lemma RemovedHandlerLeaves(b: Bus, g: Generation, k: (EventClass, Subscriber))
    requires OneClassPerName(b) && k in b.handlers && OfGeneration(b.handlers[k], g)
    ensures
      var owed, pair := OwedBy(b, g, Classes(b)), (k.0.name, k.1);
      pair in owed && owed[pair] == b.handlers[k].owner
  {
    assert (k.0, k.1) == k && k.0 in Classes(b);
  }

  /** Exactly the generation's handlers go; what a published generation owed stays owed. */
  lemma RemoveFacts(b: Bus, g: Generation, published: bool)
    requires Inv(b)
    ensures
      var n := AfterRemove(b, g, published);
      && (forall k :: k in n.handlers <==> k in b.handlers && !OfGeneration(b.handlers[k], g))
      && (forall k :: k in n.handlers ==> n.handlers[k] == b.handlers[k])
      && ObligationsKept(b, n)
      && (!published ==> n.durable == b.durable)
      && (published ==> forall k :: k in b.handlers && OfGeneration(b.handlers[k], g) ==>
            (k.0.name, k.1) in n.durable && n.durable[(k.0.name, k.1)] == b.handlers[k].owner)
      && HandlersAgree(n)
  {
    hide *;
    RemoveFields(b, g, published);
    RemoveKeepsObligations(b, g, published);
    RemoveKeepsAgreement(b, g, published);
  }

  lemma RemoveKeepsObligations(b: Bus, g: Generation, published: bool)
    requires Inv(b)
    ensures
      var n := AfterRemove(b, g, published);
      && ObligationsKept(b, n)
      && (!published ==> n.durable == b.durable)
      && (published ==> forall k :: k in b.handlers && OfGeneration(b.handlers[k], g) ==>
            (k.0.name, k.1) in n.durable && n.durable[(k.0.name, k.1)] == b.handlers[k].owner)
  {
    hide OwedBy, OfGeneration, AfterRemove, Classes;
    RemoveFields(b, g, published);
    OwedAgrees(b, g);
    InvOneClass(b);
    hide Inv, OneClassPerName;
    forall k | k in b.handlers && OfGeneration(b.handlers[k], g)
      ensures published ==> (k.0.name, k.1) in AfterRemove(b, g, published).durable
                            && AfterRemove(b, g, published).durable[(k.0.name, k.1)] == b.handlers[k].owner
    {
      RemovedHandlerLeaves(b, g, k);
    }
  }

  lemma RemoveKeepsAgreement(b: Bus, g: Generation, published: bool)
    requires Inv(b)
    ensures HandlersAgree(AfterRemove(b, g, published))
  {
    hide OwedBy, OfGeneration, AfterRemove, Classes, OneClassPerName, TypesAreUsed;
    RemoveFields(b, g, published);
    OwedAgrees(b, g);
  }

  lemma InvOneClass(b: Bus)
    requires Inv(b)
    ensures OneClassPerName(b)
  {
  }

  lemma RemoveFields(b: Bus, g: Generation, published: bool)
    ensures
      var n := AfterRemove(b, g, published);
      && (forall k :: k in n.handlers <==> k in b.handlers && !OfGeneration(b.handlers[k], g))
      && (forall k :: k in n.handlers ==> n.handlers[k] == b.handlers[k])
      && n.durable == (if published then b.durable + OwedBy(b, g, Classes(b)) else b.durable)
  {
    hide Forgotten, OwedBy, OfGeneration;
    forall k | k in b.handlers ensures k.0 in Classes(b) {
      assert (k.0, k.1) in b.handlers;
    }
  }

  /** An owed pair names one handler only, so it agrees with obligations and with what stays registered. */
  lemma OwedAgrees(b: Bus, g: Generation)
    requires Inv(b)
    ensures forall k :: k in OwedBy(b, g, Classes(b)) && k in b.durable ==> b.durable[k] == OwedBy(b, g, Classes(b))[k]
    ensures forall k :: k in b.handlers && (k.0.name, k.1) in OwedBy(b, g, Classes(b)) ==>
      b.handlers[k].owner == OwedBy(b, g, Classes(b))[(k.0.name, k.1)]
  {
    var owed := OwedBy(b, g, Classes(b));
    forall k | k in owed && k in b.durable ensures b.durable[k] == owed[k] {
      assert Leaves(b, g, Classes(b), k);
      assert b.eventTypes[k.0].name == k.0;
      assert ((b.eventTypes[k.0], k.1).0.name, (b.eventTypes[k.0], k.1).1) == k;
    }
    forall k | k in b.handlers && (k.0.name, k.1) in owed ensures b.handlers[k].owner == owed[(k.0.name, k.1)] {
      assert b.eventTypes[k.0.name] == k.0 && (k.0, k.1) == k;
    }
  }

  /** A name keeps its class exactly while a handler or an obligation of it is left. */
  lemma RemoveTypes(b: Bus, g: Generation, published: bool)
    requires Inv(b)
    ensures
      var n := AfterRemove(b, g, published);
      && (forall name :: name in n.eventTypes ==> name in b.eventTypes && n.eventTypes[name] == b.eventTypes[name])
      && (forall name :: name in b.eventTypes ==>
            (name in n.eventTypes <==> HasHandlers(n, name) || HasObligations(n.durable, name)))
  {
    var n := AfterRemove(b, g, published);
    RemoveFacts(b, g, published);
    forall name | name in b.eventTypes
      ensures name in n.eventTypes <==> HasHandlers(n, name) || HasObligations(n.durable, name)
    {
      TypeStays(b, g, published, name);
    }
    hide *;
  }

  lemma TypeStays(b: Bus, g: Generation, published: bool, name: TypeName)
    requires Inv(b) && name in b.eventTypes
    ensures
      var n := AfterRemove(b, g, published);
      !Forgotten(b, g, published, Classes(b), name) <==> HasHandlers(n, name) || HasObligations(n.durable, name)
  {
    RemoveFacts(b, g, published);
    var n, c := AfterRemove(b, g, published), b.eventTypes[name];
    assert n.durable == DurableAfter(b, g, published, Classes(b));
    assert forall k :: k in b.handlers && k.0.name == name ==> k.0 == c;
    if HasHandlers(b, name) {
      var k :| k in b.handlers && k.0.name == name;
      assert (c, k.1) in b.handlers;
      assert c in Classes(b);
      assert (forall j :: j in b.handlers && j.0 == c ==> OfGeneration(b.handlers[j], g)) <==> !HasHandlers(n, name);
    } else {
      assert HasObligations(b.durable, name);
      KeptObligations(b, n, name);
    }
    hide *;
  }

  lemma KeptObligations(b: Bus, n: Bus, name: TypeName)
    requires ObligationsKept(b, n) && HasObligations(b.durable, name)
    ensures HasObligations(n.durable, name)
  {
  }

  lemma RemoveKeepsInv(b: Bus, g: Generation, published: bool)
    requires Inv(b)
    ensures Inv(AfterRemove(b, g, published))
    ensures ObligationsKept(b, AfterRemove(b, g, published)) && ClassesKept(b, AfterRemove(b, g, published))
  {
    hide AfterRemove;
    var n := AfterRemove(b, g, published);
    RemoveFacts(b, g, published);
    RemoveTypes(b, g, published);
    forall name | name in b.eventTypes && HasObligations(b.durable, name) ensures HasObligations(n.durable, name) {
      KeptObligations(b, n, name);
    }
    hide HasObligations, OfGeneration, ObligationsKept;
    forall k | k in n.handlers ensures k.0.name in n.eventTypes && n.eventTypes[k.0.name] == k.0 {
      assert HasHandlers(n, k.0.name);
    }
    hide HasHandlers;
  }

  // ---- Results over every sequence of registrations, bindings and removals ----

  function Next(b: Bus, step: Step): Bus {
    match step
    case Subscribe(c, subscriber, handler) => AfterSubscribe(b, c, subscriber, handler)
    case Bind(declarations) => AfterBind(b, declarations)
    case RemoveGeneration(g, published) => AfterRemove(b, g, published)
  }

  function Run(b: Bus, steps: seq<Step>): Bus
    decreases |steps|
  {
    if steps == [] then b else Run(Next(b, steps[0]), steps[1..])
  }

  function Empty(): Bus {
    Bus(map[], map[], map[])
  }

  lemma BindKeepsInv(b: Bus, declarations: seq<Declaration>)
    requires Inv(b)
    ensures Inv(AfterBind(b, declarations))
    ensures ObligationsKept(b, AfterBind(b, declarations)) && ClassesKept(b, AfterBind(b, declarations))
  {
    hide BindAll, HandlersAgree;
    var n := AfterBind(b, declarations);
    if BindAll(b, declarations).Ok? { BindFacts(b, declarations); }
    forall name | HasObligations(b.durable, name) ensures HasObligations(n.durable, name) {
      KeptObligations(b, n, name);
    }
    forall name ensures HasHandlers(n, name) <==> HasHandlers(b, name) {
      SameHandlers(b, n, name);
    }
    hide HasHandlers, HasObligations;
  }

  lemma NextKeepsInv(b: Bus, step: Step)
    requires Inv(b)
    ensures Inv(Next(b, step)) && ObligationsKept(b, Next(b, step)) && ClassesKept(b, Next(b, step))
  {
    hide Inv, ObligationsKept, ClassesKept, AfterSubscribe, AfterBind, AfterRemove;
    match step
    case Subscribe(c, subscriber, handler) => SubscribeKeepsInv(b, c, subscriber, handler);
    case Bind(declarations) => BindKeepsInv(b, declarations);
    case RemoveGeneration(g, published) => RemoveKeepsInv(b, g, published);
  }

  lemma EmptyIsConsistent()
    ensures Inv(Empty())
  {
  }

  lemma {:induction false} RunKeepsObligations(b: Bus, steps: seq<Step>)
    requires Inv(b)
    ensures Inv(Run(b, steps)) && ObligationsKept(b, Run(b, steps))
    decreases |steps|
  {
    if steps != [] {
      NextKeepsInv(b, steps[0]);
      hide Next, Inv;
      RunKeepsObligations(Next(b, steps[0]), steps[1..]);
      hide Run;
    }
  }

  /**
   Whatever happened before and whatever follows: an obligation never disappears
   or changes owner, every handler agrees with it, and a name has one class at a time.
   */
  lemma ObligationsAreForever(steps: seq<Step>, more: seq<Step>)
    ensures
      var b, n := Run(Empty(), steps), Run(Run(Empty(), steps), more);
      Inv(b) && Inv(n) && ObligationsKept(b, n)
  {
    hide Run, Inv;
    EmptyIsConsistent();
    RunKeepsObligations(Empty(), steps);
    RunKeepsObligations(Run(Empty(), steps), more);
  }

  lemma {:induction false} RunKeepsClass(b: Bus, steps: seq<Step>, name: TypeName)
    requires Inv(b) && name in b.eventTypes && HasObligations(b.durable, name)
    ensures name in Run(b, steps).eventTypes && Run(b, steps).eventTypes[name] == b.eventTypes[name]
    decreases |steps|
  {
    if steps != [] {
      NextKeepsInv(b, steps[0]);
      KeptObligations(b, Next(b, steps[0]), name);
      hide Next, Inv, HasObligations;
      RunKeepsClass(Next(b, steps[0]), steps[1..], name);
    }
  }

  /** While a name has obligations, the class it once had is its class for good. */
  lemma ObligatedNameKeepsItsClass(steps: seq<Step>, more: seq<Step>, name: TypeName)
    requires name in Run(Empty(), steps).eventTypes && HasObligations(Run(Empty(), steps).durable, name)
    ensures
      var b, n := Run(Empty(), steps), Run(Run(Empty(), steps), more);
      name in n.eventTypes && n.eventTypes[name] == b.eventTypes[name]
  {
    hide Run, Inv, HasObligations;
    EmptyIsConsistent();
    RunKeepsObligations(Empty(), steps);
    RunKeepsClass(Run(Empty(), steps), more, name);
  }

  /** A binding that conflicts changes nothing; one that does not binds exactly what it declares. */
  lemma BindIsAllOrNothing(b: Bus, declarations: seq<Declaration>)
    requires Inv(b)
    ensures
      var n := AfterBind(b, declarations);
      if Compatible(b, declarations) then
        && n.handlers == b.handlers && n.eventTypes == b.eventTypes
        && (forall k, owner :: k in n.durable && n.durable[k] == owner <==>
              (k in b.durable && b.durable[k] == owner) || Declaration(k.0, k.1, owner) in declarations)
      else n == b
  {
    BindSucceedsExactlyWhenCompatible(b, declarations);
    if Compatible(b, declarations) { BindFacts(b, declarations); }
    hide BindAll, Compatible, HandlersAgree, TypesAreUsed, OneClassPerName;
  }

  /**
   Withdrawing a subscription whose generation was never published puts the bus
   back exactly, unless the name had obligations but no class yet: then, and only
   then, the name keeps the class of the withdrawn handler.
   */
  lemma WithdrawnSubscription(b: Bus, c: EventClass, subscriber: Subscriber, owner: Owner, g: Generation)
    requires Inv(b) && SubscribeConflict(b, c, subscriber, Handler(owner, Some(g))).None?
    requires forall k :: k in b.handlers ==> !OfGeneration(b.handlers[k], g)
    ensures AfterRemove(AfterSubscribe(b, c, subscriber, Handler(owner, Some(g))), g, false) == b <==>
      (c.name in b.eventTypes || !HasObligations(b.durable, c.name))
  {
    hide *;
    WithdrawnEntries(b, c, subscriber, owner, g);
    WithdrawnTypes(b, c, subscriber, owner, g);
    SameBus(AfterRemove(AfterSubscribe(b, c, subscriber, Handler(owner, Some(g))), g, false), b);
  }

  /**
   Such a bus is reachable: an obligation is bound, a subscription to its name is
   withdrawn before its generation is published, and the class that subscription
   brought stays. A later subscription with another class of the same name is then
   refused, which the bus would have accepted before.
   */
  lemma WithdrawnClassStays(g: Generation)
    ensures
      var b := Run(Empty(), [Bind([Declaration(0, 0, 0)])]);
      var n := Run(b, [Subscribe(EventClass(1, 0), 0, Handler(0, Some(g))), RemoveGeneration(g, false)]);
      && n == b.(eventTypes := map[0 := EventClass(1, 0)]) && n != b
      && SubscribeConflict(b, EventClass(2, 0), 0, Handler(0, Some(g))).None?
      && SubscribeConflict(n, EventClass(2, 0), 0, Handler(0, Some(g))) == Some(ClassTaken)
  {
    var d, c, h := Declaration(0, 0, 0), EventClass(1, 0), Handler(0, Some(g));
    assert [d][..0] == [];
    assert BindAll(Empty(), [d]) == BindOne(Empty(), map[], d);
    var b := Next(Empty(), Bind([d]));
    assert b == Bus(map[], map[], map[(0, 0) := 0]);
    var m := Next(b, Subscribe(c, 0, h));
    assert m == Bus(map[(c, 0) := h], map[0 := c], map[(0, 0) := 0]);
    EmptyIsConsistent();
    NextKeepsInv(Empty(), Bind([d]));
    NextKeepsInv(b, Subscribe(c, 0, h));
    WithdrawnEntries(b, c, 0, 0, g);
    RemoveTypes(m, g, false);
    var n := Next(m, RemoveGeneration(g, false));
    assert (0, 0) in n.durable && HasObligations(n.durable, 0);
    assert n == Bus(map[], map[0 := c], map[(0, 0) := 0]);
    RunOne(Empty(), b, Bind([d]));
    assert [Subscribe(c, 0, h), RemoveGeneration(g, false)][1..] == [RemoveGeneration(g, false)];
    RunOne(m, n, RemoveGeneration(g, false));
  }

  lemma RunOne(b: Bus, n: Bus, step: Step)
    requires n == Next(b, step)
    ensures Run(b, [step]) == n
  {
    assert [step][1..] == [];
  }

  lemma SameBus(a: Bus, b: Bus)
    ensures a == b <==> a.handlers == b.handlers && a.eventTypes == b.eventTypes && a.durable == b.durable
  {
  }

  lemma WithdrawnEntries(b: Bus, c: EventClass, subscriber: Subscriber, owner: Owner, g: Generation)
    requires Inv(b) && SubscribeConflict(b, c, subscriber, Handler(owner, Some(g))).None?
    requires forall k :: k in b.handlers ==> !OfGeneration(b.handlers[k], g)
    ensures
      var n := AfterRemove(AfterSubscribe(b, c, subscriber, Handler(owner, Some(g))), g, false);
      n.handlers == b.handlers && n.durable == b.durable
  {
    hide AfterRemove, Inv;
    SubscribeKeepsInv(b, c, subscriber, Handler(owner, Some(g)));
    RemoveFacts(AfterSubscribe(b, c, subscriber, Handler(owner, Some(g))), g, false);
  }

  lemma WithdrawnTypes(b: Bus, c: EventClass, subscriber: Subscriber, owner: Owner, g: Generation)
    requires Inv(b) && SubscribeConflict(b, c, subscriber, Handler(owner, Some(g))).None?
    requires forall k :: k in b.handlers ==> !OfGeneration(b.handlers[k], g)
    ensures
      var n := AfterRemove(AfterSubscribe(b, c, subscriber, Handler(owner, Some(g))), g, false);
      n.eventTypes == b.eventTypes <==> (c.name in b.eventTypes || !HasObligations(b.durable, c.name))
  {
    hide AfterRemove, HandlersAgree, OfGeneration, HasObligations;
    hide HasHandlers, AfterSubscribe, OneClassPerName, TypesAreUsed;
    var m := AfterSubscribe(b, c, subscriber, Handler(owner, Some(g)));
    var n := AfterRemove(m, g, false);
    SubscribedTypes(b, c, subscriber, Handler(owner, Some(g)));
    SubscribeKeepsInv(b, c, subscriber, Handler(owner, Some(g)));
    WithdrawnEntries(b, c, subscriber, owner, g);
    RemoveTypes(m, g, false);
    UsedTypes(b, n, c);
  }

  lemma SubscribedTypes(b: Bus, c: EventClass, subscriber: Subscriber, handler: Handler)
    requires SubscribeConflict(b, c, subscriber, handler).None?
    ensures AfterSubscribe(b, c, subscriber, handler).eventTypes == b.eventTypes[c.name := c]
    ensures c.name in b.eventTypes ==> b.eventTypes[c.name] == c
  {
  }

  /** The class names in use are the same wherever handlers and obligations are the same. */
  lemma UsedTypes(b: Bus, n: Bus, c: EventClass)
    requires Inv(b) && n.handlers == b.handlers && n.durable == b.durable
    requires c.name in b.eventTypes ==> b.eventTypes[c.name] == c
    requires forall name :: name in n.eventTypes ==>
      name in b.eventTypes[c.name := c] && n.eventTypes[name] == b.eventTypes[c.name := c][name]
    requires forall name :: name in b.eventTypes[c.name := c] ==>
      (name in n.eventTypes <==> HasHandlers(n, name) || HasObligations(n.durable, name))
    ensures n.eventTypes == b.eventTypes <==> (c.name in b.eventTypes || !HasObligations(b.durable, c.name))
  {
    hide HasObligations;
    forall name ensures HasHandlers(n, name) <==> HasHandlers(b, name) {
      SameHandlers(b, n, name);
    }
    assert HasHandlers(b, c.name) ==> c.name in b.eventTypes;
    hide HasHandlers;
    if c.name in b.eventTypes || !HasObligations(b.durable, c.name) {
      assert forall name :: name in n.eventTypes <==> name in b.eventTypes;
    } else {
      assert c.name in n.eventTypes;
    }
  }

  // ---- Delivery ----

  predicate Admits(gate: Option<States>, generation: Option<Generation>) {
    gate.None? || generation.None? || ContributionGate.IsActive(gate.value, generation.value)
  }

  function ObligatedTo(b: Bus, c: EventClass): (r: set<Subscriber>)
    ensures forall sub :: sub in r <==> (c.name, sub) in b.durable || (c, sub) in b.handlers
  {
    (set k | k in b.durable && k.0 == c.name :: k.1) + SubscribersOf(b, c)
  }

  function ActiveHandlers(b: Bus, gate: Option<States>, c: EventClass): (r: set<Subscriber>)
    ensures forall sub :: sub in r <==> (c, sub) in b.handlers && Admits(gate, b.handlers[(c, sub)].generation)
  {
    set sub | sub in SubscribersOf(b, c) && Admits(gate, b.handlers[(c, sub)].generation)
  }

  /** Serve every obligated subscriber, in name order, or ask for redelivery. */
  function DeliverySubscribers(b: Bus, gate: Option<States>, c: EventClass): Option<seq<Subscriber>> {
    var active := ActiveHandlers(b, gate, c);
    if ObligatedTo(b, c) - active != {} then None else Some(Ascending(active))
  }

  function GenerationsOf(b: Bus, c: EventClass, subscribers: seq<Subscriber>): (items: seq<Option<Generation>>)
    requires forall sub :: sub in subscribers ==> (c, sub) in b.handlers
    ensures |items| == |subscribers|
    ensures forall i :: 0 <= i < |items| ==> items[i] == b.handlers[(c, subscribers[i])].generation
  {
    seq(|subscribers|, i requires 0 <= i < |subscribers| => b.handlers[(c, subscribers[i])].generation)
  }

  /** A delivery is admitted when every obligated subscriber is active, and then serves exactly those, in name order. */
  lemma DeliveryServesExactlyTheObligated(b: Bus, gate: Option<States>, c: EventClass)
    ensures
      var r := DeliverySubscribers(b, gate, c);
      && (r.Some? <==> ObligatedTo(b, c) <= ActiveHandlers(b, gate, c))
      && (r.Some? ==>
            && (forall sub :: sub in r.value <==> sub in ObligatedTo(b, c))
            && (forall i, j :: 0 <= i < j < |r.value| ==> r.value[i] < r.value[j]))
  {
    var active, obligated := ActiveHandlers(b, gate, c), ObligatedTo(b, c);
    assert active <= obligated;
    hide ActiveHandlers, ObligatedTo;
    Covers(obligated, active);
  }

  lemma Covers(a: set<Subscriber>, b: set<Subscriber>)
    ensures a - b == {} <==> a <= b
  {
    if a - b == {} {
      forall x | x in a ensures x in b {
        assert x !in a - b;
      }
    }
  }

  lemma ServedAreActive(b: Bus, states: States, c: EventClass, sub: Subscriber)
    requires DeliverySubscribers(b, Some(states), c).Some? && sub in DeliverySubscribers(b, Some(states), c).value
    ensures (c, sub) in b.handlers && Admits(Some(states), b.handlers[(c, sub)].generation)
  {
    hide ObligatedTo;
  }

  /** Every generation an admitted delivery uses is active, so the gate admits them all at once. */
  lemma GateAdmitsDelivery(b: Bus, states: States, c: EventClass)
    requires DeliverySubscribers(b, Some(states), c).Some?
    ensures
      var subscribers := DeliverySubscribers(b, Some(states), c).value;
      && (forall sub :: sub in subscribers ==> (c, sub) in b.handlers)
      && ContributionGate.AllActive(states, ContributionGate.Named(GenerationsOf(b, c, subscribers)))
  {
    var subscribers := DeliverySubscribers(b, Some(states), c).value;
    forall sub | sub in subscribers
      ensures (c, sub) in b.handlers && Admits(Some(states), b.handlers[(c, sub)].generation)
    {
      ServedAreActive(b, states, c, sub);
    }
    hide DeliverySubscribers;
    forall g | g in ContributionGate.Named(GenerationsOf(b, c, subscribers))
      ensures ContributionGate.IsActive(states, g)
    {
      var i :| 0 <= i < |subscribers| && GenerationsOf(b, c, subscribers)[i] == Some(g);
      assert subscribers[i] in subscribers;
    }
  }

  // ---- The bus itself ----

  class Registry {
    var handlers: map<(EventClass, Subscriber), Handler>
    var eventTypes: map<TypeName, EventClass>
    var durable: Obligations

    function Contents(): Bus
      reads this
    {
      Bus(handlers, eventTypes, durable)
    }

    constructor ()
      ensures Contents() == Empty() && Inv(Contents())
    {
      handlers, eventTypes, durable := map[], map[], map[];
    }

    /** Register a handler, or say what it conflicts with. */
    method SubscribeHandler(c: EventClass, subscriber: Subscriber, handler: Handler) returns (r: Result<(), Conflict>)
      requires Inv(Contents())
      modifies this
      ensures Contents() == AfterSubscribe(old(Contents()), c, subscriber, handler) && Inv(Contents())
      ensures r == match SubscribeConflict(old(Contents()), c, subscriber, handler)
                   case None => Ok(())
                   case Some(conflict) => Err(conflict)
    {
      hide Inv;
      SubscribeKeepsInv(Contents(), c, subscriber, handler);
      if c.name in eventTypes && eventTypes[c.name] != c {
        return Err(ClassTaken);
      }
      eventTypes := eventTypes[c.name := c];
      if (c.name, subscriber) in durable && durable[(c.name, subscriber)] != handler.owner {
        return Err(OwnedByAnother);
      }
      if (c, subscriber) in handlers {
        return Err(AlreadySubscribed);
      }
      handlers := handlers[(c, subscriber) := handler];
      r := Ok(());
    }

    /** Whether some registered handler contradicts a declaration. */
    method FindDisagreement(d: Declaration) returns (found: bool)
      ensures found <==> HandlerDisagrees(Contents(), d)
    {
      var entries := handlers.Keys;
      while entries != {}
        invariant entries <= handlers.Keys
        invariant forall k :: k in handlers && k !in entries && k.0.name == d.name && k.1 == d.subscriber ==>
          handlers[k].owner == d.owner
        decreases |entries|
      {
        var k :| k in entries;
        if k.0.name == d.name && k.1 == d.subscriber && handlers[k].owner != d.owner {
          return true;
        }
        entries := entries - {k};
      }
      found := false;
    }

    /** Merge declarations one by one into a copy; install it only when none conflicts. */
    method BindDurable(declarations: seq<Declaration>) returns (r: Result<(), Conflict>)
      requires Inv(Contents())
      modifies this
      ensures Contents() == AfterBind(old(Contents()), declarations) && Inv(Contents())
      ensures r.Ok? <==> Compatible(old(Contents()), declarations)
      ensures r.Err? ==> Contents() == old(Contents())
    {
      hide Inv, Compatible, HandlerDisagrees;
      BindKeepsInv(Contents(), declarations);
      BindDecides(Contents(), declarations);
      var merged := durable;
      for i := 0 to |declarations|
        invariant Contents() == old(Contents()) && BindAll(Contents(), declarations[..i]) == Ok(merged)
      {
        var d := declarations[i];
        assert declarations[..i + 1][..i] == declarations[..i];
        if (d.name, d.subscriber) in merged && merged[(d.name, d.subscriber)] != d.owner {
          BindFailsEarly(Contents(), declarations, i + 1);
          return Err(OwnershipChanged);
        }
        var disagrees := FindDisagreement(d);
        if disagrees {
          BindFailsEarly(Contents(), declarations, i + 1);
          return Err(OwnedByAnother);
        }
        merged := merged[(d.name, d.subscriber) := d.owner];
      }
      assert declarations[..|declarations|] == declarations;
      durable := merged;
      r := Ok(());
    }

    /** Take a generation's handlers of one class out, keeping what a published generation owes. */
    method RemoveFromClass(c: EventClass, g: Generation, published: bool)
      modifies this
      ensures Contents() == RemoveFrom(old(Contents()), g, published, c)
    {
      hide KeptHandlers, Owed, SubscribersOf, HasObligations, RemoveFrom;
      RemoveFromIs(Contents(), g, published, c);
      if published {
        durable := durable + Owed(Contents(), g, c);
      }
      handlers := KeptHandlers(Contents(), g, {c});
      if SubscribersOf(Contents(), c) == {} && !HasObligations(durable, c.name) {
        eventTypes := eventTypes - {c.name};
      }
    }

    /** Take a generation's handlers out, class by class. */
    method RemoveOwnerGeneration(g: Generation, published: bool)
      requires Inv(Contents())
      modifies this
      ensures Contents() == AfterRemove(old(Contents()), g, published) && Inv(Contents())
    {
      hide Inv, RemoveSome, RemoveFrom, Classes;
      ghost var before := Contents();
      RemoveKeepsInv(before, g, published);
      InvOneClass(before);
      VisitNone(before, g, published);
      var left := Classes(Contents());
      while left != {}
        invariant left <= Classes(before)
        invariant Contents() == RemoveSome(before, g, published, Classes(before) - left)
        decreases |left|
      {
        var c :| c in left;
        VisitOne(before, g, published, Classes(before) - left, c);
        assert Classes(before) - left + {c} == Classes(before) - (left - {c});
        RemoveFromClass(c, g, published);
        left := left - {c};
      }
      assert Classes(before) - {} == Classes(before);
    }
  }

  lemma BindDecides(b: Bus, declarations: seq<Declaration>)
    requires Inv(b)
    ensures BindAll(b, declarations).Ok? <==> Compatible(b, declarations)
  {
    BindSucceedsExactlyWhenCompatible(b, declarations);
  }

  lemma {:induction false} BindFailsEarly(b: Bus, declarations: seq<Declaration>, n: nat)
    requires n <= |declarations| && BindAll(b, declarations[..n]).Err?
    ensures BindAll(b, declarations).Err?
    decreases |declarations|
  {
    if n < |declarations| {
      var last := |declarations| - 1;
      assert declarations[..last][..n] == declarations[..n];
      BindFailsEarly(b, declarations[..last], n);
    } else {
      assert declarations[..n] == declarations;
    }
  }

  lemma VisitNone(b: Bus, g: Generation, published: bool)
    ensures RemoveSome(b, g, published, {}) == b
    ensures Classes(b) - Classes(b) == {}
  {
    hide KeptHandlers, DurableAfter, Forgotten, Classes;
    NothingOwed(b, g);
    NothingKeptBack(b, g);
    NothingDurable(b, g, published);
    NothingForgotten(b, g, published);
  }

  lemma NothingOwed(b: Bus, g: Generation)
    ensures OwedBy(b, g, {}) == map[]
  {
  }

  lemma NothingKeptBack(b: Bus, g: Generation)
    ensures KeptHandlers(b, g, {}) == b.handlers
  {
  }

  lemma NothingDurable(b: Bus, g: Generation, published: bool)
    ensures DurableAfter(b, g, published, {}) == b.durable
  {
    NothingOwed(b, g);
    hide OwedBy;
    assert b.durable + map[] == b.durable;
  }

  lemma NothingForgotten(b: Bus, g: Generation, published: bool)
    ensures forall name :: name in b.eventTypes ==> !Forgotten(b, g, published, {}, name)
  {
    hide DurableAfter, HasObligations;
  }

  lemma RemoveFromIs(b: Bus, g: Generation, published: bool, c: EventClass)
    ensures
      var durable := if published then b.durable + Owed(b, g, c) else b.durable;
      var n := b.(handlers := KeptHandlers(b.(durable := durable), g, {c}), durable := durable);
      RemoveFrom(b, g, published, c) ==
        if SubscribersOf(n, c) == {} && !HasObligations(durable, c.name) then n.(eventTypes := n.eventTypes - {c.name})
        else n
  {
    assert forall durable :: KeptHandlers(b.(durable := durable), g, {c}) == KeptHandlers(b, g, {c});
  }
}
