/** The delivery protocol's registrations, as the event bus and the gate hold them. */
module BusDelivery {
  import opened Wrappers
  import opened EventBus
  import Delivery = EventDelivery

  function NamesOwed(b: Bus): (names: set<TypeName>)
    ensures forall name :: name in names <==> exists sub :: (name, sub) in b.durable
  {
    set k | k in b.durable :: k.0
  }

  function OwedUnder(b: Bus, name: TypeName): (subscribers: set<Subscriber>)
    ensures forall sub :: sub in subscribers <==> (name, sub) in b.durable
  {
    set k | k in b.durable && k.0 == name :: k.1
  }

  /** What a delivery sees of a bus, by event name. */
  function RegistrationsOf(b: Bus, gate: Option<States>): Delivery.Registrations {
    Delivery.Registrations(
      map name | name in NamesOwed(b) :: OwedUnder(b, name),
      map name | name in b.eventTypes :: SubscribersOf(b, b.eventTypes[name]),
      map name | name in b.eventTypes :: ActiveHandlers(b, gate, b.eventTypes[name]))
  }

  lemma ObligatedAgrees(b: Bus, gate: Option<States>, c: EventClass)
    requires c.name in b.eventTypes && b.eventTypes[c.name] == c
    ensures Delivery.Obligated(RegistrationsOf(b, gate), c.name) == ObligatedTo(b, c)
    ensures Delivery.Active(RegistrationsOf(b, gate), c.name) == ActiveHandlers(b, gate, c)
  {
    var r := RegistrationsOf(b, gate);
    assert forall sub :: sub in Delivery.Named(r.durable, c.name) <==> (c.name, sub) in b.durable;
    assert Delivery.Named(r.handlers, c.name) == SubscribersOf(b, c);
  }

  /** The protocol admits a delivery exactly as the bus does, for the same subscribers in the same order. */
  lemma AdmissionIsTheBuses(s: Delivery.State, d: Delivery.DeliveryId, b: Bus, gate: Option<States>, c: EventClass)
    requires c.name in b.eventTypes && b.eventTypes[c.name] == c
    requires Delivery.InStage(s, d) && s.inbox.deliveries[d].stage.Verified?
    requires Delivery.EventOf(s, d).typeName == c.name && s.registrations == RegistrationsOf(b, gate)
    ensures Delivery.Next(s, Delivery.Admit(d)) ==
      match DeliverySubscribers(b, gate, c)
      case None => Delivery.Drop(s, d)
      case Some(subscribers) =>
        Delivery.SetStage(s, d, Delivery.Serving(subscribers, ObligatedTo(b, c), 0, Delivery.Transaction(false, false)))
  {
    ObligatedAgrees(b, gate, c);
    DeliveryServesExactlyTheObligated(b, gate, c);
    Delivery.AdmitIs(s, d);
    hide ObligatedTo, ActiveHandlers, RegistrationsOf;
  }
}
