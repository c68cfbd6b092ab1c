/**
 * Entities, zones and chat zones: membership lists kept on both sides,
 * per-entity controllers, and the events each side pushes on its own bus.
 */
module Domain {
  import opened Wrappers
  import opened Json
  import opened EventKinds
  import opened EventQueue
  import opened EventBus
  import opened MessageEvents
  import opened Lists

  /** The controller classes an entity binds implementations to. */
  datatype ControllerClass = ControllerInterface | ChatController | PlayerChatControllerClass | OtherControllerClass(id: nat)

  /** A controller implementation: the player's chat controller, or any other with the interfaces it implements. */
  datatype Controller =
    | PlayerChatController(session: Session)
    | OtherController(id: nat, interfaces: set<ControllerClass>)

  /** The classes a controller's runtime class is assignable to. */
  function Supertypes(impl: Controller): (r: set<ControllerClass>)
    ensures ControllerInterface in r
  {
    match impl
    case PlayerChatController(_) => {ControllerInterface, ChatController, PlayerChatControllerClass}
    case OtherController(id, interfaces) => {ControllerInterface, OtherControllerClass(id)} + interfaces
  }

  /** What setController accepts: a non-null implementation of a subclass of the class. */
  predicate Compatible(c: ControllerClass, impl: Option<Controller>)
  {
    impl.Some? && c in Supertypes(impl.value)
  }

  /** The controller lifecycle callbacks, in the order they are made. */
  datatype Lifecycle = Activated(controller: Controller) | Deactivated(controller: Controller)

  datatype EntityError = IncompatibleController

  /** A plain zone or a chat zone; the class getZoneByType compares. */
  datatype ZoneClass = PlainZone | ChatZoneClass

  /** The event classes a new zone's bus declares, in order. */
  function ZoneKinds(c: ZoneClass): seq<Kind>
  {
    [ZoneEnteredEvent, ZoneExitedEvent] + if c == ChatZoneClass then [ChatZoneExitedEvent, ChatZoneMessageEvent] else []
  }

  function EmptyQueues(kinds: seq<Kind>): (defs: seq<QueueDef>)
    ensures |defs| == |kinds|
    ensures forall i :: 0 <= i < |kinds| ==> defs[i] == QueueDef(kinds[i], [])
  {
    if kinds == [] then [] else [QueueDef(kinds[0], [])] + EmptyQueues(kinds[1..])
  }

  /** One push: the event class and the entries it notified. */
  datatype Fired = Fired(kind: Kind, trace: seq<Entry>)

  /** getZoneByType's search: the first zone of exactly the class. */
  function FirstZoneOfClass(zones: seq<Zone>, c: ZoneClass): (r: Option<Zone>)
    ensures r.Some? ==> r.value in zones && r.value.zoneClass == c
    ensures r.Some? ==> forall j :: 0 <= j < IndexOf(zones, r.value) ==> zones[j].zoneClass != c
    ensures r.None? <==> forall z :: z in zones ==> z.zoneClass != c
  {
    if zones == [] then None
    else if zones[0].zoneClass == c then Some(zones[0])
    else FirstZoneOfClass(zones[1..], c)
  }

  class Entity {
    /** The zones the entity is in, as told by the zones themselves. */
    var zones: seq<Zone>
    var controllers: map<ControllerClass, Controller>
    const bus: EventBus

    constructor()
      ensures zones == [] && controllers == map[]
      ensures bus.Valid() && bus.definitions == [QueueDef(EntityZoneEnteredEvent, []), QueueDef(EntityZoneExitedEvent, [])]
      ensures fresh(bus)
    {
      zones := [];
      controllers := map[];
      var b := new EventBus();
      b.Add(EntityZoneEnteredEvent);
      b.Add(EntityZoneExitedEvent);
      bus := b;
    }

    /** _enteredZone: appends the zone and pushes EntityZoneEnteredEvent. */
    method EnteredZone(z: Zone, run: Entry -> HandlerResult) returns (f: Fired)
      modifies this`zones
      ensures zones == old(zones) + [z]
      ensures f == Fired(EntityZoneEnteredEvent, Delivered(bus.definitions, EntityZoneEnteredEvent, run))
    {
      zones := zones + [z];
      var trace := bus.Push(EntityZoneEnteredEvent, run);
      f := Fired(EntityZoneEnteredEvent, trace);
    }

    /** _exitedZone: also appends the zone, then pushes EntityZoneExitedEvent. */
    method ExitedZone(z: Zone, run: Entry -> HandlerResult) returns (f: Fired)
      modifies this`zones
      ensures zones == old(zones) + [z]
      ensures f == Fired(EntityZoneExitedEvent, Delivered(bus.definitions, EntityZoneExitedEvent, run))
    {
      zones := zones + [z];
      var trace := bus.Push(EntityZoneExitedEvent, run);
      f := Fired(EntityZoneExitedEvent, trace);
    }

    /** getZoneByType: the first zone of exactly the class, or null. */
    method GetZoneByType(c: ZoneClass) returns (r: Option<Zone>)
      ensures r == FirstZoneOfClass(zones, c)
    {
      var i := 0;
      while i < |zones|
        invariant 0 <= i <= |zones|
        invariant FirstZoneOfClass(zones, c) == FirstZoneOfClass(zones[i..], c)
      {
        if zones[i].zoneClass == c {
          return Some(zones[i]);
        }
        assert zones[i..][1..] == zones[i + 1..];
        i := i + 1;
      }
      return None;
    }

    /** getController: the controller bound to the class, or null. */
    function GetController(c: ControllerClass): (r: Option<Controller>)
      reads this
      ensures r.Some? <==> c in controllers
      ensures r.Some? ==> r.value == controllers[c]
    {
      if c in controllers then Some(controllers[c]) else None
    }

    /**
     * setController: refuses a null or incompatible implementation; otherwise
     * deactivates the old controller, binds and activates the new one, and
     * returns the old one.
     */
    method SetController(c: ControllerClass, impl: Option<Controller>)
      returns (r: Result<Option<Controller>, EntityError>, lifecycle: seq<Lifecycle>)
      modifies this`controllers
      ensures !Compatible(c, impl) ==> r == Err(IncompatibleController) && controllers == old(controllers) && lifecycle == []
      ensures Compatible(c, impl) ==>
        && r == Ok(if c in old(controllers) then Some(old(controllers)[c]) else None)
        && controllers == old(controllers)[c := impl.value]
        && lifecycle == (if c in old(controllers) then [Deactivated(old(controllers)[c])] else []) + [Activated(impl.value)]
    {
      if !Compatible(c, impl) {
        return Err(IncompatibleController), [];
      }
      var previous := GetController(c);
      lifecycle := [];
      if previous.Some? {
        lifecycle := [Deactivated(previous.value)];
      }
      controllers := controllers[c := impl.value];
      lifecycle := lifecycle + [Activated(impl.value)];
      r := Ok(previous);
    }

    /**
     * purgeControllers: the loop passes null to setController, so the first
     * bound class already throws; only an entity without controllers gets through.
     */
    method PurgeControllers() returns (r: Outcome<EntityError>)
      modifies this`controllers
      ensures controllers == old(controllers)
      ensures r == if old(controllers) == map[] then Pass else Fail(IncompatibleController)
    {
      if controllers != map[] {
        var k :| k in controllers;
        var res, _ := SetController(k, None);
        return Fail(res.error);
      }
      return Pass;
    }

    /** serialize: an empty object, whatever the target. */
    function SerializeFor(target: Option<Entity>): (r: Json)
      ensures r.JObj? && r.fields == map[]
    {
      JObj(map[])
    }
  }

  class Zone {
    const zoneClass: ZoneClass
    var entities: seq<Entity>
    const bus: EventBus

    /** Zone's constructor declares ZoneEntered and ZoneExited; ChatZone's adds ChatZoneExited and ChatZoneMessage. */
    constructor(zoneClass: ZoneClass)
      ensures this.zoneClass == zoneClass && entities == []
      ensures bus.Valid() && bus.definitions == EmptyQueues(ZoneKinds(zoneClass))
      ensures fresh(bus)
    {
      this.zoneClass := zoneClass;
      entities := [];
      var b := new EventBus();
      b.Add(ZoneEnteredEvent);
      b.Add(ZoneExitedEvent);
      if zoneClass == ChatZoneClass {
        b.Add(ChatZoneExitedEvent);
        b.Add(ChatZoneMessageEvent);
      }
      bus := b;
    }

    /** containsEntity: list membership. */
    predicate ContainsEntity(e: Entity)
      reads this
    {
      e in entities
    }

    /** fireZoneEnteredEvent. */
    method FireZoneEnteredEvent(e: Entity, run: Entry -> HandlerResult) returns (f: Fired)
      ensures f == Fired(ZoneEnteredEvent, Delivered(bus.definitions, ZoneEnteredEvent, run))
    {
      var trace := bus.Push(ZoneEnteredEvent, run);
      f := Fired(ZoneEnteredEvent, trace);
    }

    /** fireZoneExitedEvent: ChatZone overrides it to push a ChatZoneExitedEvent with a null message. */
    method FireZoneExitedEvent(e: Entity, run: Entry -> HandlerResult) returns (f: Fired, message: Option<string>)
      ensures f.kind == (if zoneClass == ChatZoneClass then ChatZoneExitedEvent else ZoneExitedEvent)
      ensures f.trace == Delivered(bus.definitions, f.kind, run)
      ensures message == None
    {
      var kind := if zoneClass == ChatZoneClass then ChatZoneExitedEvent else ZoneExitedEvent;
      var trace := bus.Push(kind, run);
      f := Fired(kind, trace);
      message := None;
    }

    /** addEntity: appends (duplicates allowed), tells the entity, then fires ZoneEnteredEvent. */
    method AddEntity(e: Entity, run: Entry -> HandlerResult) returns (entityFired: Fired, zoneFired: Fired)
      modifies this`entities, e`zones
      ensures entities == old(entities) + [e]
      ensures e.zones == old(e.zones) + [this]
      ensures entityFired == Fired(EntityZoneEnteredEvent, Delivered(e.bus.definitions, EntityZoneEnteredEvent, run))
      ensures zoneFired == Fired(ZoneEnteredEvent, Delivered(bus.definitions, ZoneEnteredEvent, run))
    {
      entities := entities + [e];
      entityFired := e.EnteredZone(this, run);
      zoneFired := FireZoneEnteredEvent(e, run);
    }

    /**
     * removeEntity: removes the first occurrence, tells the entity (which
     * appends this zone), then fires ZoneEnteredEvent, whether or not the
     * entity was a member.
     */
    method RemoveEntity(e: Entity, run: Entry -> HandlerResult) returns (entityFired: Fired, zoneFired: Fired)
      modifies this`entities, e`zones
      ensures entities == RemoveFirst(old(entities), e)
      ensures e.zones == old(e.zones) + [this]
      ensures entityFired == Fired(EntityZoneExitedEvent, Delivered(e.bus.definitions, EntityZoneExitedEvent, run))
      ensures zoneFired == Fired(ZoneEnteredEvent, Delivered(bus.definitions, ZoneEnteredEvent, run))
    {
      entities := RemoveFirst(entities, e);
      entityFired := e.ExitedZone(this, run);
      zoneFired := FireZoneEnteredEvent(e, run);
    }

    /** ChatZone.removeEntity(entity, message): removes, tells the entity, and pushes ChatZoneExitedEvent with the message. */
    method RemoveEntityWithMessage(e: Entity, message: Option<string>, run: Entry -> HandlerResult)
      returns (entityFired: Fired, zoneFired: Fired, sentMessage: Option<string>)
      requires zoneClass == ChatZoneClass
      modifies this`entities, e`zones
      ensures entities == RemoveFirst(old(entities), e)
      ensures e.zones == old(e.zones) + [this]
      ensures entityFired == Fired(EntityZoneExitedEvent, Delivered(e.bus.definitions, EntityZoneExitedEvent, run))
      ensures zoneFired == Fired(ChatZoneExitedEvent, Delivered(bus.definitions, ChatZoneExitedEvent, run))
      ensures sentMessage == message
    {
      entities := RemoveFirst(entities, e);
      entityFired := e.ExitedZone(this, run);
      var trace := bus.Push(ChatZoneExitedEvent, run);
      zoneFired := Fired(ChatZoneExitedEvent, trace);
      sentMessage := message;
    }

    /** ChatZone.chat: pushes one ChatZoneMessageEvent. */
    method Chat(message: string, run: Entry -> HandlerResult) returns (f: Fired)
      requires zoneClass == ChatZoneClass
      ensures f == Fired(ChatZoneMessageEvent, Delivered(bus.definitions, ChatZoneMessageEvent, run))
    {
      var trace := bus.Push(ChatZoneMessageEvent, run);
      f := Fired(ChatZoneMessageEvent, trace);
    }

    /** serializeFor: {"entities": [...]} with each member's (empty) serialization, in list order. */
    function SerializeFor(target: Option<Entity>): (r: Json)
      reads this
      ensures r.JObj? && r.fields.Keys == {"entities"}
      ensures r.fields["entities"].JArr? && |r.fields["entities"].items| == |entities|
      ensures forall i :: 0 <= i < |entities| ==> r.fields["entities"].items[i] == entities[i].SerializeFor(target)
    {
      JObj(map["entities" := JArr(seq(|entities|, i requires 0 <= i < |entities| reads this => entities[i].SerializeFor(target)))])
    }
  }

  /** A zone's serialization does not depend on the target entity. */
  lemma ZoneSerializationIgnoresTarget(z: Zone, a: Option<Entity>, b: Option<Entity>)
    ensures z.SerializeFor(a) == z.SerializeFor(b)
  {
    var ra := z.SerializeFor(a);
    var rb := z.SerializeFor(b);
    assert ra.fields["entities"].items == rb.fields["entities"].items;
    assert ra.fields == rb.fields;
  }

  /**
   * A handler for ZoneExitedEvent registered on a chat zone after its
   * construction also hears every ChatZoneExitedEvent, whatever the other
   * handlers do.
   */
  lemma ZoneExitedHandlerHearsChatExits(after: seq<QueueDef>, o: Receiver, m: Method, priority: int, vetoable: bool,
                                        run: Entry -> HandlerResult)
    requires |m.params| == 1 && m.params[0] == EventParam(ZoneExitedEvent)
    requires Grown(EmptyQueues(ZoneKinds(ChatZoneClass)), after, MethodAdds(o, m, priority, vetoable))
    ensures Entry(o, m, priority, vetoable) in Delivered(after, ZoneExitedEvent, run)
    ensures Entry(o, m, priority, vetoable) in Delivered(after, ChatZoneExitedEvent, run)
  {
    var before := EmptyQueues(ZoneKinds(ChatZoneClass));
    ChatZoneExitQueues();
    HandlerHears(before, after, o, m, priority, vetoable, ZoneExitedEvent, run);
    HandlerHears(before, after, o, m, priority, vetoable, ChatZoneExitedEvent, run);
  }

  /** A handler for ZoneExitedEvent hears every event class it accepts that has a queue. */
  lemma HandlerHears(before: seq<QueueDef>, after: seq<QueueDef>, o: Receiver, m: Method, priority: int, vetoable: bool,
                     kind: Kind, run: Entry -> HandlerResult)
    requires |m.params| == 1 && m.params[0] == EventParam(ZoneExitedEvent) && IsAssignableFrom(ZoneExitedEvent, kind)
    requires Grown(before, after, MethodAdds(o, m, priority, vetoable))
    requires FirstQueue(before, kind).Some?
    ensures Entry(o, m, priority, vetoable) in Delivered(after, kind, run)
  {
    RegisteredEntryNotified(before, after, MethodAdds(o, m, priority, vetoable), kind, run, Entry(o, m, priority, vetoable));
  }

  /** A chat zone declares queues for both exit event classes, and its own exit event is a zone exit. */
  lemma ChatZoneExitQueues()
    ensures IsAssignableFrom(ZoneExitedEvent, ChatZoneExitedEvent)
    ensures FirstQueue(EmptyQueues(ZoneKinds(ChatZoneClass)), ZoneExitedEvent) == Some(1)
    ensures FirstQueue(EmptyQueues(ZoneKinds(ChatZoneClass)), ChatZoneExitedEvent) == Some(2)
  {
    var before := EmptyQueues(ZoneKinds(ChatZoneClass));
    FirstQueueAt(before, ZoneExitedEvent, 1);
    FirstQueueAt(before, ChatZoneExitedEvent, 2);
  }

  /** On a plain zone the same handler hears nothing under ChatZoneExitedEvent: that class has no queue there. */
  lemma PlainZoneHasNoChatExits(defs: seq<QueueDef>, run: Entry -> HandlerResult)
    requires defs == EmptyQueues(ZoneKinds(PlainZone))
    ensures Delivered(defs, ChatZoneExitedEvent, run) == []
  {
    FirstQueueAt(defs, ChatZoneExitedEvent, 2);
  }
}
