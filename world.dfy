/** The world: its zone list, the default zone, and the fixed-rate tick. */
module GameWorld {
  import opened EventKinds
  import opened EventQueue
  import opened EventBus
  import opened Lists
  import opened Domain

  /** The default server tick rate, in milliseconds. */
  const TICK_RATE: int := 15

  /** The payload of a WorldTickEvent. */
  datatype TickEvent = TickEvent(timestamp: int, elapsed: int, tickRate: int, deadline: int)

  /** What a tick does after its push: warn of an overflow, or sleep. */
  datatype Pause = OverflowWarning(diff: int) | Sleep(millis: int)

  /** The end-of-tick test: diff = end - deadline; a negative diff is reported as an overflow, any other is slept. */
  function PauseAfter(end: int, deadline: int): (p: Pause)
    ensures p.OverflowWarning? <==> end < deadline
    ensures p.OverflowWarning? ==> p.diff == end - deadline && p.diff < 0
    ensures p.Sleep? ==> p.millis == end - deadline && p.millis >= 0
  {
    var diff := end - deadline;
    if diff < 0 then OverflowWarning(diff) else Sleep(diff)
  }

  /**
   * The test is the wrong way round: a tick that ends inside its budget is
   * reported as an overflow and not slept, and a late tick sleeps for as long
   * as it overran.
   */
  lemma TickSleepsOnlyWhenLate(timestamp: int, end: int)
    requires timestamp <= end
    ensures end < timestamp + TICK_RATE ==> PauseAfter(end, timestamp + TICK_RATE).OverflowWarning?
    ensures end >= timestamp + TICK_RATE ==> PauseAfter(end, timestamp + TICK_RATE) == Sleep(end - (timestamp + TICK_RATE))
  {
  }

  class World {
    var zones: seq<Zone>
    var defaultZone: Zone
    var lastTick: int
    const bus: EventBus

    /** The world's bus declares WorldTick, ZoneAdded and ZoneRemoved. */
    predicate HasWorldKinds()
      reads this, bus
    {
      bus.definitions == [QueueDef(WorldTickEvent, []), QueueDef(ZoneAddedEvent, []), QueueDef(ZoneRemovedEvent, [])]
    }

    /**
     * The singleton's constructor and initZones: the default zone is one new
     * chat zone, and a second, different chat zone is the only listed zone.
     */
    constructor(run: Entry -> HandlerResult)
      ensures bus.Valid() && HasWorldKinds()
      ensures |zones| == 1 && zones[0] != defaultZone
      ensures zones[0].zoneClass == ChatZoneClass && zones[0].entities == []
      ensures defaultZone.zoneClass == ChatZoneClass && defaultZone.entities == []
      ensures lastTick == 0
      ensures fresh(bus) && fresh(zones[0]) && fresh(defaultZone)
    {
      zones := [];
      lastTick := 0;
      var b := new EventBus();
      b.Add(WorldTickEvent);
      b.Add(ZoneAddedEvent);
      b.Add(ZoneRemovedEvent);
      bus := b;
      defaultZone := new Zone(ChatZoneClass);
      new;
      var first := new Zone(ChatZoneClass);
      var _ := AddZone(first, run);
    }

    /** addZone: appends and pushes ZoneAddedEvent. */
    method AddZone(z: Zone, run: Entry -> HandlerResult) returns (f: Fired)
      modifies this`zones
      ensures zones == old(zones) + [z]
      ensures f == Fired(ZoneAddedEvent, Delivered(bus.definitions, ZoneAddedEvent, run))
    {
      zones := zones + [z];
      var trace := bus.Push(ZoneAddedEvent, run);
      f := Fired(ZoneAddedEvent, trace);
    }

    /** removeZone: removes the first occurrence and pushes ZoneRemovedEvent, even for an absent zone. */
    method RemoveZone(z: Zone, run: Entry -> HandlerResult) returns (f: Fired)
      modifies this`zones
      ensures zones == RemoveFirst(old(zones), z)
      ensures f == Fired(ZoneRemovedEvent, Delivered(bus.definitions, ZoneRemovedEvent, run))
    {
      zones := RemoveFirst(zones, z);
      var trace := bus.Push(ZoneRemovedEvent, run);
      f := Fired(ZoneRemovedEvent, trace);
    }

    /**
     * tick, with the clock read as `timestamp` before the push and as `end`
     * after it: the event's fields, the pause, and the new last tick.
     */
    method Tick(timestamp: int, end: int, run: Entry -> HandlerResult)
      returns (event: TickEvent, trace: seq<Entry>, pause: Pause)
      modifies this`lastTick
      ensures event == TickEvent(timestamp, timestamp - old(lastTick), TICK_RATE, timestamp + TICK_RATE)
      ensures trace == Delivered(bus.definitions, WorldTickEvent, run)
      ensures pause == PauseAfter(end, event.deadline)
      ensures lastTick == timestamp
    {
      var elapsed := timestamp - lastTick;
      var deadline := timestamp + TICK_RATE;
      event := TickEvent(timestamp, elapsed, TICK_RATE, deadline);
      trace := bus.Push(WorldTickEvent, run);
      var diff := end - deadline;
      if diff < 0 {
        pause := OverflowWarning(diff);
      } else {
        pause := Sleep(diff);
      }
      lastTick := timestamp;
    }
  }
}
