/**
 * The event bus: a list of queue definitions, one per declared event class,
 * with registration of handler methods by reflection on their parameter type
 * and delivery of an event to the queue of its exact class.
 */
module EventBus {
  import opened Wrappers
  import opened EventKinds
  import opened EventQueue

  datatype BusError = UnsupportedOperation

  /** getQueueForClass: the first definition whose class is exactly the given one. */
  function FirstQueue(defs: seq<QueueDef>, kind: Kind): (r: Option<nat>)
    ensures r.Some? ==> r.value < |defs| && defs[r.value].eventType == kind
    ensures r.Some? ==> forall j :: 0 <= j < r.value ==> defs[j].eventType != kind
    ensures r.None? ==> forall j :: 0 <= j < |defs| ==> defs[j].eventType != kind
  {
    if defs == [] then None
    else if defs[0].eventType == kind then Some(0)
    else match FirstQueue(defs[1..], kind)
      case None => None
      case Some(i) => Some(i + 1)
  }

  /** The search result is determined by the first matching position, or by there being none. */
  lemma FirstQueueAt(defs: seq<QueueDef>, kind: Kind, i: nat)
    requires i <= |defs|
    requires forall j :: 0 <= j < i ==> defs[j].eventType != kind
    requires i == |defs| || defs[i].eventType == kind
    ensures FirstQueue(defs, kind) == if i == |defs| then None else Some(i)
  {
    var r := FirstQueue(defs, kind);
    if r.Some? {
      assert !(r.value < i);
      assert !(r.value > i);
    }
  }

  /** The entries a push of an event of exactly this class notifies, as written. */
  function Delivered(defs: seq<QueueDef>, kind: Kind, run: Entry -> HandlerResult): seq<Entry>
  {
    match FirstQueue(defs, kind)
    case None => []
    case Some(i) => DeliverAsWritten(defs[i].queue, run)
  }

  /** The same for the priority overload of push. */
  function DeliveredAtLeast(defs: seq<QueueDef>, kind: Kind, min: int, run: Entry -> HandlerResult): seq<Entry>
  {
    match FirstQueue(defs, kind)
    case None => []
    case Some(i) => DeliverAsWritten(AtLeast(defs[i].queue, min), run)
  }

  /** The entries push is documented to notify: the handlers further down than a veto are skipped. */
  function DeliveredIntended(defs: seq<QueueDef>, kind: Kind, run: Entry -> HandlerResult): seq<Entry>
  {
    match FirstQueue(defs, kind)
    case None => []
    case Some(i) => Deliver(defs[i].queue, run)
  }

  /**
   * registerMethod's effect on one queue: a method of exactly one parameter,
   * of an event type that accepts the queue's class, gets one entry.
   */
  function MethodEntries(o: Receiver, m: Method, priority: int, vetoable: bool, kind: Kind): seq<Entry>
  {
    if |m.params| == 1 && m.params[0].EventParam? && IsAssignableFrom(m.params[0].kind, kind)
    then [Entry(o, m, priority, vetoable)]
    else []
  }

  /** registerMethod's effect on every queue, by class. */
  function MethodAdds(o: Receiver, m: Method, priority: int, vetoable: bool): Kind -> seq<Entry>
  {
    k => MethodEntries(o, m, priority, vetoable, k)
  }

  /** register's effect on every queue, by class. */
  function HandlerAdds(o: Receiver, methods: seq<Method>): Kind -> seq<Entry>
  {
    k => HandlerEntries(o, methods, k)
  }

  /** register's effect on one queue: the entries of every @EventHandler method, in method order. */
  function HandlerEntries(o: Receiver, methods: seq<Method>, kind: Kind): seq<Entry>
  {
    if methods == [] then []
    else
      var m := methods[|methods| - 1];
      HandlerEntries(o, methods[..|methods| - 1], kind)
      + match m.annotation
        case None => []
        case Some(h) => MethodEntries(o, m, h.priority, h.vetoable, kind)
  }

  ghost predicate AllSorted(defs: seq<QueueDef>)
  {
    forall i :: 0 <= i < |defs| ==> Sorted(defs[i].queue)
  }

  /**
   * The definitions kept their classes and order; each queue is sorted and
   * holds what it held plus the entries `added` gives for its class.
   */
  ghost predicate Grown(before: seq<QueueDef>, after: seq<QueueDef>, added: Kind -> seq<Entry>)
  {
    && |after| == |before|
    && (forall i :: 0 <= i < |before| ==> after[i].eventType == before[i].eventType)
    && AllSorted(after)
    && (forall i :: 0 <= i < |before| ==>
          multiset(after[i].queue) == multiset(before[i].queue) + multiset(added(before[i].eventType)))
  }

  /** deregister's effect: every entry of the receiver is gone, everything else stays. */
  ghost predicate Pruned(before: seq<QueueDef>, after: seq<QueueDef>, o: Receiver)
  {
    && |after| == |before|
    && (forall i :: 0 <= i < |before| ==> after[i].eventType == before[i].eventType)
    && AllSorted(after)
    && (forall i :: 0 <= i < |before| ==>
          multiset(after[i].queue) == multiset(Without(before[i].queue, o)))
  }

  // ------------------------------------------------------------ properties

  /**
   * A push notifies exactly the queue of the event's class, in priority
   * order; the documented delivery notifies a prefix of those entries.
   */
  lemma DeliveredFromQueue(defs: seq<QueueDef>, kind: Kind, run: Entry -> HandlerResult)
    requires AllSorted(defs)
    ensures Sorted(Delivered(defs, kind, run))
    ensures FirstQueue(defs, kind).None? ==> Delivered(defs, kind, run) == []
    ensures FirstQueue(defs, kind).Some? ==> Delivered(defs, kind, run) == defs[FirstQueue(defs, kind).value].queue
    ensures var t := DeliveredIntended(defs, kind, run);
      Sorted(t) && t == Delivered(defs, kind, run)[..|t|]
  {
    match FirstQueue(defs, kind)
    case None =>
    case Some(i) =>
      AsWrittenNotifiesAll(defs[i].queue, run);
      DeliverPrefix(defs[i].queue, run);
      DeliverInPriorityOrder(defs[i].queue, run);
  }

  /** After deregister(o), no push notifies any entry of o. */
  lemma DeregisteredNeverNotified(before: seq<QueueDef>, after: seq<QueueDef>, o: Receiver, kind: Kind, run: Entry -> HandlerResult)
    requires Pruned(before, after, o)
    ensures forall e :: e in Delivered(after, kind, run) ==> e.receiver != o
  {
    DeliveredFromQueue(after, kind, run);
    match FirstQueue(after, kind)
    case None =>
    case Some(i) =>
      forall e | e in Delivered(after, kind, run) ensures e.receiver != o {
        assert e in multiset(after[i].queue);
        assert e in Without(before[i].queue, o);
      }
  }

  predicate Distinct(methods: seq<Method>)
  {
    forall i, j :: 0 <= i < j < |methods| ==> methods[i] != methods[j]
  }

  /** Each method contributes at most one entry to a queue, and only an entry for itself. */
  lemma {:induction false} HandlerEntriesAtMostOnce(o: Receiver, methods: seq<Method>, kind: Kind, e: Entry)
    requires Distinct(methods)
    ensures multiset(HandlerEntries(o, methods, kind))[e] <= 1
    ensures e.handler !in methods ==> multiset(HandlerEntries(o, methods, kind))[e] == 0
  {
    if methods != [] {
      var init := methods[..|methods| - 1];
      var m := methods[|methods| - 1];
      assert Distinct(init);
      HandlerEntriesAtMostOnce(o, init, kind, e);
      var last := match m.annotation
        case None => []
        case Some(h) => MethodEntries(o, m, h.priority, h.vetoable, kind);
      assert HandlerEntries(o, methods, kind) == HandlerEntries(o, init, kind) + last;
      assert multiset(HandlerEntries(o, methods, kind))[e] == multiset(HandlerEntries(o, init, kind))[e] + multiset(last)[e];
      assert |last| <= 1 && (last != [] ==> last[0].handler == m);
      if e.handler == m {
        assert e.handler !in init;
      } else {
        assert multiset(last)[e] == 0;
      }
    }
  }

  /**
   * Registering an object that had no entries, with each of its methods once,
   * notifies each entry of it at most once per push, however many of the
   * declared classes its parameter type accepts.
   */
  lemma AtMostOncePerPush(before: seq<QueueDef>, after: seq<QueueDef>, o: Receiver, methods: seq<Method>,
                          kind: Kind, run: Entry -> HandlerResult, e: Entry)
    requires forall i, x :: 0 <= i < |before| && x in before[i].queue ==> x.receiver != o
    requires Distinct(methods)
    requires Grown(before, after, HandlerAdds(o, methods))
    requires e.receiver == o
    ensures multiset(Delivered(after, kind, run))[e] <= 1
  {
    DeliveredFromQueue(after, kind, run);
    match FirstQueue(after, kind)
    case None =>
    case Some(i) =>
      assert e !in before[i].queue;
      HandlerEntriesAtMostOnce(o, methods, kind, e);
      assert after[i].eventType == kind;
  }

  /**
   * Every entry registered for the pushed class is notified, whatever the
   * handlers do; in the documented delivery, the same holds when no handler vetoes.
   */
  lemma RegisteredEntryNotified(before: seq<QueueDef>, after: seq<QueueDef>, added: Kind -> seq<Entry>,
                                kind: Kind, run: Entry -> HandlerResult, e: Entry)
    requires Grown(before, after, added)
    requires FirstQueue(before, kind).Some?
    requires e in added(kind)
    ensures e in Delivered(after, kind, run)
    ensures (forall x :: run(x) != Vetoed) ==> e in DeliveredIntended(after, kind, run)
  {
    var i := FirstQueue(before, kind).value;
    FirstQueueAt(after, kind, i);
    AsWrittenNotifiesAll(after[i].queue, run);
    assert e in multiset(after[i].queue);
    if forall x :: run(x) != Vetoed {
      NoVetoDeliversAll(after[i].queue, run);
    }
  }

  /** A class declared after registration starts with an empty queue: registration does not reach it. */
  lemma LateClassNotifiesNothing(defs: seq<QueueDef>, kind: Kind, run: Entry -> HandlerResult)
    requires FirstQueue(defs, kind).None?
    ensures Delivered(defs + [QueueDef(kind, [])], kind, run) == []
  {
    FirstQueueAt(defs + [QueueDef(kind, [])], kind, |defs|);
  }

  /** Before any method is registered, the queues have grown by nothing. */
  lemma NothingRegistered(defs: seq<QueueDef>, o: Receiver)
    requires AllSorted(defs)
    ensures Grown(defs, defs, HandlerAdds(o, []))
  {
    forall i | 0 <= i < |defs|
      ensures multiset(defs[i].queue) == multiset(defs[i].queue) + multiset(HandlerEntries(o, [], defs[i].eventType))
    {
      assert HandlerEntries(o, [], defs[i].eventType) == [];
    }
  }

  /** Registering one more method extends what the earlier ones added by that method's entries. */
  lemma RegisterStep(start: seq<QueueDef>, mid: seq<QueueDef>, after: seq<QueueDef>, o: Receiver, methods: seq<Method>, n: nat)
    requires n < |methods|
    requires Grown(start, mid, HandlerAdds(o, methods[..n]))
    requires methods[n].annotation.Some? ==>
      Grown(mid, after, MethodAdds(o, methods[n], methods[n].annotation.value.priority, methods[n].annotation.value.vetoable))
    requires methods[n].annotation.None? ==> after == mid
    ensures Grown(start, after, HandlerAdds(o, methods[..n + 1]))
  {
    var m := methods[n];
    assert methods[..n + 1][..n] == methods[..n];
    forall i | 0 <= i < |start|
      ensures multiset(after[i].queue)
           == multiset(start[i].queue) + multiset(HandlerEntries(o, methods[..n + 1], start[i].eventType))
    {
      var kind := start[i].eventType;
      var earlier := HandlerEntries(o, methods[..n], kind);
      assert multiset(mid[i].queue) == multiset(start[i].queue) + multiset(earlier);
      match m.annotation
      case None =>
        assert HandlerEntries(o, methods[..n + 1], kind) == earlier + [];
      case Some(h) =>
        var added := MethodEntries(o, m, h.priority, h.vetoable, kind);
        assert HandlerEntries(o, methods[..n + 1], kind) == earlier + added;
        assert multiset(after[i].queue) == multiset(mid[i].queue) + multiset(added);
    }
  }

  /** One queue part way through registration: its class is kept, and it has grown by `added` once visited. */
  predicate Slot(was: QueueDef, now: QueueDef, visited: bool, added: seq<Entry>)
  {
    && now.eventType == was.eventType
    && if visited then multiset(now.queue) == multiset(was.queue) + multiset(added) else now == was
  }

  class EventBus {
    var definitions: seq<QueueDef>
    var client: EventBusClient?

    ghost predicate Valid()
      reads this
    {
      AllSorted(definitions)
    }

    /** A new bus has no event classes and one client bound to it. */
    constructor()
      ensures Valid() && definitions == []
      ensures client != null && fresh(client) && client.bus == this
    {
      definitions := [];
      new;
      client := new EventBusClient(this);
    }

    /** add: declares an event class with a new, empty queue (duplicates are allowed). */
    method Add(kind: Kind)
      requires Valid()
      modifies this`definitions
      ensures Valid()
      ensures definitions == old(definitions) + [QueueDef(kind, [])]
    {
      definitions := definitions + [QueueDef(kind, [])];
    }

    /** getQueueForClass: the index of the first definition for exactly this class. */
    method GetQueueForClass(kind: Kind) returns (r: Option<nat>)
      ensures r == FirstQueue(definitions, kind)
    {
      var i := 0;
      while i < |definitions|
        invariant 0 <= i <= |definitions|
        invariant forall j :: 0 <= j < i ==> definitions[j].eventType != kind
      {
        if definitions[i].eventType == kind {
          FirstQueueAt(definitions, kind, i);
          return Some(i);
        }
        i := i + 1;
      }
      FirstQueueAt(definitions, kind, i);
      return None;
    }

    /** remove: drops the first definition for exactly this class, if any. */
    method Remove(kind: Kind)
      requires Valid()
      modifies this`definitions
      ensures Valid()
      ensures definitions == match FirstQueue(old(definitions), kind)
        case None => old(definitions)
        case Some(i) => old(definitions)[..i] + old(definitions)[i + 1..]
    {
      var r := GetQueueForClass(kind);
      if r.Some? {
        var i := r.value;
        definitions := definitions[..i] + definitions[i + 1..];
      }
    }
    /**
     * push: notifies the queue of the event's exact class, every entry of it
     * in order, since notify never lets a veto through; a class without a
     * queue is ignored.
     */
    method Push(kind: Kind, run: Entry -> HandlerResult) returns (trace: seq<Entry>)
      ensures trace == Delivered(definitions, kind, run)
      ensures FirstQueue(definitions, kind).None? ==> trace == []
      ensures FirstQueue(definitions, kind).Some? ==> trace == definitions[FirstQueue(definitions, kind).value].queue
    {
      var r := GetQueueForClass(kind);
      trace := [];
      if r.Some? {
        trace := PushQueue(definitions[r.value], run);
        AsWrittenNotifiesAll(definitions[r.value].queue, run);
      }
    }

    /** push(event, priority): as push, notifying only entries of at least that priority. */
    method PushAtLeast(kind: Kind, min: int, run: Entry -> HandlerResult) returns (trace: seq<Entry>)
      ensures trace == DeliveredAtLeast(definitions, kind, min, run)
      ensures FirstQueue(definitions, kind).None? ==> trace == []
      ensures FirstQueue(definitions, kind).Some? ==> trace == AtLeast(definitions[FirstQueue(definitions, kind).value].queue, min)
    {
      var r := GetQueueForClass(kind);
      trace := [];
      if r.Some? {
        trace := PushQueueAtLeast(definitions[r.value], min, run);
        AsWrittenNotifiesAll(AtLeast(definitions[r.value].queue, min), run);
      }
    }

    /**
     * registerMethod: a method with one Event-typed parameter gets an entry in
     * every queue whose class that parameter accepts; any other method is ignored.
     */
    method RegisterMethod(o: Receiver, m: Method, priority: int, vetoable: bool)
      requires Valid()
      modifies this`definitions
      ensures Valid()
      ensures Grown(old(definitions), definitions, MethodAdds(o, m, priority, vetoable))
    {
      if |m.params| != 1 {
        return;
      }
      var param := m.params[0];
      if !param.EventParam? {
        return;
      }
      var entry := Entry(o, m, priority, vetoable);
      ghost var before := definitions;
      var i := 0;
      while i < |definitions|
        invariant 0 <= i <= |definitions| == |before|
        invariant AllSorted(definitions)
        invariant forall j :: 0 <= j < |definitions| ==>
          Slot(before[j], definitions[j], j < i, MethodEntries(o, m, priority, vetoable, before[j].eventType))
      {
        var d := definitions[i];
        if IsAssignableFrom(param.kind, d.eventType) {
          definitions := definitions[i := QueueDef(d.eventType, InsertSorted(d.queue, entry))];
        }
        i := i + 1;
      }
    }

    /** register: registers every method carrying @EventHandler with its priority and vetoable flag. */
    method Register(o: Receiver, methods: seq<Method>)
      requires Valid()
      modifies this`definitions
      ensures Valid()
      ensures Grown(old(definitions), definitions, HandlerAdds(o, methods))
    {
      var n := 0;
      assert methods[..0] == [];
      NothingRegistered(definitions, o);
      while n < |methods|
        invariant 0 <= n <= |methods|
        invariant Valid()
        invariant Grown(old(definitions), definitions, HandlerAdds(o, methods[..n]))
      {
        var m := methods[n];
        ghost var mid := definitions;
        if m.annotation.Some? {
          RegisterMethod(o, m, m.annotation.value.priority, m.annotation.value.vetoable);
        }
        RegisterStep(old(definitions), mid, definitions, o, methods, n);
        n := n + 1;
      }
      assert methods[..n] == methods;
    }

    /** deregister: removes every entry whose receiver is the given object, from every queue. */
    method Deregister(o: Receiver)
      requires Valid()
      modifies this`definitions
      ensures Valid()
      ensures Pruned(old(definitions), definitions, o)
    {
      var i := 0;
      while i < |definitions|
        invariant 0 <= i <= |definitions| == |old(definitions)|
        invariant AllSorted(definitions)
        invariant forall j :: 0 <= j < |definitions| ==> definitions[j].eventType == old(definitions)[j].eventType
        invariant forall j :: 0 <= j < i ==> definitions[j].queue == Without(old(definitions)[j].queue, o)
        invariant forall j :: i <= j < |definitions| ==> definitions[j] == old(definitions)[j]
      {
        var d := definitions[i];
        WithoutSorted(d.queue, o);
        definitions := definitions[i := QueueDef(d.eventType, Without(d.queue, o))];
        i := i + 1;
      }
    }
  }

  /** The handle given to code that may register handlers but not declare classes or push. */
  class EventBusClient {
    const bus: EventBus

    constructor(bus: EventBus)
      ensures this.bus == bus
    {
      this.bus := bus;
    }

    /** register: exactly the bus's own registration. */
    method Register(o: Receiver, methods: seq<Method>)
      requires bus.Valid()
      modifies bus`definitions
      ensures bus.Valid()
      ensures Grown(old(bus.definitions), bus.definitions, HandlerAdds(o, methods))
    {
      bus.Register(o, methods);
    }

    /** deregister is not supported through the client and removes nothing. */
    method Deregister(o: Receiver) returns (r: Outcome<BusError>)
      ensures r == Fail(UnsupportedOperation)
    {
      r := Fail(UnsupportedOperation);
    }
  }
}
