# letscode game server and client core, modelled in Dafny

This project models the core of the letscode game: the Java server's event bus,
its message routing and request/response correlation, its outgoing envelopes,
the world, zone and entity membership, the player adapter and the static
quadtree. It also models parts of the browser client: the colour type, the
connection's listener filter, request messages, the authentication reply and
`Array.prototype.remove`. Each file is one Dafny module, and every contract is
proved by the verifier.

| file | module | what it models |
|---|---|---|
| wrappers.dfy | Wrappers | `Option` for Java `null` and JavaScript `undefined`; `Result` and `Outcome` for thrown exceptions |
| text.dfy | Text | decimal and hexadecimal number text (`Long.toString`, `Number.prototype.toString`) |
| json.dfy | Json | JSON values as Jackson's `JsonNode` and `JSON.parse` expose them; stringified field lists |
| lists.dfy | Lists | `indexOf` and first-occurrence `remove` on Java lists |
| eventkinds.dfy | EventKinds | the event classes, their superclass links and `isAssignableFrom` |
| eventqueue.dfy | EventQueue | `EventQueueEntry` (ordering, `notify`, `equals`/`hashCode`) and `EventQueueDefinition` (the delivery loop) |
| eventbus.dfy | EventBus | `EventBus` (add, remove, push, register, deregister) and `EventBusClient` |
| messageevents.dfy | MessageEvents | field validation and the chat, login and registration message events |
| handlers.dfy | Handlers | the message, request and response handler factories |
| requests.dfy | Requests | `Request`, `RequestRegistry`, `RequestMonitor`, the request and response dispatchers, `AuthenticationRequest` |
| dispatcher.dfy | Dispatcher | `MessageDispatcher`, plus one `Services` object holding the singletons |
| envelopes.dfy | Envelopes | `Notification`, `OutgoingMessage` and `StateChangeMessage` serialization |
| domain.dfy | Domain | `Entity`, `Zone` and `ChatZone` membership, controllers and zone events |
| world.dfy | GameWorld | `World`: zones, the default zone and the tick arithmetic |
| playeradapter.dfy | Players | `PlayerAdapter` and its default controllers |
| geometry.dfy | Geometry | `Point2D`, `Boundry2D` and the quadrant successor |
| quadtree.dfy | QuadTrees | `QuadTree` insert, remove, prune, update, `isEmpty` and its iterator |
| color.dfy | Colors | the client `Color` on its integer paths |
| jsarray.dfy | JsArrays | the client's `Array.prototype.remove(from, to)` |
| connection.dfy | Connections | the client `Connection`: status and listener filtering |
| clientrequest.dfy | ClientRequests | the client `RequestMessage` and `AuthenticationResponse` |
| scenarios.dfy | Scenarios | properties that span the server and the client |

## How the model is built

- **Mutable objects are classes.** This covers the bus, queues held by the
  bus, factories, the registry, dispatchers, notifications, entities, zones,
  the world, the player adapter, the quadtree and its iterator, and the
  client's connection, request and array objects. Their methods state the
  whole new state.
- **Pure computations are functions.** This covers field validation,
  serializers, colour packing, geometry and the quadtree's node algebra. Each
  is paired with lemmas: round trips, injectivity, or agreement with an
  intended reference definition.
- **Reflection becomes explicit tables.** Classpath scanning, annotations and
  `getClass()` are replaced by explicit values: annotation bindings, a `Kind`
  per event class, and a `Method` value per handler method with its parameter
  types and optional `@EventHandler` annotation.
- **Handler runs are inputs.** A handler's run is an input function from
  entry to `Handled | Vetoed | Failed`. A push returns the trace of entries it
  notified. The exception a handler throws, and the wrapping `Method.invoke`
  adds, are written out as values. In the same way, what each client
  callback, client response listener and server request listener does is an
  input: it returns, or it throws, and a throw ends the loop that called it.
- **Java `int` is modelled explicitly.** Arithmetic is written out where it
  can wrap (`Wrap32`, as in `compareTo`), and JavaScript bitwise operators
  work on `bv32`.
- **Coordinates are reals.** Quadtree coordinates are exact reals, an
  idealisation of Java `double`; they enter only through comparisons and
  halving.
- **Outside inputs are parameters.** The clock, sleeping, `Math.random`,
  UUIDs and `HashMap` iteration order are passed in as parameters.

### Where the code differs from its own documentation

- **Veto.**
  - The documentation (`EventBus.java:33-36`, `:93-96`): a handler that
    throws `EventVetoException` causes the handlers after it to be skipped.
  - The code: `EventQueueEntry.notify` calls the handler through
    `Method.invoke`, which wraps the veto in `InvocationTargetException`.
    The `catch (EventVetoException)` at `EventQueueEntry.java:50-52` never
    matches, the general catch logs the exception, and the `break` at
    `EventQueueDefinition.java:32-35` is never reached. Every handler is
    notified.
  - The model states the push as written (`DeliverAsWritten`, used by the
    bus) and, as a finding, the documented delivery that stops after the
    first veto (`Deliver`). Neither reads the stored `vetoable` flag; the
    code never reads it either.
- **Delivery order.**
  - The documentation (`EventPriority.java:4-5`, `EventBus.java:29-32`):
    handlers of higher priority are notified first.
  - The code: the queue is a `java.util.PriorityQueue`, whose iterator is not
    sorted.
  - The model keeps each queue sorted. It claims no order among equal
    priorities and records the heap order as a finding.
- **Tick.**
  - The comment at `World.java:115` says the tick sleeps the remaining time.
  - The code (`World.java:109-122`) computes `end - deadline`, the overrun.
    An early tick is logged as an overflow, and a late tick sleeps for its
    overrun. The model follows the code.
- **Quadrant of a point on an axis.**
  - The javadoc at `Point2D.java:40-44` says a zero coordinate favours north
    on the y axis and west on the x axis.
  - The code (`Point2D.java:48-62`) tests `x >= 0`, so a zero x goes east.
    The model (`Geometry.QuadrantOf`) follows the code.

### Other behaviour the model takes from the code

- **Vetoable is an input.** `EventHandler` declares no `vetoable` element,
  although `EventBus.java:188` reads one. The model takes it as part of the
  annotation value.
- **Empty chat text.** `ChatMessageEvent` reads `text` by `asText` with no
  non-empty check, so `""` is accepted.
- **Client deregistration.** `EventBusClient.deregister` always throws
  `UnsupportedOperationException`. Only the bus's own `deregister` removes
  entries.
- **Declared events.** The message dispatcher's bus declares only
  `ChatMessageEvent`, so pushing a login or registration event is a no-op.
- **Request monitor.** `RequestMonitor` carries no `@EventHandler` method, so
  registering it fills nothing on the bus.
- **Tick rate.** The tick rate is the configuration default, 15
  milliseconds.

One operation is modelled from its documentation rather than its code:
`push(event, priority)` (`EventBus.java:110-124`) calls an overload that
`EventQueueDefinition` does not have. The model notifies only entries with
priority at least the minimum, as its comment says.

Other source behaviour kept literally:

- `Entity._exitedZone` appends the zone instead of removing it.
- `Zone.removeEntity` fires a zone-*entered* event.
- `purgeControllers` throws.
- The world's default zone is not the zone `initZones` puts in the zone list.
- In the client colour, alpha is taken from the red byte.
- `AuthenticationRequest` passes the e-mail where `handleRegister` takes the password, and the password where it takes the e-mail.
- In the quadtree:
  - the iterator never visits SOUTHEAST;
  - the root's iterator yields nothing;
  - remove through an indirect parent does nothing;
  - remove and update prune as written, so in a tree of maximum depth 3 or
    more they throw after the item has left its list, and update does not
    reinsert it.

## Model

| member | source | states |
|---|---|---|
| EventKinds.AssignableReflexive | src/main/java/net/letscode/game/event/EventBus.java:168-170 | a handler whose parameter is exactly an event class is added to that class's own queue |
| EventKinds.AssignableTransitive | src/main/java/net/letscode/game/event/EventBus.java:163-170 | isAssignableFrom composes along the class hierarchy, so a handler for a superclass reaches the queues of every descendant |
| EventKinds.AssignableAntisymmetric | src/main/java/net/letscode/game/event/EventBus.java:163-170 | two event classes each assignable from the other are the same class |
| EventKinds.EventIsRoot | src/main/java/net/letscode/game/event/EventBus.java:157-161 | every event class of the game passes the "is an Event" test |
| EventQueue.NotifyNeverVetoes | src/main/java/net/letscode/game/event/EventQueueEntry.java:47-57 | as written, notify always returns normally: a vetoing handler's exception reaches it wrapped in InvocationTargetException, which the veto catch does not match, so the general catch logs it |
| EventQueue.Thrown | src/main/java/net/letscode/game/event/EventQueueEntry.java:49 | a handler throws nothing exactly when it handled the event, and EventVetoException exactly when it vetoed |
| EventQueue.Invoke | src/main/java/net/letscode/game/event/EventQueueEntry.java:49 | Method.invoke throws exactly when the handler did, always an InvocationTargetException whose cause is the handler's exception |
| EventQueue.NotifyIntended | src/main/java/net/letscode/game/event/EventQueueEntry.java:50-57 | the intended notify, unwrapping the cause: a veto reaches the queue exactly when the handler vetoed; any other failure is swallowed |
| EventQueue.Compare | src/main/java/net/letscode/game/event/EventQueueEntry.java:35-38 | the intended entry order: negative, zero or positive exactly when this entry's priority is higher, equal or lower |
| EventQueue.CompareToOverflows | src/main/java/net/letscode/game/event/EventQueueEntry.java:36-38 | with priorities -2 and Integer.MAX_VALUE the wrapped subtraction gives the opposite sign to the intended order |
| EventQueue.CompareToAgreesInRange | src/main/java/net/letscode/game/event/EventQueueEntry.java:36-38 | whenever the priority difference fits in an int, compareTo as written and the intended order agree in sign and on ties |
| EventQueue.HashCode | src/main/java/net/letscode/game/event/EventQueueEntry.java:60-68 | the hash is always a Java int |
| EventQueue.HashCodePolynomial | src/main/java/net/letscode/game/event/EventQueueEntry.java:61-68 | the step-by-step wrapped hash equals the base-79 polynomial 7, receiver hash, method hash, priority, vetoable bit, wrapped once |
| EventQueue.InsertSorted | src/main/java/net/letscode/game/event/EventBus.java:170 | adding an entry keeps the queue in non-increasing priority order and adds exactly that entry (multiset) |
| EventQueue.SortedInserts | src/main/java/net/letscode/game/event/EventPriority.java:4-5 | entries of rising priority are queued highest first |
| EventQueue.SiftUp | src/main/java/net/letscode/game/event/EventQueueDefinition.java:23 | the JDK heap's sift-up keeps the array's length and swaps in the key for the displaced slot (multiset) |
| EventQueue.HeapOffer | src/main/java/net/letscode/game/event/EventBus.java:170 | PriorityQueue.add leaves a heap array holding the old entries plus the new one |
| EventQueue.HeapIterationOutOfOrder | src/main/java/net/letscode/game/event/EventQueueDefinition.java:26-27 | handlers of priority NORMAL, HIGH, HIGHER added in that order are iterated HIGHER, NORMAL, HIGH, which is not priority order |
| EventQueue.DeliverAsWritten | src/main/java/net/letscode/game/event/EventQueueDefinition.java:26-37 | the delivery loop as written notifies at most as many entries as the queue holds |
| EventQueue.AsWrittenNotifiesAll | src/main/java/net/letscode/game/event/EventQueueDefinition.java:26-37 | as written, a push notifies every entry of the queue in iteration order, whatever the handlers do |
| EventQueue.VetoSwallowed | src/main/java/net/letscode/game/event/EventQueueEntry.java:47-57 | a queue whose first handler vetoes and which holds a second entry: as written both are notified, the documented behaviour notifies only the first |
| EventQueue.AsWrittenAgrees | src/main/java/net/letscode/game/event/EventQueueDefinition.java:26-37 | the delivery as written and the documented one agree exactly when no handler but possibly the last vetoes |
| EventQueue.Deliver | src/main/java/net/letscode/game/event/EventBus.java:93-96 | the documented delivery, stopping after a veto, notifies at most as many entries as the queue holds |
| EventQueue.AtLeast | src/main/java/net/letscode/game/event/EventBus.java:110-124 | the priority push considers only entries of at least the given priority |
| EventQueue.Without | src/main/java/net/letscode/game/event/EventBus.java:200-217 | after deregistering an object no entry of its remains in a queue |
| EventQueue.WithoutKeepsOthers | src/main/java/net/letscode/game/event/EventBus.java:207-215 | every entry of another object survives deregistration as many times as it occurred |
| EventQueue.WithoutSorted | src/main/java/net/letscode/game/event/EventBus.java:200-217 | deregistration keeps each queue in priority order and adds no entry |
| EventQueue.PushQueue | src/main/java/net/letscode/game/event/EventQueueDefinition.java:26-37 | the delivery loop notifies exactly the entries DeliverAsWritten names, in order |
| EventQueue.PushQueueAtLeast | src/main/java/net/letscode/game/event/EventBus.java:119-124 | the priority loop notifies exactly the as-written delivery of the entries of at least that priority |
| EventQueue.DeliverPrefix | src/main/java/net/letscode/game/event/EventBus.java:93-96 | the documented delivery notifies a prefix of the queue; no entry before the last notified one vetoed; it stops only at the end or on a veto |
| EventQueue.DeliverUnique | src/main/java/net/letscode/game/event/EventBus.java:93-96 | conversely, the prefix ending at the first veto (or the whole queue) is what the documented delivery notifies |
| EventQueue.NoVetoDeliversAll | src/main/java/net/letscode/game/event/EventBus.java:93-96 | without a veto the documented delivery notifies every entry, failing handlers included |
| EventQueue.VetoStops | src/main/java/net/letscode/game/event/EventBus.java:93-96 | in the documented delivery a veto at position k ends delivery after entry k, whatever the entry's vetoable flag says |
| EventQueue.DeliverInPriorityOrder | src/main/java/net/letscode/game/event/EventPriority.java:4-5 | in the intended queue the notified entries come in non-increasing priority and are drawn from the queue |
| EventQueue.HigherNotifiedFirst | src/main/java/net/letscode/game/event/EventBus.java:93-96 | in the intended queue, every entry of strictly higher priority than a notified entry came before it |
| EventQueue.AtLeastIsPrefix | src/main/java/net/letscode/game/event/EventBus.java:110-118 | in a sorted queue the entries of at least a priority are a prefix, and every later entry is below it |
| EventQueue.Wrap32 | src/main/java/net/letscode/game/event/EventQueueEntry.java:36-37 | Java's 32-bit int subtraction: the result is always a 32-bit int, and equals the exact value whenever that is in range |
| EventBus.FirstQueue | src/main/java/net/letscode/game/event/EventBus.java:73-81 | the result is the first definition of exactly the given class, none before it matches, and None means no definition matches |
| EventBus.FirstQueueAt | src/main/java/net/letscode/game/event/EventBus.java:73-81 | the first matching position, or its absence, determines the search result |
| EventBus.DeliveredFromQueue | src/main/java/net/letscode/game/event/EventBus.java:92-108 | a push notifies exactly the queue of the event's exact class (nobody without one); the documented delivery is a prefix of it, in priority order |
| EventBus.DeregisteredNeverNotified | src/main/java/net/letscode/game/event/EventBus.java:195-217 | after deregister(o), no push notifies any entry of o |
| EventBus.HandlerEntriesAtMostOnce | src/main/java/net/letscode/game/event/EventBus.java:182-193 | registering distinct methods adds each entry at most once to a queue, and only entries for those methods |
| EventBus.AtMostOncePerPush | src/main/java/net/letscode/game/event/EventBus.java:163-173 | a handler registered into the queues of several superclasses is still notified at most once per push |
| EventBus.RegisteredEntryNotified | src/main/java/net/letscode/game/event/EventBus.java:93-108 | every entry registered for the pushed class is notified; under the documented delivery too when nobody vetoes |
| EventBus.LateClassNotifiesNothing | src/main/java/net/letscode/game/event/EventBus.java:56-64 | a class declared after registration has an empty queue: pushing it notifies nobody |
| EventBus.EventBus.constructor | src/main/java/net/letscode/game/event/EventBus.java:50-54 | a new bus has no definitions and a fresh client bound to it |
| EventBus.EventBus.Add | src/main/java/net/letscode/game/event/EventBus.java:62-64 | a new empty queue for the class is appended; duplicates are allowed |
| EventBus.EventBus.GetQueueForClass | src/main/java/net/letscode/game/event/EventBus.java:73-81 | the loop returns the first exact match, or None (null) |
| EventBus.EventBus.Remove | src/main/java/net/letscode/game/event/EventBus.java:88-90 | the first definition of the class is dropped; with none the definitions are unchanged |
| EventBus.EventBus.Push | src/main/java/net/letscode/game/event/EventBus.java:103-108 | the handlers notified are all entries of the exact class's queue, in order; no queue means nobody |
| EventBus.EventBus.PushAtLeast | src/main/java/net/letscode/game/event/EventBus.java:119-124 | as Push, over the entries of at least the given priority |
| EventBus.EventBus.RegisterMethod | src/main/java/net/letscode/game/event/EventBus.java:144-174 | a one-parameter method with an Event parameter gets one entry in every queue whose class the parameter accepts; other methods change nothing; all queues stay sorted |
| EventBus.EventBus.Register | src/main/java/net/letscode/game/event/EventBus.java:182-193 | every annotated method is registered with its annotation's priority and vetoable flag; unannotated methods are skipped |
| EventBus.EventBus.Deregister | src/main/java/net/letscode/game/event/EventBus.java:200-217 | every queue loses exactly the receiver's entries and stays sorted |
| EventBus.EventBusClient.constructor | src/main/java/net/letscode/game/event/EventBusClient.java:14-16 | the client is bound to its bus |
| EventBus.EventBusClient.Register | src/main/java/net/letscode/game/event/EventBusClient.java:24-26 | exactly the bus's registration |
| EventBus.EventBusClient.Deregister | src/main/java/net/letscode/game/event/EventBusClient.java:28-31 | always fails with UnsupportedOperationException and removes nothing |
| MessageEvents.ValidateTextField | src/main/java/net/letscode/game/server/message/incoming/AbstractMessageEvent.java:37-53 | succeeds exactly on a present textual field, non-empty unless empty is allowed, returning its text; an absent field (Java null) throws NullPointerException, any other rejection is a MalformedMessageException |
| MessageEvents.ValidateRequiredText | src/main/java/net/letscode/game/server/message/incoming/AbstractMessageEvent.java:62-64 | succeeds exactly on a present, textual, non-empty field, returning its text |
| MessageEvents.KindOf | src/main/java/net/letscode/game/server/message/incoming/AbstractMessageEvent.java:16 | every incoming message event is an AbstractMessageEvent |
| MessageEvents.NewChatMessage | src/main/java/net/letscode/game/server/message/incoming/ChatMessageEvent.java:26-35 | succeeds exactly when the node has "text", and the text is that field's asText |
| MessageEvents.NewLoginMessage | src/main/java/net/letscode/game/server/message/incoming/LoginMessageEvent.java:25-30 | succeeds exactly when username and password both validate, with those texts; a bad username is the error reported |
| MessageEvents.NewRegistrationMessage | src/main/java/net/letscode/game/server/message/incoming/RegistrationMessageEvent.java:26-32 | succeeds exactly when username, password and email all validate, with those texts; a bad username is the error reported |
| MessageEvents.MissingLoginFieldIsNullPointer | src/main/java/net/letscode/game/server/message/incoming/LoginMessageEvent.java:28 | a login message without a username throws NullPointerException, while a null username is a malformed message |
| Text.LowerHexRoundTrip | web/js/game/ui/color.js:232-237 | the base-16 text of a number is non-empty and reads back as that number |
| Text.DecimalInjective | web/js/game/ui/color.js:244-254 | different channel values render as different decimal texts |
| Requests.RequestIdRoundTrip | src/main/java/net/letscode/game/server/message/request/Request.java:27 | the id, Long.toHexString of the UUID's low bits, reads back as those 64 bits taken unsigned |
| Requests.Request.constructor | src/main/java/net/letscode/game/server/message/request/Request.java:24-29 | keeps the session, takes the hex id of the given random bits, and starts with no listeners |
| Requests.Request.AddListener | src/main/java/net/letscode/game/server/message/request/Request.java:45-47 | appends the listener |
| Requests.Request.Listener | src/main/java/net/letscode/game/server/message/request/Request.java:55-59 | appends the listener and returns the same request, for chaining |
| Requests.Request.OnResponseReceived | src/main/java/net/letscode/game/server/message/request/AuthenticationRequest.java:26-62 | calls the handler AuthResponse names and sends exactly the error notifications it lists, in order |
| Requests.Request.Notify | src/main/java/net/letscode/game/server/message/request/Request.java:61-66 | one ordered trace: its first step is the subclass hook, answering as AuthResponse says, and the remaining steps call the listeners in the order added, each once, with the root node, until one throws; the exception is reported exactly when the last listener reached threw, and without one every listener was called |
| Requests.Request.Serialize | src/main/java/net/letscode/game/server/message/request/Request.java:83-95 | writes type "request", name, id, data in that order, with the request's name and id |
| Requests.RegisterArgumentsSwapped | src/main/java/net/letscode/game/server/message/request/AuthenticationRequest.java:42-47 | a registration reply reaches handleRegister with the e-mail as its password and the password as its e-mail, and sends nothing |
| Requests.LoginAlwaysRefused | src/main/java/net/letscode/game/server/message/request/AuthenticationRequest.java:37-41 | every login reply is answered with the single error "omg wat" |
| Requests.AuthRepliesOnce | src/main/java/net/letscode/game/server/message/request/AuthenticationRequest.java:27-53 | exactly one notification is sent unless the reply is a registration, which sends none |
| Requests.RequestRegistry.constructor | src/main/java/net/letscode/game/server/message/request/handler/RequestRegistry.java:18-20 | starts empty |
| Requests.RequestRegistry.Register | src/main/java/net/letscode/game/server/message/request/handler/RequestRegistry.java:30-32 | files the request under its own id, replacing an earlier one with that id; every request stays filed under its own id |
| Requests.RequestRegistry.Get | src/main/java/net/letscode/game/server/message/request/handler/RequestRegistry.java:34-36 | finds a request exactly when one is filed under the id, and that request carries the id |
| Requests.RequestMonitor.OnMessageSent | src/main/java/net/letscode/game/server/message/request/handler/RequestMonitor.java:20-29 | a sent request is filed under its id; anything else leaves the registry unchanged |
| Requests.DispatchResponse | src/main/java/net/letscode/game/server/message/request/handler/RequestDispatcher.java:26-45 | a response without an id, or with an unknown id, does nothing; otherwise the request filed under the id is notified with the message, hook first and then its listeners in order up to the first that throws |
| Requests.DispatchRequest | src/main/java/net/letscode/game/server/message/response/handler/ResponseDispatcher.java:28-60 | a request without a name, or without an id, is dropped; an unknown name is dropped; otherwise the class bound to the name is constructed with the session and node |
| Handlers.HandlerFactory.constructor | src/main/java/net/letscode/game/server/message/MessageHandlerFactory.java:30-34 | a factory starts with exactly the bindings the scan of annotated classes gives, later classes overriding earlier ones of the same name |
| Handlers.HandlerFactory.Register | src/main/java/net/letscode/game/server/message/MessageHandlerFactory.java:91-93 | binds the name to the class, replacing any earlier binding, and changes no other name |
| Handlers.HandlerFactory.RegisterAnnotated | src/main/java/net/letscode/game/server/message/MessageHandlerFactory.java:102-116 | succeeds exactly when the class carries the factory's annotation, binding it under the annotation's value; otherwise throws IllegalArgumentException and binds nothing |
| Handlers.HandlerFactory.GetHandler | src/main/java/net/letscode/game/server/message/MessageHandlerFactory.java:125-127 | finds a class exactly when the name is bound, and it is the bound class |
| Handlers.MessageHandlerSeed | src/main/java/net/letscode/game/server/message/MessageHandlerFactory.java:49-75 | the message factory binds chat, login, register, response and request to their five handler classes and nothing else |
| Handlers.RequestHandlerSeedEmpty | src/main/java/net/letscode/game/server/message/request/handler/RequestHandlerFactory.java:57-85 | no scanned class carries @RequestHandler, so the request factory starts empty |
| Handlers.ResponseHandlerSeedEmpty | src/main/java/net/letscode/game/server/message/response/handler/ResponseHandlerFactory.java:49-75 | no scanned class carries @ResponseHandler, so every "request" message names an unknown handler |
| Envelopes.Notification.constructor | src/main/java/net/letscode/game/server/message/Notification.java:25-28 | keeps the class and message given, either possibly null |
| Envelopes.Notification.Empty | src/main/java/net/letscode/game/server/message/Notification.java:22-23 | leaves class and message null |
| Envelopes.Notification.SetClazz | src/main/java/net/letscode/game/server/message/Notification.java:34-36 | replaces the class only |
| Envelopes.Notification.SetMessage | src/main/java/net/letscode/game/server/message/Notification.java:42-44 | replaces the message only |
| Envelopes.Notification.Serialize | src/main/java/net/letscode/game/server/message/Notification.java:46-55 | writes type "notification", class, message in that order |
| Envelopes.Notification.Info | src/main/java/net/letscode/game/server/message/Notification.java:57-59 | a new notification of class "info" with the text |
| Envelopes.Notification.Warning | src/main/java/net/letscode/game/server/message/Notification.java:61-63 | a new notification of class "warning" with the text |
| Envelopes.Notification.Error | src/main/java/net/letscode/game/server/message/Notification.java:65-67 | a new notification of class "error" with the text |
| Envelopes.NotificationRoundTrip | src/main/java/net/letscode/game/server/message/Notification.java:46-55 | a client reading a serialized notification recovers its class and message, nulls included |
| Envelopes.Serialize | src/main/java/net/letscode/game/server/message/outgoing/OutgoingMessage.java:31-37 | as written, an outgoing message is written as its type field alone |
| Envelopes.StateChangeLosesState | src/main/java/net/letscode/game/server/message/outgoing/StateChangeMessage.java:29-32 | as written, a state change reaches the client without its state, so the client cannot decode it |
| Envelopes.OutgoingRoundTrip | src/main/java/net/letscode/game/server/message/outgoing/OutgoingMessage.java:29-37 | with the subclass fields written after the type, every state change, chat message and zone-entered message is decoded back exactly |
| Dispatcher.Services.constructor | src/main/java/net/letscode/game/server/message/MessageHandlerFactory.java:41-47 | the shared factories start with their scanned bindings and the registry starts empty |
| Dispatcher.NewMessageEvent | src/main/java/net/letscode/game/server/message/MessageDispatcher.java:53-62 | exactly the three message event classes construct an AbstractMessageEvent, which keeps the session and node |
| Dispatcher.MessageDispatcher.constructor | src/main/java/net/letscode/game/server/message/MessageDispatcher.java:26-30 | the dispatcher's bus declares only ChatMessageEvent, with an empty queue |
| Dispatcher.MessageDispatcher.OnMessageReceived | src/main/java/net/letscode/game/server/message/MessageDispatcher.java:32-71 | a message without a type, or whose type is unbound, is dropped; a failing construction is caught; a message event is pushed on the bus and notifies its queue; the response and request dispatchers act as their own rows say |
| Dispatcher.OnlyChatEventsReachHandlers | src/main/java/net/letscode/game/server/message/MessageDispatcher.java:26-30 | since only ChatMessageEvent is declared, pushed login and registration events notify nobody |
| Domain.Supertypes | src/main/java/net/letscode/game/api/entity/Entity.java:140 | every controller implementation is assignable to the Controller interface |
| Domain.EmptyQueues | src/main/java/net/letscode/game/api/zone/Zone.java:40-47 | one empty queue per declared class, in declaration order |
| Domain.FirstZoneOfClass | src/main/java/net/letscode/game/api/entity/Entity.java:69-77 | the result is a listed zone of exactly the class with none of that class before it; None exactly when no listed zone has the class |
| Domain.Entity.constructor | src/main/java/net/letscode/game/api/entity/Entity.java:36-45 | no zones, no controllers, and a bus declaring EntityZoneEnteredEvent then EntityZoneExitedEvent |
| Domain.Entity.EnteredZone | src/main/java/net/letscode/game/api/entity/Entity.java:86-90 | appends the zone and pushes EntityZoneEnteredEvent on the entity's bus |
| Domain.Entity.ExitedZone | src/main/java/net/letscode/game/api/entity/Entity.java:99-103 | as written, also appends the zone, then pushes EntityZoneExitedEvent |
| Domain.Entity.GetZoneByType | src/main/java/net/letscode/game/api/entity/Entity.java:69-77 | the loop returns the first zone of exactly the class, or null |
| Domain.Entity.GetController | src/main/java/net/letscode/game/api/entity/Entity.java:114-116 | the controller bound to the class exactly when one is bound |
| Domain.Entity.SetController | src/main/java/net/letscode/game/api/entity/Entity.java:136-161 | a null or incompatible implementation throws and changes nothing; otherwise the old controller is deactivated, the new one bound and activated, in that order, and the old one returned |
| Domain.Entity.PurgeControllers | src/main/java/net/letscode/game/api/entity/Entity.java:167-171 | passing null to setController throws on the first bound class, so only an entity without controllers gets through; nothing is unbound either way |
| Domain.Entity.SerializeFor | src/main/java/net/letscode/game/api/entity/Entity.java:203-215 | an entity serializes as an empty object for every target |
| Domain.Zone.constructor | src/main/java/net/letscode/game/api/zone/chat/ChatZone.java:12-15 | no entities; a zone's bus declares ZoneEntered and ZoneExited, a chat zone's adds ChatZoneExited and ChatZoneMessage |
| Domain.Zone.FireZoneEnteredEvent | src/main/java/net/letscode/game/api/zone/Zone.java:117-119 | pushes ZoneEnteredEvent on the zone's bus |
| Domain.Zone.FireZoneExitedEvent | src/main/java/net/letscode/game/api/zone/chat/ChatZone.java:42-45 | pushes ZoneExitedEvent, or ChatZoneExitedEvent without a message on a chat zone |
| Domain.Zone.AddEntity | src/main/java/net/letscode/game/api/zone/Zone.java:72-79 | appends the entity, which appends the zone and fires its entered event, then fires ZoneEnteredEvent |
| Domain.Zone.RemoveEntity | src/main/java/net/letscode/game/api/zone/Zone.java:93-109 | removes the first occurrence of the entity, the entity appends the zone and fires its exited event, and the zone fires ZoneEnteredEvent whether or not the entity was a member |
| Domain.Zone.RemoveEntityWithMessage | src/main/java/net/letscode/game/api/zone/chat/ChatZone.java:24-29 | removes the first occurrence, tells the entity, and pushes ChatZoneExitedEvent carrying the message |
| Domain.Zone.Chat | src/main/java/net/letscode/game/api/zone/chat/ChatZone.java:63-65 | pushes one ChatZoneMessageEvent |
| Domain.Zone.SerializeFor | src/main/java/net/letscode/game/api/zone/Zone.java:153-187 | an object whose only field "entities" lists each member's serialization, in member order |
| Domain.ZoneSerializationIgnoresTarget | src/main/java/net/letscode/game/api/zone/Zone.java:157-166 | the null-target and targeted branches write the same thing |
| Domain.ZoneExitedHandlerHearsChatExits | src/main/java/net/letscode/game/api/zone/chat/ChatZone.java:42-45 | a ZoneExitedEvent handler registered on a chat zone is notified, whatever other handlers do, both of ZoneExitedEvent and of ChatZoneExitedEvent |
| Domain.PlainZoneHasNoChatExits | src/main/java/net/letscode/game/api/zone/Zone.java:40-47 | a plain zone has no ChatZoneExitedEvent queue, so such a push notifies nobody |
| GameWorld.PauseAfter | src/main/java/net/letscode/game/api/world/World.java:109-122 | the tick reports an overflow exactly when it ended before its deadline, and otherwise sleeps for end minus deadline, which is never negative |
| GameWorld.TickSleepsOnlyWhenLate | src/main/java/net/letscode/game/api/world/World.java:101-122 | a tick that finishes inside its budget is logged as an overflow and not slept, and a late tick sleeps for exactly as long as it overran |
| GameWorld.World.constructor | src/main/java/net/letscode/game/api/world/World.java:40-67 | the bus declares WorldTick, ZoneAdded and ZoneRemoved in that order with empty queues; the default zone is a new empty chat zone, and the only listed zone is a second, different one |
| GameWorld.World.AddZone | src/main/java/net/letscode/game/api/world/World.java:87-90 | appends the zone and pushes ZoneAddedEvent on the world's bus |
| GameWorld.World.RemoveZone | src/main/java/net/letscode/game/api/world/World.java:92-95 | removes the first occurrence of the zone and pushes ZoneRemovedEvent whether or not the zone was listed |
| GameWorld.World.Tick | src/main/java/net/letscode/game/api/world/World.java:97-125 | the event carries the timestamp, the time since the last tick, the tick rate and the deadline; handlers are notified as the bus's push does; the pause follows PauseAfter; the last tick becomes the timestamp |
| Players.FirstIncompatible | src/main/java/net/letscode/game/server/client/PlayerAdapter.java:53-55 | every binding visited before the result is accepted by setController and the one at the result, if any, is refused |
| Players.Previous | src/main/java/net/letscode/game/server/client/PlayerAdapter.java:44-49 | the map the documentation promises: a class is in it exactly when it was visited and the entity had a controller for it, whose value it holds |
| Players.BoundHoldsBindings | src/main/java/net/letscode/game/server/client/PlayerAdapter.java:53-54 | after the visited classes were set, the entity holds each adapter binding, and every other class keeps exactly its previous controller or absence |
| Players.SwappedHoldsPrevious | src/main/java/net/letscode/game/server/client/PlayerAdapter.java:54-55 | after the visited classes were set, each adapter binding holds the entity's previous controller for that class, or null when it had none |
| Players.SecondPutRefused | src/main/java/net/letscode/game/server/client/PlayerAdapter.java:20-59 | a new adapter whose controllers were put on an entity without controllers holds null for ChatController, so putting them on a second entity throws at the first binding |
| Players.PlayerAdapter.constructor | src/main/java/net/letscode/game/server/client/PlayerAdapter.java:20-30 | keeps the session and binds ChatController to a PlayerChatController for it, and nothing else |
| Players.PlayerAdapter.Set | src/main/java/net/letscode/game/server/client/PlayerAdapter.java:40-42 | replaces the binding for the class and leaves the others |
| Players.PlayerAdapter.PutControllers | src/main/java/net/letscode/game/server/client/PlayerAdapter.java:50-59 | as written: the loop stops with IncompatibleController at the first refused binding, the entity holds the bindings visited before it, those adapter bindings are overwritten with the entity's old controllers, and the returned map is empty |
| Players.PlayerAdapter.PutControllersIntended | src/main/java/net/letscode/game/server/client/PlayerAdapter.java:44-59 | as documented: the same stopping point and entity state, the adapter's bindings left unchanged, and the returned map equal to Previous of the visited classes |
| Geometry.IterationStartSkipsSouthEast | src/main/java/net/letscode/game/misc/QuadTree.java:438-461 | following getNext from the iteration start visits SOUTHWEST, NORTHEAST and NORTHWEST, and never SOUTHEAST itself |
| Geometry.Localize | src/main/java/net/letscode/game/misc/Point2D.java:34-38 | the localized point plus the origin is the original point |
| Geometry.QuadrantOf | src/main/java/net/letscode/game/misc/Point2D.java:48-62 | each quadrant is chosen exactly on its half-planes, with y = 0 counted as north and x = 0 as east |
| Geometry.CentredBoundry | src/main/java/net/letscode/game/misc/Boundry2D.java:24-29 | the two-argument boundary is centred on the origin with the given size |
| Geometry.Position | src/main/java/net/letscode/game/misc/Boundry2D.java:38-40 | the position is the boundary's centre |
| Geometry.ContainsNeedsExtent | src/main/java/net/letscode/game/misc/Boundry2D.java:42-48 | a boundary contains a point only when neither dimension is negative, and such a boundary contains its centre |
| Geometry.SubBoundry | src/main/java/net/letscode/game/misc/QuadTree.java:102-134 | a subtree's boundary has half the parent's size and is centred a quarter of the parent's size toward its quadrant |
| Geometry.SubBoundryInside | src/main/java/net/letscode/game/misc/QuadTree.java:102-134 | every point of a subtree's boundary lies within the parent's boundary |
| Geometry.QuadrantOfContainedPoint | src/main/java/net/letscode/game/misc/QuadTree.java:197-207 | a point the boundary contains lies within the sub-boundary of the quadrant its localized position falls in |
| QuadTrees.Item.constructor | src/main/java/net/letscode/game/misc/QuadTree.java:470-473 | an item keeps its position and starts without a parent tree |
| QuadTrees.WithSub | src/main/java/net/letscode/game/misc/QuadTree.java:165-180 | setting one quadrant's subtree changes that subtree only, and no other field of the node |
| QuadTrees.WithSubItems | src/main/java/net/letscode/game/misc/QuadTree.java:165-180 | replacing a subtree changes the node's items by exactly the old and new subtrees' items |
| QuadTrees.InsertDescends | src/main/java/net/letscode/game/misc/QuadTree.java:197-217 | above maximum depth, insert throws out of bounds, and otherwise recurses into the existing or newly created subtree of the localized point's quadrant |
| QuadTrees.InsertAppends | src/main/java/net/letscode/game/misc/QuadTree.java:197-222 | at maximum depth, insert throws out of bounds, and otherwise appends the item to the node's list |
| QuadTrees.InsertShape | src/main/java/net/letscode/game/misc/QuadTree.java:189-223 | insertion keeps every subtree as the subtree constructor made it; the item ends the list of the node its path names, maxDepth minus depth levels down |
| QuadTrees.InsertAddsItem | src/main/java/net/letscode/game/misc/QuadTree.java:189-223 | a successful insert adds exactly the one item to the tree's items |
| QuadTrees.InsertFailsOnlyOutOfBounds | src/main/java/net/letscode/game/misc/QuadTree.java:197-201 | insert fails, always with IllegalArgumentException, exactly when the starting node's boundary does not contain the item |
| QuadTrees.IsEmptyMeansNoItems | src/main/java/net/letscode/game/misc/QuadTree.java:323-342 | the intended emptiness test holds exactly when the subtree holds no item |
| QuadTrees.IsEmptyAsWrittenAgrees | src/main/java/net/letscode/game/misc/QuadTree.java:331-342 | where every node has an item list, isEmpty as written returns the intended answer |
| QuadTrees.IsEmptyAsWrittenErrorIsNull | src/main/java/net/letscode/game/misc/QuadTree.java:331-342 | the only exception isEmpty as written can raise is NullPointerException |
| QuadTrees.PruneSelf | src/main/java/net/letscode/game/misc/QuadTree.java:277-292 | each subtree is dropped exactly when it is present and empty; the node's own fields are kept |
| QuadTrees.PruneUp | src/main/java/net/letscode/game/misc/QuadTree.java:277-298 | pruning from a node up to the root keeps the root's own fields |
| QuadTrees.PruneSelfKeepsItems | src/main/java/net/letscode/game/misc/QuadTree.java:272-292 | pruning drops only empty subtrees, so no item is lost |
| QuadTrees.PruneUpKeepsItems | src/main/java/net/letscode/game/misc/QuadTree.java:272-298 | pruning up to the root loses no item |
| QuadTrees.PruneUpShaped | src/main/java/net/letscode/game/misc/QuadTree.java:272-298 | pruning keeps every subtree as the subtree constructor made it |
| QuadTrees.ReplaceAtItems | src/main/java/net/letscode/game/misc/QuadTree.java:241-253 | replacing the node a path names changes the tree's items by exactly the old and new node's items |
| QuadTrees.ReplaceAtShaped | src/main/java/net/letscode/game/misc/QuadTree.java:241-253 | replacing a node by one of the same depth, boundary and list kind keeps the tree's shape and its root fields, and the path then names the new node |
| QuadTrees.RemoveDirectTakesItem | src/main/java/net/letscode/game/misc/QuadTree.java:247-253 | removal at the item's own node, which has a list, succeeds and takes exactly one occurrence of the item out of the tree when the node holds it |
| QuadTrees.PruneSelfAsWrittenKeeps | src/main/java/net/letscode/game/misc/QuadTree.java:277-292 | a prune step as written, completed or stopped by an exception, keeps the items, the shape and the node's own fields |
| QuadTrees.PruneQuadAsWrittenKeeps | src/main/java/net/letscode/game/misc/QuadTree.java:278-280 | one written pruning test drops a subtree only when isEmpty said true, so no item is lost and the shape is kept |
| QuadTrees.IsEmptyAsWrittenSound | src/main/java/net/letscode/game/misc/QuadTree.java:331-342 | when isEmpty as written answers true, the subtree is empty |
| QuadTrees.PruneSelfAsWrittenThrows | src/main/java/net/letscode/game/misc/QuadTree.java:278-292 | a node with subtrees, none of which has an item list, makes the written prune step throw NullPointerException |
| QuadTrees.PruneUpAsWrittenThrows | src/main/java/net/letscode/game/misc/QuadTree.java:277-298 | prune as written throws NullPointerException whenever it starts two or more levels below the root |
| QuadTrees.PruneUpAsWrittenKeeps | src/main/java/net/letscode/game/misc/QuadTree.java:277-298 | prune as written, whether or not it throws, leaves a tree with the same items and shape and the root's own fields unchanged |
| QuadTrees.PruneSelfAsWrittenAgrees | src/main/java/net/letscode/game/misc/QuadTree.java:277-292 | where every subtree has its item lists, a written prune step throws nothing and drops exactly the empty subtrees |
| QuadTrees.PruneUpKeepsListed | src/main/java/net/letscode/game/misc/QuadTree.java:277-298 | pruning keeps a fully listed subtree fully listed |
| QuadTrees.PruneUpAsWrittenAgrees | src/main/java/net/letscode/game/misc/QuadTree.java:277-298 | where every subtree of the starting node has its lists, prune as written throws nothing and gives the corrected result |
| QuadTrees.RemoveAsWrittenAgreesShallow | src/main/java/net/letscode/game/misc/QuadTree.java:241-253 | with maximum depth 2 or less, removal as written throws nothing and leaves the same tree as the corrected removal |
| QuadTrees.PruneUpAsWrittenErrorIsNull | src/main/java/net/letscode/game/misc/QuadTree.java:277-298 | the only exception prune as written can raise is NullPointerException |
| QuadTrees.RemoveThrowsAtDepthThree | src/main/java/net/letscode/game/misc/QuadTree.java:241-253 | with maximum depth 3 or more, removing any item insert placed throws as written after the item has already left the tree; the corrected removal throws nothing and leaves the same items |
| QuadTrees.IterateWithinItems | src/main/java/net/letscode/game/misc/QuadTree.java:357-436 | an iterator yields only items of the subtree, never more often than the subtree holds them |
| QuadTrees.SouthEastNeverYielded | src/main/java/net/letscode/game/misc/QuadTree.java:372-387 | the items of a node's SOUTHEAST subtree are never yielded |
| QuadTrees.RootIteratesNothing | src/main/java/net/letscode/game/misc/QuadTree.java:54-62 | a valid tree deeper than one level yields nothing from its root, whose own list stays empty |
| QuadTrees.TreeIterator.constructor | src/main/java/net/letscode/game/misc/QuadTree.java:357-378 | the iterator still has to yield exactly what iterating the node yields |
| QuadTrees.TreeIterator.Next | src/main/java/net/letscode/game/misc/QuadTree.java:420-430 | returns the next item and advances, or throws NoSuchElementException at the end |
| QuadTrees.QuadTree.constructor | src/main/java/net/letscode/game/misc/QuadTree.java:54-62 | a new tree is a root at depth 1 with an empty list and no subtrees |
| QuadTrees.QuadTree.Insert | src/main/java/net/letscode/game/misc/QuadTree.java:189-223 | an item that already has a parent is refused; otherwise the tree and the item's parent follow the insertion, or neither changes when it fails |
| QuadTrees.QuadTree.Remove | src/main/java/net/letscode/game/misc/QuadTree.java:241-270 | an item without a parent is refused; its own node takes it out of its list, clears its parent and prunes as written, ending with the partly pruned tree and the exception when prune throws (a node without a list throws first, changing nothing); an item of another tree is refused; any other node of this tree does nothing |
| QuadTrees.QuadTree.Update | src/main/java/net/letscode/game/misc/QuadTree.java:309-321 | an item of another tree is refused; otherwise it is removed as written by its own node, when it has one, and inserted again from the root, unless the removal threw, which leaves the removal's state and its exception |
| QuadTrees.QuadTree.RemoveKeepsValid | src/main/java/net/letscode/game/misc/QuadTree.java:241-253 | removal as written, whether or not it throws, leaves a tree of the same shape: the root keeps depth 1 and its (empty) item list, and every subtree keeps the depth, boundary and list rules |
| QuadTrees.PruneSelfAsWrittenErrorIsNull | src/main/java/net/letscode/game/misc/QuadTree.java:277-298 | the only failure of the prune as written is a null-pointer exception |
| Lists.IndexOf | src/main/java/net/letscode/game/api/world/World.java:93 | the first occurrence: the position holds the element and no earlier position does |
| Lists.RemoveFirstCount | src/main/java/net/letscode/game/api/world/World.java:93 | List.remove takes away exactly one occurrence of a present element and nothing otherwise, and the length drops by one exactly then |
| Lists.RemoveFirstOrder | src/main/java/net/letscode/game/api/world/World.java:93 | the elements before the removed one keep their positions, and the later ones move up by one |
| Json.ObjectOf | web/js/game/net/connection.js:66 | the parsed object has exactly the written keys, each with its written value |
| Json.Get | src/main/java/net/letscode/game/server/message/MessageDispatcher.java:39-45 | get returns a node exactly when has(key) holds, and then the field's value; otherwise Java null |
| Json.PathText | src/main/java/net/letscode/game/server/message/request/AuthenticationRequest.java:36-46 | path(key).asText() is the field's text when present, and the empty string when missing |
| Json.OwnProperty | web/js/game/net/connection.js:82 | reading a property of null throws a TypeError and of nothing else; on an object it is the own field, or undefined |
| Json.Stringify | web/js/game/net/message/request.js:49-56 | JSON.stringify writes no more properties than given, and reading any key back gives the first defined value given for it |
| Json.NumberTextRoundTrip | src/main/java/net/letscode/game/server/message/request/handler/RequestDispatcher.java:34 | asText of a number node is a digit string that reads back as the number |
| Json.ArrayIndexIsOwn | web/js/game/net/connection.js:82 | every existing array index, rendered as a key, is an own property holding that element |
| Text.IndexRoundTrip | web/js/game/net/connection.js:73-82 | the decimal rendering of an index is canonical and reads back as that index |
| Text.DecimalLength | web/js/game/ui/color.js:250-253 | numbers below 10, 100 and 1000 render as one, two and three digits |
| Colors.NewColorAsWritten | web/js/game/ui/color.js:27-30 | as written, a named colour takes the global name binding and leaves the value undefined |
| Colors.NewColor | web/js/game/ui/color.js:27-60 | as intended, a named colour keeps its requested name; an unnamed one has no name and a defined value |
| Colors.Rgb | web/js/game/ui/color.js:95-101 | throws exactly for a named colour, and otherwise returns the packed value |
| Colors.Hex | web/js/game/ui/color.js:232-237 | throws exactly for a named colour; otherwise "#" then red, green and blue each as one lower-case hex digit below 16 and two from 16 on, none with a leading zero, each reading back as its byte |
| Colors.ByteToHex | web/js/game/ui/color.js:234-236 | toString(16) of a byte has one digit below 16 and two from 16 on, all lower-case, no leading zero, and reads back as the byte |
| Colors.JoinedHex | web/js/game/ui/color.js:232-237 | three bytes' unpadded digits joined after "#" sit at the offsets their widths give and each reads back as its byte |
| Colors.HexByte | web/js/game/ui/color.js:232-237 | a byte as exactly two hexadecimal digits that read back as the byte |
| Colors.HexPadded | web/js/game/ui/color.js:232-237 | the intended hex: throws exactly for a named colour, otherwise "#" and two digits each that read back as red, green and blue |
| Colors.StringIsCssAlpha | web/js/game/ui/color.js:279-285 | string() always equals cssAlpha() |
| Colors.NamedColorRendersName | web/js/game/ui/color.js:95-285 | a named colour throws from rgb, red, green, blue, alpha and hex, and css, cssAlpha and string all return its name |
| Colors.ChannelsRoundTrip | web/js/game/ui/color.js:37-58 | channels in 0..255 without an alpha option come back from red, green and blue unchanged, with alpha 255 |
| Colors.PackedBytes | web/js/game/ui/color.js:55-58 | each byte of the packed value is the channel packed there |
| Colors.AlphaTakenFromRed | web/js/game/ui/color.js:48-55 | with a truthy alpha option the alpha byte is red's, whatever alpha was asked for |
| Colors.ValueOption | web/js/game/ui/color.js:31-36 | a value option is kept as given with hasAlpha, and otherwise gets alpha 255 |
| Colors.OpaqueBits | web/js/game/ui/color.js:35 | OR-ing 0xFF000000 sets the alpha byte and keeps the three colour bytes |
| Colors.BlackIsOpaque | web/js/game/ui/color.js:296 | black's zero channels pack to css "rgb(0,0,0)" with alpha 255 |
| Colors.HexIsAmbiguous | web/js/game/ui/color.js:232-237 | two different colours render the same unpadded hex string "#12345" |
| Colors.HexPaddedInjective | web/js/game/ui/color.js:232-237 | equal padded hex strings mean equal red, green and blue bytes |
| Colors.NamedColorAsWrittenLosesName | web/js/game/ui/color.js:27-30 | as written, a named colour renders as "rgb(0,0,0)" and reads red 0; as intended it renders its name and red throws |
| Colors.FieldsInjective | web/js/game/ui/color.js:250-253 | comma-separated decimal fields of equal count determine their numbers |
| Colors.CssInjective | web/js/game/ui/color.js:244-254 | css tells unnamed colours with any different red, green or blue byte apart |
| Colors.CssAlphaInjective | web/js/game/ui/color.js:262-272 | cssAlpha tells unnamed colours with any different byte apart |
| JsArrays.SliceStart | web/js/main.js:30 | the start slice() uses is within the array, the index itself when in range, counted from the end when negative |
| JsArrays.SetLength | web/js/main.js:31 | assigning length truncates to the new length, or pads with holes |
| JsArrays.JsArray.constructor | web/js/main.js:29 | keeps the given elements |
| JsArrays.JsArray.Remove | web/js/main.js:29-33 | the array becomes what Removed describes; a RangeError from the length assignment or from push is thrown, and otherwise the new length is returned |
| JsArrays.RemoveAt | web/js/main.js:29-33 | remove(i) deletes element i, keeps the others in order and throws nothing |
| JsArrays.RemoveRange | web/js/main.js:29-33 | remove(i, j) with i <= j deletes elements i through j, so the array shrinks by j - i + 1 |
| JsArrays.RemoveFromEnd | web/js/main.js:29-33 | remove(-m) deletes the m-th element from the end |
| JsArrays.RemoveLast | web/js/main.js:29-33 | remove(-1) drops the last element |
| JsArrays.ZeroToIsAbsent | web/js/main.js:30 | a to of 0 behaves as if to were from |
| JsArrays.RemoveThrows | web/js/main.js:31-32 | remove throws exactly when the new length is outside 0 .. 2^32-1, leaving the array unchanged, or when pushing the tail back would take the length past 2^32-1 |
| JsArrays.RemoveOneThrows | web/js/main.js:29-33 | on a JavaScript array, remove(from) throws exactly when from is below minus the length or above 2^32-1; the pushed tail always fits |
| JsArrays.RemovePastEnd | web/js/main.js:29-33 | remove(i) past the end, up to length 2^32-1, deletes nothing and pads with holes up to length i |
| JsArrays.RemovePushOverflows | web/js/main.js:31-32 | remove(2^32-1, 1) on a three-element array cuts it to 2^32-1 slots, and push then throws a RangeError with those slots written |
| JsArrays.RemoveBackwards | web/js/main.js:29-33 | with 0 < to < from, the elements between are appended a second time instead of deleted, when the result fits in a JavaScript array |
| Colors.Channel | web/js/game/ui/color.js:109-157 | the red, green, blue and alpha accessors throw exactly for a named colour, and otherwise return that channel's byte, below 256 |
| Text.DecimalRoundTrip | web/js/game/ui/color.js:250-253 | a number's decimal text is a non-empty digit string without a leading zero (unless the number is 0) that reads back as the same number |
| Connections.CallbackOf | web/js/game/net/connection.js:89-91 | a callback is found exactly when the listener's callback property is a function |
| Connections.Step | web/js/game/net/connection.js:70-92 | once a listener has thrown nothing more happens; otherwise the step adds the listener's call exactly when it matches, and its error is the one the match or the called callback body raises (a matching listener without a function callback raises a TypeError) |
| Connections.Deliver | web/js/game/net/connection.js:65-93 | onMessage makes at most one call per listener, given what each callback body does |
| Connections.Connection.constructor | web/js/game/net/connection.js:8-20 | without WebSocket support the status is "unsupported" and no listener list exists; otherwise "disconnected" with the default listener only |
| Connections.Connection.InitListeners | web/js/game/net/connection.js:22-31 | appends the authentication listener, when a listener list exists |
| Connections.Connection.MessageListener | web/js/game/net/connection.js:115-117 | appends the listener; without a listener list push throws a TypeError |
| Connections.Connection.Connect | web/js/game/net/connection.js:33-38 | on a connection without WebSocket support `new WebSocket` throws a ReferenceError and the status is left as it was; otherwise the status becomes "connecting"; the listeners are kept either way |
| Connections.Connection.OnOpen | web/js/game/net/connection.js:60-63 | the status becomes "connected" |
| Connections.Connection.OnClose | web/js/game/net/connection.js:95-98 | the status becomes "closed" |
| Connections.Connection.OnError | web/js/game/net/connection.js:100-103 | the status becomes "error: " followed by the error |
| Connections.Connection.OnMessage | web/js/game/net/connection.js:65-93 | the forEach over the listeners does exactly what Deliver describes, a callback that throws ending the forEach with its exception; without a listener list it throws a TypeError |
| Connections.Match | web/js/game/net/connection.js:71-87 | the property loop computes MatchResult: it throws on a null message, and otherwise matches exactly when every property besides callback is present with a strictly equal value |
| Connections.ErrorSticks | web/js/game/net/connection.js:70-92 | once a listener or its callback has thrown, later listeners are not reached |
| Connections.DeliverCallsMatching | web/js/game/net/connection.js:69-92 | with no listener's match or callback throwing, exactly the matching listeners are called, in registration order |
| Connections.DeliverStopsAtFailure | web/js/game/net/connection.js:70-92 | the first listener whose match or callback throws ends delivery: the matching listeners up to and including it were called, and its exception is the one raised |
| Connections.CallbackOnlyMatchesAll | web/js/game/net/connection.js:105-112 | a listener with nothing but a callback is notified of every message |
| Connections.DefaultListenerMatches | web/js/game/net/connection.js:22-31 | the default listener is notified exactly of an object with type "request" and name "authenticate"; a null message throws |
| Connections.AuthenticationRequestOpensLogin | web/js/game/net/connection.js:22-31 | a fresh connection hands an authentication request to the default callback, once, and whatever that callback throws reaches the caller |
| Connections.ConnectNew | web/js/game/net/connection.js:8-38 | connecting a new connection without WebSocket support throws a ReferenceError and leaves it "unsupported"; with support it becomes "connecting" |
| ClientRequests.UpperCase | web/js/game/net/message/request.js:17 | toUpperCase moves exactly the lower-case letters to upper case |
| ClientRequests.Digit | web/js/game/net/message/request.js:15 | Math.floor(Math.random() * 16) is a digit below 16 |
| ClientRequests.IdChar | web/js/game/net/message/request.js:15-17 | a digit's upper-case base-16 character reads back as the digit |
| ClientRequests.GenerateId | web/js/game/net/message/request.js:13-19 | the id has 32 upper-case hexadecimal characters, and each reads back as the digit of its draw |
| ClientRequests.Property | web/js/game/net/message/request.js:39-40 | reading a property of a null response throws, and of nothing else |
| ClientRequests.RequestMessage.constructor | web/js/game/net/message/request.js:7-26 | keeps name and data, draws a 32-character upper-case hexadecimal id, and starts with no listeners |
| ClientRequests.RequestMessage.Listener | web/js/game/net/message/request.js:28-30 | appends the callback |
| ClientRequests.RequestMessage.HandleResponse | web/js/game/net/message/request.js:32-43 | calls the listeners in order, each once, with the request, the response and its name and data, until one throws; that exception is the result, and without one every listener was called; a null response with listeners throws a TypeError before any call |
| ClientRequests.RequestMessage.Serialize | web/js/game/net/message/request.js:49-56 | writes id, type "request" and name, then data only when defined, with those values |
| ClientRequests.StringifyKeys | web/js/game/net/message/request.js:49-56 | JSON.stringify keeps exactly the defined properties, in order |
| ClientRequests.AuthenticationResponse.constructor | web/js/game/net/response/authentication.js:13-27 | remembers the request it answers |
| ClientRequests.AuthenticationResponse.Reply | web/js/game/net/response/authentication.js:34-43 | throws exactly on a null request; otherwise writes type "response", name "login", the request's id when defined, and the entered details as data |
| ClientRequests.ReplyEchoesId | web/js/game/net/response/authentication.js:34-43 | the reply to a request object echoes its id and carries the entered details unchanged |
| Scenarios.MonitorRegistersNothing | src/main/java/net/letscode/game/server/message/request/handler/RequestMonitor.java:20-29 | the request monitor's method carries no @EventHandler, so registering it adds no entry to any queue |
| Scenarios.AuthenticationRoundTrip | web/js/game/net/response/authentication.js:34-43 | the client opens the login flow for the server's serialized authentication request, whatever that flow then throws reaching the caller, and its reply carries type "response", the request's id, which the registry maps back to the same request, and the entered details |
| Scenarios.LoginDetailsRefused | src/main/java/net/letscode/game/server/message/request/AuthenticationRequest.java:37-41 | login details sent back by the client are always answered with the single error "omg wat" |

## Left out

- Transport: WebSocket sessions, `send`, and the text `JSON.parse` reads. Messages are modelled as parsed JSON values, and what is sent is modelled as field lists.
- Jackson's `JsonGenerator` output bytes: each serializer is modelled as the ordered list of fields it writes.
- Logging: warnings and errors that are only logged have no effect in the model.
- Threads, `Thread.sleep` and `System.currentTimeMillis`: the world loop's clock readings are parameters, and its sleep is returned as a duration.
- Reflection and classpath scanning: annotation bindings, handler methods and event classes are explicit values. A handler's exception and its wrapping by `Method.invoke` are explicit `JavaException` values; which exceptions a real handler throws is an input.
- Persistence, authentication back-ends and the YAML configuration: they are outside the core. The tick rate is fixed at its default.
- `Math.random` and `UUID` generation: the random draws are inputs.
- `HashMap` iteration order in the player adapter: it is an input, as the sequence of classes to visit.
- Singletons (`get()` of the factories and the registry): these are one `Services` object created once and passed explicitly.
- The colour's floating-point paths (`floatToInt`, `darker`, `brighter`), CSS colour-name parsing and the UI/DOM code that uses colours: they are outside the integer model.
- The quadtree's movement extrapolation in `update`: its arithmetic is stubbed in the source.
- Floating-point coordinates: the model uses exact reals.
- `Zone2D`, `EntityData2D`, `PlayerChatController` and `getChatController`: they are not part of this model beyond being opaque controller values.
- The client login screen that `AuthenticationResponse` opens.
- JSON numbers with a fraction or an exponent: `JNum` holds an integer, so numbers such as 1.5 or 1e3, which `JSON.parse` and Jackson accept, are not expressible.
- Json.NumberTextRoundTrip: is stated for integral numbers only, since `JNum` holds an integer; Jackson's `asText` of a fractional or exponent number is not modelled.
- Json.OwnProperty: a string's `length` is its number of characters (code points). JavaScript counts UTF-16 code units, so a character outside the Basic Multilingual Plane counts 2 in the source and 1 here.
- Colors.Rgb: returns the stored value as its unsigned 32-bit pattern. JavaScript's `opts.value | 0xFF000000` yields a signed 32-bit number, negative for every opaque colour, and with `hasAlpha` the option's number is kept as given, possibly beyond 32 bits. Numeric options are modelled as 32-bit patterns throughout.
- JavaScript arrays as objects: when `push` overflows in `remove`, the elements it writes at index 2^32-1 and beyond become ordinary properties. They are not modelled; only the array slots below that index are.
- EventQueue.InsertSorted: does not state the order among entries of equal priority, because the JDK heap gives ties no order either.
- EventBus.EventBus.Deregister: receivers are compared by identity. The source's `removeAll` compares entries with `EventQueueEntry.equals`, which also drops entries of another receiver that is `equals()` to the deregistered one with the same method, priority and flag; receiver identity cannot express that.
- EventBus.EventBus.Push: is proved against queues kept sorted by priority, not against the JDK heap order, which the findings record.

## Findings

| source | as written | input that shows it | evidently intended | confidence | as-written member | corrected member |
|---|---|---|---|---|---|---|
| src/main/java/net/letscode/game/event/EventQueueEntry.java:47-57 | `notify` catches `EventVetoException` around `method.invoke`, but `Method.invoke` wraps whatever the handler throws in `InvocationTargetException`, so the veto is logged by the general catch and the queue's `break` on a veto is never reached | a queue whose first handler throws `EventVetoException` and which holds a second handler: both handlers are notified | a veto skips the handlers after it, as `EventBus.java:93-96` documents | not executed | EventQueue.VetoSwallowed | EventQueue.VetoStops |
| src/main/java/net/letscode/game/event/EventQueueEntry.java:36-38 | `compareTo` returns `other.priority - priority` in 32-bit int arithmetic, which wraps | priorities -2 and `Integer.MAX_VALUE`: the difference wraps to a negative value, so the lower-priority entry sorts first | negative, zero or positive exactly as this priority is higher, equal or lower | not executed | EventQueue.CompareToOverflows | EventQueue.CompareToAgreesInRange |
| src/main/java/net/letscode/game/event/EventQueueDefinition.java:27 | the queue is a `PriorityQueue`, and the push loop uses its iterator, which walks the heap array rather than priority order | handlers of priority NORMAL, HIGH and HIGHER registered in that order are notified HIGHER, NORMAL, HIGH | handlers notified in non-increasing priority, as the priority documentation promises | not executed | EventQueue.HeapIterationOutOfOrder | EventQueue.DeliverInPriorityOrder |
| src/main/java/net/letscode/game/server/message/outgoing/OutgoingMessage.java:31-37 | `serialize` writes only the `type` field and never calls `serializeSubclass`, so the state is not sent | any state change, for example state "login" | the subclass fields written after the type, so the client recovers the message | not executed | Envelopes.StateChangeLosesState | Envelopes.OutgoingRoundTrip |
| web/js/game/ui/color.js:232-237 | `hex` concatenates `toString(16)` of each channel without padding | (0x1, 0x23, 0x45) and (0x12, 0x34, 0x5) both render as "#12345" | each channel written as two hexadecimal digits, so distinct colours have distinct hex text | not executed | Colors.HexIsAmbiguous | Colors.HexPaddedInjective |
| web/js/game/ui/color.js:30 | a named colour stores the global `name` binding instead of the option's name | `new Color({name: "red"})` while the global `name` is empty yields a colour rendered "rgb(0,0,0)" instead of "red" | the colour keeps the requested name | not executed | Colors.NamedColorAsWrittenLosesName | Colors.NewColor |
| src/main/java/net/letscode/game/misc/QuadTree.java:331-342 | `isEmpty` reads the item list of every node, but interior nodes have a null list, so prune throws a NullPointerException | a tree of maximum depth 3 with one item: removing it takes the item out and clears its parent, then prune reaches an interior node and throws, so `update` never reinserts the item | an interior node is empty when all its subtrees are | not executed | QuadTrees.RemoveThrowsAtDepthThree | QuadTrees.RemoveDirectTakesItem |
| src/main/java/net/letscode/game/server/client/PlayerAdapter.java:50-59 | `putControllers` stores each entity's old controller into its own bindings and returns an empty map | putting a new adapter's controllers on an entity without controllers leaves a null ChatController binding, so a second put throws | the adapter's bindings left unchanged and the previous controllers returned | not executed | Players.SecondPutRefused | Players.PlayerAdapter.PutControllersIntended |
