/**
 * The per-session message dispatcher: an incoming message's "type" selects
 * the handler class bound to it, which is constructed from the session and
 * the message; a message event so constructed is pushed on the dispatcher's bus.
 */
module Dispatcher {
  import opened Wrappers
  import opened Json
  import opened EventKinds
  import opened EventQueue
  import opened EventBus
  import opened MessageEvents
  import opened Handlers
  import opened Requests

  /**
   * The server-wide singletons the dispatchers reach: the three handler
   * factories and the request registry, each created once.
   */
  class Services {
    const messageHandlers: HandlerFactory
    const requestHandlers: HandlerFactory
    const responseHandlers: HandlerFactory
    const registry: RequestRegistry

    constructor()
      ensures messageHandlers.annotation == MessageHandler
      ensures messageHandlers.handlers == Seed(ScannedClasses, MessageHandler)
      ensures requestHandlers.annotation == RequestHandler
      ensures requestHandlers.handlers == Seed(ScannedClasses, RequestHandler)
      ensures responseHandlers.annotation == ResponseHandler
      ensures responseHandlers.handlers == Seed(ScannedClasses, ResponseHandler)
      ensures registry.Valid() && registry.requests == map[]
    {
      messageHandlers := new HandlerFactory(MessageHandler);
      requestHandlers := new HandlerFactory(RequestHandler);
      responseHandlers := new HandlerFactory(ResponseHandler);
      registry := new RequestRegistry();
    }
  }

  /** The message event a handler class's (session, message) constructor makes, for the three message event classes. */
  function NewMessageEvent(c: HandlerClass, session: Session, node: Json): (r: Option<Result<MessageEvent, MessageError>>)
    ensures r.Some? <==> c in {ChatMessageEventClass, LoginMessageEventClass, RegistrationMessageEventClass}
    ensures r.Some? && r.value.Ok? ==> r.value.value.session == session && r.value.value.node == node
  {
    match c
    case ChatMessageEventClass => Some(NewChatMessage(session, node))
    case LoginMessageEventClass => Some(NewLoginMessage(session, node))
    case RegistrationMessageEventClass => Some(NewRegistrationMessage(session, node))
    case _ => None
  }

  /** What one incoming message led to. */
  datatype Dispatch =
    | DroppedNoType
    | UnknownType(messageType: string)
    | ConstructionFailed(handler: HandlerClass, error: MessageError)
    | Pushed(event: MessageEvent, trace: seq<Entry>)
    | ResponseReceived(response: RequestDispatch)
    | RequestReceived(request: ResponseDispatch)
    | ConstructedOther(handler: HandlerClass)

  class MessageDispatcher {
    const bus: EventBus

    /** The dispatcher's bus declares ChatMessageEvent only. */
    constructor()
      ensures bus.Valid() && bus.definitions == [QueueDef(ChatMessageEvent, [])]
      ensures fresh(bus)
    {
      var b := new EventBus();
      b.Add(ChatMessageEvent);
      bus := b;
    }

    /**
     * onMessageReceived: drop a message without a type or with an unbound
     * type; otherwise construct the bound class, catching any failure, and
     * push the result if it is a message event.
     */
    method OnMessageReceived(session: Session, node: Json, services: Services, run: Entry -> HandlerResult,
                             listen: ListenerId -> ListenerOutcome)
      returns (r: Dispatch)
      ensures r == DroppedNoType <==> !Has(node, "type")
      ensures Has(node, "type") ==>
        var t := AsText(node.fields["type"]);
        match services.messageHandlers.GetHandler(t)
        case None => r == UnknownType(t)
        case Some(c) =>
          match NewMessageEvent(c, session, node)
          case Some(Err(e)) => r == ConstructionFailed(c, e)
          case Some(Ok(ev)) => r == Pushed(ev, Delivered(bus.definitions, KindOf(ev), run))
          case None =>
            if c == RequestDispatcherClass then
              r.ResponseReceived? && Answered(node, services.registry.requests, listen, r.response)
            else if c == ResponseDispatcherClass then
              r == RequestReceived(DispatchRequest(session, node, services.responseHandlers))
            else r == ConstructedOther(c)
    {
      if !Has(node, "type") {
        return DroppedNoType;
      }
      var t := AsText(Get(node, "type").value);
      var found := services.messageHandlers.GetHandler(t);
      if found.None? {
        return UnknownType(t);
      }
      var c := found.value;
      var made := NewMessageEvent(c, session, node);
      if made.Some? {
        if made.value.Err? {
          return ConstructionFailed(c, made.value.error);
        }
        var ev := made.value.value;
        var trace := bus.Push(KindOf(ev), run);
        return Pushed(ev, trace);
      }
      if c == RequestDispatcherClass {
        var response := DispatchResponse(session, node, services.registry, listen);
        return ResponseReceived(response);
      }
      if c == ResponseDispatcherClass {
        return RequestReceived(DispatchRequest(session, node, services.responseHandlers));
      }
      return ConstructedOther(c);
    }
  }

  /**
   * The dispatcher's bus only ever has the ChatMessageEvent queue (registration
   * keeps the declared classes), so login and registration events reach nobody.
   */
  lemma OnlyChatEventsReachHandlers(defs: seq<QueueDef>, e: MessageEvent, run: Entry -> HandlerResult)
    requires forall i :: 0 <= i < |defs| ==> defs[i].eventType == ChatMessageEvent
    requires !e.ChatMessage?
    ensures Delivered(defs, KindOf(e), run) == []
  {
    assert KindOf(e) != ChatMessageEvent;
  }

  /** The dispatcher's one @EventHandler method, as the session's bus sees it. */
  const DispatcherMethods: seq<Method> :=
    [Method("onMessageReceived", [EventParam(IncomingMessageEvent)], Some(HandlerAnnotation(NORMAL, false)))]
}
