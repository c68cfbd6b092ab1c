/**
 * Server-initiated requests and the correlation of a client's response with
 * the request it answers: the request registry, the monitor that fills it,
 * and the dispatchers for "response" and "request" messages.
 */
module Requests {
  import opened Wrappers
  import opened Text
  import opened Json
  import opened MessageEvents
  import opened Envelopes
  import opened EventKinds
  import opened EventQueue
  import opened Handlers

  const REQUEST_TYPE := "request"
  const TWO_64: int := 0x1_0000_0000_0000_0000

  /** Long.toHexString: the 64 bits of a long, read as unsigned, in lower-case hexadecimal. */
  function LongToHex(bits: int): string
  {
    NatToLowerHex(bits % TWO_64)
  }

  /** A request id reads back as the low 64 bits it was made from. */
  lemma RequestIdRoundTrip(bits: int)
    ensures ParseHex(LongToHex(bits)) == Some(bits % TWO_64)
  {
    LowerHexRoundTrip(bits % TWO_64);
  }

  /** A listener object added to a request, compared by identity. */
  datatype ListenerId = ListenerId(id: nat)

  /** The concrete request classes; AuthenticationRequest is the only one. */
  datatype RequestKind = Authentication

  /** Which private handler AuthenticationRequest.onResponseReceived calls, with its parameters as bound. */
  datatype AuthCall =
    | NoCall
    | HandleLogin(username: string, password: string)
    | HandleRegister(username: string, password: string, email: string)

  /**
   * AuthenticationRequest.onResponseReceived: the handler called and the
   * texts of the error notifications sent back. handleRegister is declared
   * (username, password, email) but called with (username, email, password).
   */
  function AuthResponse(root: Json): (AuthCall, seq<string>)
  {
    if !Has(root, "data") then (NoCall, ["Malformed message"])
    else
      var data := root.fields["data"];
      var t := PathText(data, "type");
      if t == "login" then
        (HandleLogin(PathText(data, "username"), PathText(data, "password")), ["omg wat"])
      else if t == "register" then
        (HandleRegister(PathText(data, "username"), PathText(data, "email"), PathText(data, "password")), [])
      else (NoCall, ["Invalid auth type"])
  }

  /** The notifications sent are error notifications with exactly these texts, in order. */
  ghost predicate ErrorsWithTexts(sent: seq<Notification>, texts: seq<string>)
    reads sent
  {
    && |sent| == |texts|
    && forall i :: 0 <= i < |sent| ==> sent[i].clazz == Some(CLASS_ERROR) && sent[i].message == Some(texts[i])
  }

  /** One listener invocation made by Request.notify. */
  datatype ListenerCall = ListenerCall(listener: ListenerId, root: Json)

  /** What a listener's onResponseReceived does: return, or throw a runtime exception. */
  datatype ListenerOutcome = Returns | Throws

  /** One step of Request.notify: the subclass hook, or one listener's call. */
  datatype NotifyStep =
    | Hook(auth: AuthCall, sent: seq<Notification>)
    | ToListener(listener: ListenerCall)

  /** The notifications the hook step of a trace sent. */
  function HookSent(trace: seq<NotifyStep>): seq<Notification>
  {
    if |trace| > 0 && trace[0].Hook? then trace[0].sent else []
  }

  /**
   * A notify trace for these listeners: the hook comes first, answering the
   * message as AuthResponse says, and then the listeners once each, in
   * order, up to the first that throws. `raised` says whether one threw,
   * which passes its exception on to notify's caller; when none throws,
   * every listener was called.
   */
  ghost predicate NotifiedInOrder(trace: seq<NotifyStep>, raised: bool, listeners: seq<ListenerId>, root: Json,
                                  run: ListenerId -> ListenerOutcome)
    reads HookSent(trace)
  {
    && 1 <= |trace| <= |listeners| + 1
    && trace[0].Hook?
    && trace[0].auth == AuthResponse(root).0
    && ErrorsWithTexts(trace[0].sent, AuthResponse(root).1)
    && (forall i :: 1 <= i < |trace| ==> trace[i] == ToListener(ListenerCall(listeners[i - 1], root)))
    && (forall i :: 0 <= i < |trace| - 2 ==> run(listeners[i]) == Returns)
    && (raised <==> |trace| > 1 && run(listeners[|trace| - 2]) == Throws)
    && (!raised ==> |trace| == |listeners| + 1)
  }

  class Request {
    const session: Session
    const id: string
    const kind: RequestKind
    var listeners: seq<ListenerId>

    /** The id is Long.toHexString of a random UUID's low bits, given here as an input. */
    constructor (session: Session, kind: RequestKind, uuidLowBits: int)
      ensures this.session == session && this.kind == kind
      ensures id == LongToHex(uuidLowBits) && listeners == []
    {
      this.session := session;
      this.kind := kind;
      id := LongToHex(uuidLowBits);
      listeners := [];
    }

    /** getName: the name the client's listeners match on. */
    function Name(): string
    {
      match kind
      case Authentication => "authenticate"
    }

    method AddListener(l: ListenerId)
      modifies this`listeners
      ensures listeners == old(listeners) + [l]
    {
      listeners := listeners + [l];
    }

    /** listener: the chainable form of AddListener, returning this request. */
    method Listener(l: ListenerId) returns (self: Request)
      modifies this`listeners
      ensures self == this && listeners == old(listeners) + [l]
    {
      AddListener(l);
      self := this;
    }

    /** The subclass hook; for authentication it sends the notifications AuthResponse names. */
    method OnResponseReceived(root: Json) returns (call: AuthCall, sent: seq<Notification>)
      ensures call == AuthResponse(root).0
      ensures ErrorsWithTexts(sent, AuthResponse(root).1)
    {
      var texts := AuthResponse(root).1;
      call := AuthResponse(root).0;
      sent := [];
      var i := 0;
      while i < |texts|
        invariant 0 <= i <= |texts|
        invariant ErrorsWithTexts(sent, texts[..i])
      {
        var n := Notification.Error(texts[i]);
        sent := sent + [n];
        i := i + 1;
      }
    }

    /** notify: the hook first, then every listener once, in the order added, until one throws. */
    method Notify(root: Json, run: ListenerId -> ListenerOutcome) returns (trace: seq<NotifyStep>, raised: bool)
      ensures NotifiedInOrder(trace, raised, listeners, root, run)
    {
      var call, sent := OnResponseReceived(root);
      trace := [Hook(call, sent)];
      var i := 0;
      while i < |listeners|
        invariant 0 <= i <= |listeners|
        invariant |trace| == i + 1 && trace[0] == Hook(call, sent)
        invariant forall j :: 1 <= j < |trace| ==> trace[j] == ToListener(ListenerCall(listeners[j - 1], root))
        invariant forall j :: 0 <= j < i ==> run(listeners[j]) == Returns
        invariant ErrorsWithTexts(sent, AuthResponse(root).1)
      {
        trace := trace + [ToListener(ListenerCall(listeners[i], root))];
        if run(listeners[i]) == Throws {
          return trace, true;
        }
        i := i + 1;
      }
      raised := false;
    }

    /** serializeSubclass: AuthenticationRequest writes an empty object. */
    function Data(): Json
    {
      match kind
      case Authentication => JObj(map[])
    }

    /** serialize: type, name, id, then the subclass data. */
    function Serialize(): (fields: FieldList)
      ensures Keys(fields) == ["type", "name", "id", "data"]
      ensures FieldValue(fields, "type") == Some(JStr(REQUEST_TYPE))
      ensures FieldValue(fields, "name") == Some(JStr(Name()))
      ensures FieldValue(fields, "id") == Some(JStr(id))
    {
      var last := ("data", Data());
      var third := ("id", JStr(id));
      var second := ("name", JStr(Name()));
      var first := ("type", JStr(REQUEST_TYPE));
      FieldValueCons(last, [], "id");
      FieldValueCons(third, [last], "id");
      FieldValueCons(third, [last], "name");
      FieldValueCons(second, [third, last], "id");
      FieldValueCons(second, [third, last], "name");
      FieldValueCons(first, [second, third, last], "id");
      FieldValueCons(first, [second, third, last], "name");
      [first, second, third, last]
    }
  }

  /** The registration handler receives the e-mail as its password and the password as its e-mail. */
  lemma RegisterArgumentsSwapped(root: Json, username: string, password: string, email: string)
    requires root == JObj(map["data" := JObj(map["type" := JStr("register"), "username" := JStr(username),
                                                  "password" := JStr(password), "email" := JStr(email)])])
    ensures AuthResponse(root) == (HandleRegister(username, email, password), [])
  {
  }

  /** A login attempt is always answered with the same error. */
  lemma LoginAlwaysRefused(root: Json)
    requires Has(root, "data") && PathText(root.fields["data"], "type") == "login"
    ensures AuthResponse(root).1 == ["omg wat"]
  {
  }

  /** Exactly one notification is sent unless the response is a registration. */
  lemma AuthRepliesOnce(root: Json)
    ensures |AuthResponse(root).1| == (if AuthResponse(root).0.HandleRegister? then 0 else 1)
  {
  }

  /** RequestRegistry: outstanding requests by id. */
  class RequestRegistry {
    var requests: map<string, Request>

    /** Every request is filed under its own id. */
    predicate Valid()
      reads this
    {
      forall k :: k in requests ==> requests[k].id == k
    }

    constructor()
      ensures Valid() && requests == map[]
    {
      requests := map[];
    }

    /** register: binds the request under its id, replacing any request with the same id. */
    method Register(r: Request)
      requires Valid()
      modifies this`requests
      ensures Valid() && requests == old(requests)[r.id := r]
    {
      requests := requests[r.id := r];
    }

    function Get(id: string): (r: Option<Request>)
      reads this
      ensures r.Some? <==> id in requests
      ensures r.Some? ==> r.value == requests[id]
      ensures Valid() && r.Some? ==> r.value.id == id
    {
      if id in requests then Some(requests[id]) else None
    }
  }

  /** What a session sends, as the monitor sees it. */
  datatype Sent = SentRequest(request: Request) | SentNotification(n: Notification) | SentOutgoing(m: OutgoingMessage)

  /** RequestMonitor: records every outgoing request in the registry. */
  class RequestMonitor {
    constructor()
    {
    }

    method OnMessageSent(client: Session, s: Sent, registry: RequestRegistry)
      requires registry.Valid()
      modifies registry`requests
      ensures registry.Valid()
      ensures registry.requests == if s.SentRequest? then old(registry.requests)[s.request.id := s.request]
                                   else old(registry.requests)
    {
      if s.SentRequest? {
        registry.Register(s.request);
      }
    }

    /** onMessageReceived does nothing. */
    method OnMessageReceived(client: Session, node: Json)
    {
    }
  }

  /**
   * The monitor's methods as the event bus sees them: two parameters each and
   * no @EventHandler annotation.
   */
  const MonitorMethods: seq<Method> := [
    Method("onMessageSent", [OtherParam("ClientSession"), OtherParam("JsonSerializable")], None),
    Method("onMessageReceived", [OtherParam("ClientSession"), OtherParam("JsonNode")], None)
  ]

  /** What a "response" message does once the RequestDispatcher has looked at it. */
  datatype RequestDispatch =
    | MissingId
    | UnknownId(id: string)
    | Notified(request: Request, trace: seq<NotifyStep>, raised: bool)

  /**
   * How a "response" message is answered, given the registry's contents: no
   * id, an unknown id, or the request filed under the id notified with it.
   */
  ghost predicate Answered(message: Json, requests: map<string, Request>, run: ListenerId -> ListenerOutcome, r: RequestDispatch)
    reads if r.Notified? then {r.request} else {}, if r.Notified? then HookSent(r.trace) else []
  {
    if !Has(message, "id") then r == MissingId
    else
      var id := AsText(message.fields["id"]);
      if id !in requests then r == UnknownId(id)
      else
        && r.Notified?
        && r.request == requests[id]
        && NotifiedInOrder(r.trace, r.raised, r.request.listeners, message, run)
  }

  /** The RequestDispatcher constructor: find the request by the message's id and notify it. */
  method DispatchResponse(session: Session, message: Json, registry: RequestRegistry, run: ListenerId -> ListenerOutcome)
    returns (r: RequestDispatch)
    ensures Answered(message, registry.requests, run, r)
  {
    if !Has(message, "id") {
      return MissingId;
    }
    var id := AsText(Get(message, "id").value);
    var found := registry.Get(id);
    if found.None? {
      return UnknownId(id);
    }
    var request := found.value;
    var trace, raised := request.Notify(message, run);
    return Notified(request, trace, raised);
  }

  /** What a "request" message does once the ResponseDispatcher has looked at it. */
  datatype ResponseDispatch =
    | MissingName
    | MissingRequestId
    | UnknownName(name: string)
    | HandlerConstructed(handler: HandlerClass, session: Session, node: Json)

  /**
   * The ResponseDispatcher constructor: needs a name and an id, then
   * constructs the class the response handler factory binds to the name;
   * any failure of that construction is caught.
   */
  function DispatchRequest(session: Session, node: Json, factory: HandlerFactory): (r: ResponseDispatch)
    reads factory
    ensures r == MissingName <==> !Has(node, "name")
    ensures r == MissingRequestId <==> Has(node, "name") && !Has(node, "id")
    ensures r.UnknownName? ==> r.name == AsText(node.fields["name"]) && r.name !in factory.handlers
    ensures r.HandlerConstructed? ==> AsText(node.fields["name"]) in factory.handlers
                                      && r.handler == factory.handlers[AsText(node.fields["name"])]
                                      && r.session == session && r.node == node
  {
    if !Has(node, "name") then MissingName
    else if !Has(node, "id") then MissingRequestId
    else
      var name := AsText(Get(node, "name").value);
      match factory.GetHandler(name)
      case None => UnknownName(name)
      case Some(c) => HandlerConstructed(c, session, node)
  }
}
