/**
 * The browser client's Connection: a status string, and a list of message
 * listeners. A listener is an object whose `callback` property is called
 * with each incoming message that carries every other property of the
 * listener with a strictly equal value.
 */
module Connections {
  import opened Wrappers
  import opened Text
  import opened Json

  /** The functions a listener can hold; the default listener's opens an AuthenticationResponse. */
  datatype Callback = OpenAuthentication | Custom(id: nat)

  /** A listener property: a plain value to filter on, or a function. */
  datatype Property = Value(v: Json) | Function(f: Callback)

  /** A listener object, by its own properties. */
  type Listener = map<string, Property>

  /** One call of a listener's callback with the parsed message. */
  datatype Call = Call(callback: Callback, message: Json)

  /** What each callback's body does when called: returns (None), or throws an exception. */
  type CallbackRun = Callback -> Option<JsError>

  /** What onMessage did: the callbacks it called, in order, and the exception that ended it, if any. */
  datatype Delivery = Delivery(calls: seq<Call>, error: Option<JsError>)

  const UNSUPPORTED := "unsupported"
  const DISCONNECTED := "disconnected"
  const CONNECTING := "connecting"
  const CONNECTED := "connected"
  const CLOSED := "closed"
  const ERROR_PREFIX := "error: "

  /** The listener initListeners registers: authentication requests open the login flow. */
  const DefaultListener: Listener := map[
    "type" := Value(JStr("request")),
    "name" := Value(JStr("authenticate")),
    "callback" := Function(OpenAuthentication)]

  /** The listener's property `key` is present on the message with a strictly equal value. */
  predicate Agrees(l: Listener, key: string, data: Json)
    requires key in l
  {
    var own := OwnProperty(data, key);
    && own.Ok? && own.value.Some?
    && l[key].Value? && StrictEquals(own.value.value, l[key].v)
  }

  /**
   * Whether a listener is to be notified. Looking up a property of a null
   * message throws, which happens as soon as the listener has a property
   * besides its callback.
   */
  function MatchResult(l: Listener, data: Json): Result<bool, JsError>
  {
    if data.JNull? && exists p :: p in l && p != "callback" then Err(TypeError)
    else Ok(forall p :: p in l && p != "callback" ==> Agrees(l, p, data))
  }

  /** The function `l.callback` holds; None when calling it would throw a TypeError. */
  function CallbackOf(l: Listener): (r: Option<Callback>)
    ensures r.Some? <==> "callback" in l && l["callback"].Function?
  {
    if "callback" in l && l["callback"].Function? then Some(l["callback"].f) else None
  }

  /**
   * One step of the forEach over the listeners: a listener that matches has
   * its callback called; an exception, from the match or from the callback's
   * body, ends the walk and leaves onMessage.
   */
  function Step(d: Delivery, l: Listener, data: Json, run: CallbackRun): (r: Delivery)
    ensures d.error.Some? ==> r == d
    ensures d.error.None? ==> r == Delivery(d.calls + Hit(l, data), Raised(l, data, run))
  {
    if d.error.Some? then d
    else match MatchResult(l, data)
      case Err(e) => Delivery(d.calls, Some(e))
      case Ok(notify) =>
        if !notify then d
        else match CallbackOf(l)
          case None => Delivery(d.calls, Some(TypeError))
          case Some(cb) => Delivery(d.calls + [Call(cb, data)], run(cb))
  }

  /** onMessage over a given listener list: each listener in turn. */
  function Deliver(ls: seq<Listener>, data: Json, run: CallbackRun): (d: Delivery)
    ensures |d.calls| <= |ls|
  {
    if ls == [] then Delivery([], None)
    else Step(Deliver(ls[..|ls| - 1], data, run), ls[|ls| - 1], data, run)
  }

  /**
   * The exception reaching a listener throws, if any: a null message it
   * filters on, a match without a callback, or its callback's own exception.
   */
  function Raised(l: Listener, data: Json, run: CallbackRun): Option<JsError>
  {
    match MatchResult(l, data)
    case Err(e) => Some(e)
    case Ok(notify) =>
      if !notify then None
      else match CallbackOf(l)
        case None => Some(TypeError)
        case Some(cb) => run(cb)
  }

  /** The listener throws when reached. */
  predicate Fails(l: Listener, data: Json, run: CallbackRun)
  {
    Raised(l, data, run).Some?
  }

  /** Reference: the calls made by the matching listeners, front to back. */
  function Matching(ls: seq<Listener>, data: Json): seq<Call>
  {
    if ls == [] then [] else Hit(ls[0], data) + Matching(ls[1..], data)
  }

  /** The call one listener contributes to Matching. */
  function Hit(l: Listener, data: Json): seq<Call>
  {
    if MatchResult(l, data) == Ok(true) && CallbackOf(l).Some? then [Call(CallbackOf(l).value, data)] else []
  }

  class Connection {
    var status: string
    /** undefined (None) when the browser has no WebSocket support */
    var messageListeners: Option<seq<Listener>>

    /** initialize: without WebSocket support the status is "unsupported" and nothing else is set up. */
    constructor(webSocketSupported: bool)
      ensures !webSocketSupported ==> status == UNSUPPORTED && messageListeners == None
      ensures webSocketSupported ==> status == DISCONNECTED && messageListeners == Some([DefaultListener])
    {
      if !webSocketSupported {
        status := UNSUPPORTED;
        messageListeners := None;
      } else {
        status := DISCONNECTED;
        messageListeners := Some([]);
      }
      new;
      if webSocketSupported {
        InitListeners();
        assert [] + [DefaultListener] == [DefaultListener];
      }
    }

    method InitListeners()
      modifies this
      ensures status == old(status)
      ensures old(messageListeners).Some? ==> messageListeners == Some(old(messageListeners).value + [DefaultListener])
      ensures old(messageListeners).None? ==> messageListeners == None
    {
      var _ := MessageListener(DefaultListener);
    }

    /** messageListener: appends; on an unsupported connection push on undefined throws. */
    method MessageListener(l: Listener) returns (r: Outcome<JsError>)
      modifies this
      ensures status == old(status)
      ensures old(messageListeners).None? ==> r == Fail(TypeError) && messageListeners == None
      ensures old(messageListeners).Some? ==> r == Pass && messageListeners == Some(old(messageListeners).value + [l])
    {
      if messageListeners.None? {
        return Fail(TypeError);
      }
      messageListeners := Some(messageListeners.value + [l]);
      r := Pass;
    }

    /**
     * connect: the socket itself is not modelled. Only a connection built
     * without WebSocket support has no listener list, and on it
     * `new WebSocket(url)` names an undeclared identifier: a ReferenceError
     * propagates before the status is set. Otherwise the status becomes
     * "connecting".
     */
    method Connect() returns (r: Outcome<JsError>)
      modifies this
      ensures messageListeners == old(messageListeners)
      ensures old(messageListeners).None? ==> r == Fail(ReferenceError) && status == old(status)
      ensures old(messageListeners).Some? ==> r == Pass && status == CONNECTING
    {
      if messageListeners.None? {
        return Fail(ReferenceError);
      }
      status := CONNECTING;
      r := Pass;
    }

    method OnOpen()
      modifies this
      ensures status == CONNECTED && messageListeners == old(messageListeners)
    {
      status := CONNECTED;
    }

    method OnClose()
      modifies this
      ensures status == CLOSED && messageListeners == old(messageListeners)
    {
      status := CLOSED;
    }

    method OnError(error: string)
      modifies this
      ensures status == ERROR_PREFIX + error && messageListeners == old(messageListeners)
    {
      status := ERROR_PREFIX + error;
    }

    /** onMessage: every listener in order, each notified when it matches, until one throws. */
    method OnMessage(data: Json, run: CallbackRun) returns (d: Delivery)
      ensures messageListeners.None? ==> d == Delivery([], Some(TypeError))
      ensures messageListeners.Some? ==> d == Deliver(messageListeners.value, data, run)
    {
      if messageListeners.None? {
        return Delivery([], Some(TypeError));
      }
      var ls := messageListeners.value;
      d := Delivery([], None);
      var i := 0;
      while i < |ls|
        invariant 0 <= i <= |ls|
        invariant d == Deliver(ls[..i], data, run) && d.error.None?
      {
        assert ls[..i + 1][..i] == ls[..i];
        var m := Match(ls[i], data);
        if m.Err? {
          d := Delivery(d.calls, Some(m.error));
          ErrorSticks(ls, i + 1, data, run);
          return;
        }
        if m.value {
          var cb := CallbackOf(ls[i]);
          if cb.None? {
            d := Delivery(d.calls, Some(TypeError));
            ErrorSticks(ls, i + 1, data, run);
            return;
          }
          var thrown := run(cb.value);
          d := Delivery(d.calls + [Call(cb.value, data)], thrown);
          if thrown.Some? {
            ErrorSticks(ls, i + 1, data, run);
            return;
          }
        }
        i := i + 1;
      }
      assert ls[..i] == ls;
    }
  }

  /** The match loop: own properties other than "callback", stopping at the first one that differs. */
  method Match(l: Listener, data: Json) returns (r: Result<bool, JsError>)
    ensures r == MatchResult(l, data)
  {
    var keys := l.Keys;
    var notify := true;
    while keys != {}
      invariant keys <= l.Keys && notify
      invariant forall p :: p in l && p !in keys && p != "callback" ==> Agrees(l, p, data)
      decreases |keys|
    {
      var prop :| prop in keys;
      keys := keys - {prop};
      if prop == "callback" {
        continue;
      }
      var own := OwnProperty(data, prop);
      if own.Err? {
        return Err(own.error);
      }
      if own.value.None? || !(l[prop].Value? && StrictEquals(own.value.value, l[prop].v)) {
        notify := false;
        break;
      }
    }
    return Ok(notify);
  }

  /** Once a listener has thrown, later listeners are not reached. */
  lemma {:induction false} ErrorSticks(ls: seq<Listener>, i: nat, data: Json, run: CallbackRun)
    requires i <= |ls| && Deliver(ls[..i], data, run).error.Some?
    ensures Deliver(ls, data, run) == Deliver(ls[..i], data, run)
    decreases |ls| - i
  {
    if i < |ls| {
      assert ls[..i + 1][..i] == ls[..i];
      ErrorSticks(ls, i + 1, data, run);
    } else {
      assert ls[..i] == ls;
    }
  }

  lemma {:induction false} MatchingAppend(ls: seq<Listener>, l: Listener, data: Json)
    ensures Matching(ls + [l], data) == Matching(ls, data) + Matching([l], data)
    decreases |ls|
  {
    if ls != [] {
      var rest := ls[1..];
      assert (ls + [l])[1..] == rest + [l];
      MatchingAppend(rest, l, data);
      assert (ls + [l])[0] == ls[0];
    } else {
      assert ls + [l] == [l];
    }
  }

  /** Without an exception, exactly the matching listeners are called, in registration order. */
  lemma {:induction false} DeliverCallsMatching(ls: seq<Listener>, data: Json, run: CallbackRun)
    requires forall i :: 0 <= i < |ls| ==> !Fails(ls[i], data, run)
    ensures Deliver(ls, data, run) == Delivery(Matching(ls, data), None)
    decreases |ls|
  {
    if ls != [] {
      var init := ls[..|ls| - 1];
      DeliverCallsMatching(init, data, run);
      MatchingAppend(init, ls[|ls| - 1], data);
      assert init + [ls[|ls| - 1]] == ls;
      assert [ls[|ls| - 1]][1..] == [];
    }
  }

  /**
   * The first listener that throws ends delivery and passes its exception
   * on: the matching listeners up to it were called, itself included when
   * it was its callback that threw, and none after it.
   */
  lemma {:induction false} DeliverStopsAtFailure(ls: seq<Listener>, i: nat, data: Json, run: CallbackRun)
    requires i < |ls| && Fails(ls[i], data, run)
    requires forall j :: 0 <= j < i ==> !Fails(ls[j], data, run)
    ensures Deliver(ls, data, run) == Delivery(Matching(ls[..i + 1], data), Raised(ls[i], data, run))
  {
    DeliverCallsMatching(ls[..i], data, run);
    assert ls[..i + 1][..i] == ls[..i];
    MatchingAppend(ls[..i], ls[i], data);
    assert ls[..i] + [ls[i]] == ls[..i + 1];
    assert [ls[i]][1..] == [];
    assert Deliver(ls[..i + 1], data, run).error == Raised(ls[i], data, run);
    ErrorSticks(ls, i + 1, data, run);
  }

  /** A listener with nothing but a callback is notified of every message. */
  lemma CallbackOnlyMatchesAll(l: Listener, data: Json)
    requires l.Keys <= {"callback"}
    ensures MatchResult(l, data) == Ok(true)
  {
  }

  /** The default listener is notified exactly of a request named "authenticate"; a null message throws. */
  lemma DefaultListenerMatches(data: Json)
    ensures data.JNull? ==> MatchResult(DefaultListener, data) == Err(TypeError)
    ensures !data.JNull? ==> (
      MatchResult(DefaultListener, data) == Ok(
        && data.JObj?
        && "type" in data.fields && data.fields["type"] == JStr("request")
        && "name" in data.fields && data.fields["name"] == JStr("authenticate")))
  {
    assert "type" in DefaultListener && "type" != "callback";
    if !data.JNull? {
      var t, n := OwnProperty(data, "type"), OwnProperty(data, "name");
      if data.JArr? || data.JStr? {
        assert CanonicalIndex("type") == None;
        assert CanonicalIndex("name") == None;
      }
      if MatchResult(DefaultListener, data) == Ok(true) {
        assert Agrees(DefaultListener, "type", data) && Agrees(DefaultListener, "name", data);
      }
    }
  }

  /**
   * A fresh connection hands an authentication request to the default
   * listener's callback, once; whatever that callback throws reaches onMessage's caller.
   */
  lemma AuthenticationRequestOpensLogin(data: Json, run: CallbackRun)
    requires data.JObj? && "type" in data.fields && data.fields["type"] == JStr("request")
    requires "name" in data.fields && data.fields["name"] == JStr("authenticate")
    ensures Deliver([DefaultListener], data, run) == Delivery([Call(OpenAuthentication, data)], run(OpenAuthentication))
  {
    DefaultListenerMatches(data);
    assert [DefaultListener][..0] == [];
  }

  /**
   * A new connection that connects at once: without WebSocket support the
   * connect throws a ReferenceError and the status stays "unsupported";
   * with it the status is "connecting" and only the default listener is
   * registered.
   */
  method ConnectNew(webSocketSupported: bool) returns (r: Outcome<JsError>, status: string)
    ensures !webSocketSupported ==> r == Fail(ReferenceError) && status == UNSUPPORTED
    ensures webSocketSupported ==> r == Pass && status == CONNECTING
  {
    var c := new Connection(webSocketSupported);
    r := c.Connect();
    status := c.status;
  }
}
