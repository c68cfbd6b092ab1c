/**
 * The client's RequestMessage (an outgoing request with a random id and
 * response listeners) and AuthenticationResponse (the reply to the
 * server's "authenticate" request once login details are entered).
 */
module ClientRequests {
  import opened Wrappers
  import opened Text
  import opened Json

  /** The number of hexadecimal digits in a request id. */
  const ID_LENGTH := 32

  /** String.prototype.toUpperCase on the characters toString(16) produces. */
  function UpperCase(c: char): (u: char)
    ensures 'a' <= c <= 'z' ==> u as int == c as int - 32
    ensures !('a' <= c <= 'z') ==> u == c
  {
    if 'a' <= c <= 'z' then (c as int - 32) as char else c
  }

  /** Math.floor(Math.random() * 16) for one draw of Math.random. */
  function Digit(draw: real): (d: nat)
    requires 0.0 <= draw < 1.0
    ensures d < 16
  {
    (draw * 16.0).Floor
  }

  /** One id character: the digit's base-16 text, upper-cased. */
  function IdChar(d: nat): (c: char)
    requires d < 16
    ensures c == UpperHexDigits[d]
    ensures HexValue(c) == Some(d)
  {
    UpperCase(NatToLowerHex(d)[0])
  }

  /** The random draws an id is built from: ID_LENGTH values in [0, 1). */
  predicate Draws(draws: seq<real>)
  {
    |draws| == ID_LENGTH && forall i :: 0 <= i < |draws| ==> 0.0 <= draws[i] < 1.0
  }

  /** The id loop: one upper-case hexadecimal character per draw. */
  method GenerateId(draws: seq<real>) returns (id: string)
    requires Draws(draws)
    ensures |id| == ID_LENGTH
    ensures forall i :: 0 <= i < |id| ==> id[i] in UpperHexDigits
    ensures forall i :: 0 <= i < |id| ==> HexValue(id[i]) == Some(Digit(draws[i]))
  {
    id := "";
    for i := 0 to ID_LENGTH
      invariant |id| == i
      invariant forall j :: 0 <= j < i ==> id[j] == IdChar(Digit(draws[j]))
    {
      var c := IdChar(Digit(draws[i]));
      id := id + [c];
    }
  }

  /** A function passed to listener(). */
  datatype ResponseCallback = ResponseCallback(id: nat)

  /** The object each response listener receives. */
  datatype ResponseEvent = ResponseEvent(request: RequestMessage, response: Json, name: Option<Json>, data: Option<Json>)

  datatype ResponseCall = ResponseCall(callback: ResponseCallback, event: ResponseEvent)

  /** `value[key]` for a parsed value: undefined (None) when absent; null throws. */
  function Property(value: Json, key: string): (r: Result<Option<Json>, JsError>)
    ensures r.Err? <==> value.JNull?
  {
    OwnProperty(value, key)
  }

  class RequestMessage {
    const name: string
    /** undefined (None) when the request carries no data */
    const data: Option<Json>
    const id: string
    var listeners: seq<ResponseCallback>

    /** initialize: keeps name and data, draws an id, and starts with no listeners. */
    constructor(name: string, data: Option<Json>, draws: seq<real>)
      requires Draws(draws)
      ensures this.name == name && this.data == data && listeners == []
      ensures |id| == ID_LENGTH && forall i :: 0 <= i < |id| ==> HexValue(id[i]) == Some(Digit(draws[i]))
      ensures forall i :: 0 <= i < |id| ==> id[i] in UpperHexDigits
    {
      this.name := name;
      this.data := data;
      var generated := GenerateId(draws);
      this.id := generated;
      listeners := [];
    }

    /** listener: appends the callback. */
    method Listener(callback: ResponseCallback)
      modifies this
      ensures listeners == old(listeners) + [callback]
    {
      listeners := listeners + [callback];
    }

    /**
     * handleResponse: every listener in order, with the request, the
     * response and the response's name and data, until a listener's body
     * throws; that exception ends the forEach and leaves handleResponse.
     * onResponseReceived is not called. Reading a property of a null
     * response throws before the first call.
     */
    method HandleResponse(resp: Json, run: ResponseCallback -> Option<JsError>) returns (calls: seq<ResponseCall>, error: Option<JsError>)
      ensures resp.JNull? && listeners != [] ==> calls == [] && error == Some(TypeError)
      ensures !(resp.JNull? && listeners != []) ==> (
        && |calls| <= |listeners|
        && (forall i :: 0 <= i < |calls| ==> (
          && calls[i].callback == listeners[i]
          && calls[i].event == ResponseEvent(this, resp, Property(resp, "name").value, Property(resp, "data").value)))
        && (forall i :: 0 <= i < |calls| - 1 ==> run(listeners[i]).None?)
        && (error.None? ==> |calls| == |listeners| && forall i :: 0 <= i < |calls| ==> run(listeners[i]).None?)
        && (error.Some? ==> |calls| > 0 && error == run(listeners[|calls| - 1])))
    {
      calls := [];
      var i := 0;
      while i < |listeners|
        invariant 0 <= i <= |listeners| && |calls| == i
        invariant i > 0 ==> !resp.JNull?
        invariant forall j :: 0 <= j < i ==> (
          && calls[j].callback == listeners[j]
          && calls[j].event == ResponseEvent(this, resp, Property(resp, "name").value, Property(resp, "data").value))
        invariant forall j :: 0 <= j < i ==> run(listeners[j]).None?
      {
        var name := Property(resp, "name");
        if name.Err? {
          return [], Some(name.error);
        }
        var data := Property(resp, "data");
        calls := calls + [ResponseCall(listeners[i], ResponseEvent(this, resp, name.value, data.value))];
        var thrown := run(listeners[i]);
        if thrown.Some? {
          return calls, thrown;
        }
        i := i + 1;
      }
      error := None;
    }

    /**
     * serialize: JSON.stringify({id, type: "request", name, data}); an
     * undefined data is left out.
     */
    function Serialize(): (fields: FieldList)
      ensures Keys(fields) == ["id", "type", "name"] + (if data.Some? then ["data"] else [])
      ensures FieldValue(fields, "id") == Some(JStr(id))
      ensures FieldValue(fields, "type") == Some(JStr("request"))
      ensures FieldValue(fields, "name") == Some(JStr(name))
      ensures FieldValue(fields, "data") == data
    {
      var props := [("id", Some(JStr(id))), ("type", Some(JStr("request"))), ("name", Some(JStr(name))), ("data", data)];
      var fields := Stringify(props);
      StringifyKeys(props);
      Keys4(props);
      Lookup4(props, "id");
      Lookup4(props, "type");
      Lookup4(props, "name");
      Lookup4(props, "data");
      fields
    }
  }

  /** The keys a stringified property list keeps: those whose value is defined, in order. */
  function DefinedKeys(props: seq<(string, Option<Json>)>): seq<string>
  {
    if props == [] then []
    else (if props[0].1.Some? then [props[0].0] else []) + DefinedKeys(props[1..])
  }

  lemma {:induction false} StringifyKeys(props: seq<(string, Option<Json>)>)
    ensures Keys(Stringify(props)) == DefinedKeys(props)
    decreases |props|
  {
    if props != [] {
      StringifyKeys(props[1..]);
      if props[0].1.Some? {
        FieldValueCons((props[0].0, props[0].1.value), Stringify(props[1..]), "");
      }
    }
  }

  /** The keys a single property contributes once stringified. */
  function KeyOf(p: (string, Option<Json>)): seq<string>
  {
    if p.1.Some? then [p.0] else []
  }

  /** Lookup in a property list whose first entry is p. */
  function LookupIn(p: (string, Option<Json>), key: string, rest: Option<Json>): Option<Json>
  {
    if p.0 == key && p.1.Some? then p.1 else rest
  }

  /** DefinedKeys on a four-property object literal, spelled out. */
  lemma Keys4(props: seq<(string, Option<Json>)>)
    requires |props| == 4
    ensures DefinedKeys(props) == KeyOf(props[0]) + KeyOf(props[1]) + KeyOf(props[2]) + KeyOf(props[3])
  {
    var s1, s2, s3 := props[1..], props[1..][1..], props[1..][1..][1..];
    assert s3[1..] == [];
    assert DefinedKeys(s3) == KeyOf(props[3]);
    assert DefinedKeys(s2) == KeyOf(props[2]) + KeyOf(props[3]);
    assert DefinedKeys(s1) == KeyOf(props[1]) + KeyOf(props[2]) + KeyOf(props[3]);
  }

  /** Lookup on a four-property object literal, spelled out. */
  lemma Lookup4(props: seq<(string, Option<Json>)>, key: string)
    requires |props| == 4
    ensures Lookup(props, key) ==
      LookupIn(props[0], key, LookupIn(props[1], key, LookupIn(props[2], key, LookupIn(props[3], key, None))))
  {
    var s1, s2, s3 := props[1..], props[1..][1..], props[1..][1..][1..];
    assert s3[1..] == [];
    assert Lookup(s3, key) == LookupIn(props[3], key, None);
    assert Lookup(s2, key) == LookupIn(props[2], key, Lookup(s3, key));
    assert Lookup(s1, key) == LookupIn(props[1], key, Lookup(s2, key));
  }

  /** AuthenticationResponse: remembers the request message it answers. */
  class AuthenticationResponse {
    const request: Json

    /** initialize: the login screen it shows is not modelled. */
    constructor(request: Json)
      ensures this.request == request
    {
      this.request := request;
    }

    /**
     * infoEntered: the envelope sent back, {type: "response", name: "login",
     * id: request.id, data: info}; an absent id is left out, and a null
     * request throws.
     */
    function Reply(info: Json): (r: Result<FieldList, JsError>)
      ensures r.Err? <==> request.JNull?
      ensures r.Ok? ==> Keys(r.value) == ["type", "name"] + (if Property(request, "id").value.Some? then ["id"] else []) + ["data"]
      ensures r.Ok? ==> (
        && FieldValue(r.value, "type") == Some(JStr("response"))
        && FieldValue(r.value, "name") == Some(JStr("login"))
        && FieldValue(r.value, "id") == Property(request, "id").value
        && FieldValue(r.value, "data") == Some(info))
    {
      match Property(request, "id")
      case Err(e) => Err(e)
      case Ok(id) =>
        var props := [("type", Some(JStr("response"))), ("name", Some(JStr("login"))), ("id", id), ("data", Some(info))];
        StringifyKeys(props);
        Keys4(props);
        Lookup4(props, "type");
        Lookup4(props, "name");
        Lookup4(props, "id");
        Lookup4(props, "data");
        Ok(Stringify(props))
    }

  }

  /** The reply to a request object echoes its id and carries the entered details unchanged. */
  lemma ReplyEchoesId(a: AuthenticationResponse, id: string, info: Json)
    requires a.request.JObj? && "id" in a.request.fields && a.request.fields["id"] == JStr(id)
    ensures a.Reply(info).Ok?
    ensures FieldValue(a.Reply(info).value, "id") == Some(JStr(id))
    ensures FieldValue(a.Reply(info).value, "data") == Some(info)
    ensures Keys(a.Reply(info).value) == ["type", "name", "id", "data"]
  {
  }
}
