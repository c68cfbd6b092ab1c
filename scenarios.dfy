/**
 * Properties that span several parts of the system: what reaches the event
 * bus from the request monitor, and the authentication round trip between
 * the server's request and the client's reply.
 */
module Scenarios {
  import opened Wrappers
  import opened Json
  import opened EventKinds
  import opened EventQueue
  import opened EventBus
  import opened Requests
  import opened Connections
  import opened ClientRequests

  /** The request monitor's methods carry no @EventHandler, so registering it adds no entry to any queue. */
  lemma MonitorRegistersNothing(o: Receiver, kind: Kind)
    ensures HandlerEntries(o, MonitorMethods, kind) == []
  {
    var first := MonitorMethods[..1];
    assert first[..0] == [] && first[0].annotation.None?;
    assert HandlerEntries(o, first, kind) == [];
    assert MonitorMethods[..|MonitorMethods| - 1] == first && MonitorMethods[1].annotation.None?;
  }

  /**
   * The authentication round trip: the client's default listener opens the
   * login flow for the server's serialized request; the reply it sends is a
   * "response" carrying the request's id, which the server's registry maps
   * back to the same request, and the entered details as its data.
   */
  lemma AuthenticationRoundTrip(req: Request, a: AuthenticationResponse, info: Json, registry: RequestRegistry,
                                run: CallbackRun)
    requires req.kind == Authentication
    requires a.request == JObj(ObjectOf(req.Serialize()))
    requires registry.Valid() && req.id in registry.requests && registry.requests[req.id] == req
    ensures Connections.Deliver([DefaultListener], a.request, run) == Delivery([Call(OpenAuthentication, a.request)], run(OpenAuthentication))
    ensures a.Reply(info).Ok?
    ensures
      var back := ObjectOf(a.Reply(info).value);
      && "type" in back && back["type"] == JStr("response")
      && "id" in back && AsText(back["id"]) == req.id
      && registry.Get(AsText(back["id"])) == Some(req)
      && "data" in back && back["data"] == info
  {
    var fields := req.Serialize();
    assert "type" in a.request.fields && a.request.fields["type"] == JStr("request");
    assert "name" in a.request.fields && a.request.fields["name"] == JStr("authenticate");
    assert "id" in a.request.fields && a.request.fields["id"] == JStr(req.id);
    AuthenticationRequestOpensLogin(a.request, run);
    ReplyEchoesId(a, req.id, info);
  }

  /** Entered login details are always refused by the server with the same error text. */
  lemma LoginDetailsRefused(a: AuthenticationResponse, info: Json, id: string)
    requires a.request.JObj? && "id" in a.request.fields && a.request.fields["id"] == JStr(id)
    requires info.JObj? && "type" in info.fields && info.fields["type"] == JStr("login")
    ensures a.Reply(info).Ok?
    ensures AuthResponse(JObj(ObjectOf(a.Reply(info).value))).1 == ["omg wat"]
  {
    ReplyEchoesId(a, id, info);
    var back := JObj(ObjectOf(a.Reply(info).value));
    assert Has(back, "data") && back.fields["data"] == info;
    LoginAlwaysRefused(back);
  }
}
