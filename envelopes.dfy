/** Server-to-client envelopes: notifications and the outgoing-message family. */
module Envelopes {
  import opened Wrappers
  import opened Json

  const NOTIFICATION_TYPE := "notification"
  const CLASS_INFO := "info"
  const CLASS_WARNING := "warning"
  const CLASS_ERROR := "error"

  /** JsonGenerator.writeStringField writes a Java null string as JSON null. */
  function StringOrNull(s: Option<string>): Json
  {
    match s
    case None => JNull
    case Some(t) => JStr(t)
  }

  /** Reads a string-or-null field value back. */
  function ReadStringOrNull(v: Option<Json>): Option<Option<string>>
  {
    match v
    case Some(JNull) => Some(None)
    case Some(JStr(t)) => Some(Some(t))
    case _ => None
  }

  /** A notification an operator or handler shows to a client: a class and a message, either possibly null. */
  class Notification {
    var clazz: Option<string>
    var message: Option<string>

    /** The no-argument constructor leaves both fields null. */
    constructor Empty()
      ensures clazz == None && message == None
    {
      clazz := None;
      message := None;
    }

    constructor (clazz: Option<string>, message: Option<string>)
      ensures this.clazz == clazz && this.message == message
    {
      this.clazz := clazz;
      this.message := message;
    }

    method SetClazz(c: Option<string>)
      modifies this`clazz
      ensures clazz == c
    {
      clazz := c;
    }

    method SetMessage(m: Option<string>)
      modifies this`message
      ensures message == m
    {
      message := m;
    }

    /** serialize: the envelope type, then the class and the message. */
    function Serialize(): (fields: FieldList)
      reads this
      ensures Keys(fields) == ["type", "class", "message"]
      ensures FieldValue(fields, "type") == Some(JStr(NOTIFICATION_TYPE))
    {
      var last := ("message", StringOrNull(message));
      FieldValueCons(last, [], "type");
      FieldValueCons(("class", StringOrNull(clazz)), [last], "type");
      FieldValueCons(("type", JStr(NOTIFICATION_TYPE)), [("class", StringOrNull(clazz)), last], "type");
      [("type", JStr(NOTIFICATION_TYPE)), ("class", StringOrNull(clazz)), last]
    }

    static method Info(text: string) returns (n: Notification)
      ensures fresh(n) && n.clazz == Some(CLASS_INFO) && n.message == Some(text)
    {
      n := new Notification(Some(CLASS_INFO), Some(text));
    }

    static method Warning(text: string) returns (n: Notification)
      ensures fresh(n) && n.clazz == Some(CLASS_WARNING) && n.message == Some(text)
    {
      n := new Notification(Some(CLASS_WARNING), Some(text));
    }

    static method Error(text: string) returns (n: Notification)
      ensures fresh(n) && n.clazz == Some(CLASS_ERROR) && n.message == Some(text)
    {
      n := new Notification(Some(CLASS_ERROR), Some(text));
    }
  }

  /** What a client reads from a notification envelope: its class and message. */
  function DecodeNotification(fields: FieldList): Option<(Option<string>, Option<string>)>
  {
    if FieldValue(fields, "type") != Some(JStr(NOTIFICATION_TYPE)) then None
    else match (ReadStringOrNull(FieldValue(fields, "class")), ReadStringOrNull(FieldValue(fields, "message")))
      case (Some(c), Some(m)) => Some((c, m))
      case _ => None
  }

  /** A serialized notification carries its class and message, nulls included. */
  lemma NotificationRoundTrip(n: Notification)
    ensures DecodeNotification(n.Serialize()) == Some((n.clazz, n.message))
  {
    var last := ("message", StringOrNull(n.message));
    var middle := ("class", StringOrNull(n.clazz));
    var f := n.Serialize();
    assert f == [("type", JStr(NOTIFICATION_TYPE))] + ([middle] + [last]);
    FieldValueCons(last, [], "message");
    FieldValueCons(middle, [last], "message");
    FieldValueCons(middle, [last], "class");
    FieldValueCons(("type", JStr(NOTIFICATION_TYPE)), [middle, last], "message");
    FieldValueCons(("type", JStr(NOTIFICATION_TYPE)), [middle, last], "class");
  }

  // --------------------------------------------------------- outgoing messages

  const STATE_CONNECT := "connect"
  const STATE_LOGIN := "login"
  const STATE_ZONE := "zone"

  /** The outgoing-message subclasses; the zone a ZoneEnteredMessage names is never written. */
  datatype OutgoingMessage =
    | StateChangeMessage(state: string)
    | ChatMessage(chatType: string, text: string)
    | ZoneEnteredMessage

  /** The fixed type each subclass passes to the OutgoingMessage constructor. */
  function TypeName(m: OutgoingMessage): string
  {
    match m
    case StateChangeMessage(_) => "state-change"
    case ChatMessage(_, _) => "chat"
    case ZoneEnteredMessage => "zone-entered"
  }

  /** serializeSubclass: the fields each subclass would add. */
  function SerializeSubclass(m: OutgoingMessage): FieldList
  {
    match m
    case StateChangeMessage(state) => [("state", JStr(state))]
    case ChatMessage(chatType, text) => [("chat-type", JStr(chatType)), ("text", JStr(text))]
    case ZoneEnteredMessage => []
  }

  /** OutgoingMessage.serialize as written: only the type, never the subclass fields. */
  function Serialize(m: OutgoingMessage): (fields: FieldList)
    ensures Keys(fields) == ["type"]
    ensures FieldValue(fields, "type") == Some(JStr(TypeName(m)))
  {
    [("type", JStr(TypeName(m)))]
  }

  /** The evident intent: the type followed by the subclass fields. */
  function SerializeIntended(m: OutgoingMessage): FieldList
  {
    [("type", JStr(TypeName(m)))] + SerializeSubclass(m)
  }

  /** What a client can recover from an outgoing envelope. */
  function DecodeOutgoing(fields: FieldList): Option<OutgoingMessage>
  {
    match FieldValue(fields, "type")
    case Some(JStr(t)) =>
      if t == "state-change" then
        (match FieldValue(fields, "state")
         case Some(JStr(state)) => Some(StateChangeMessage(state))
         case _ => None)
      else if t == "chat" then
        (match (FieldValue(fields, "chat-type"), FieldValue(fields, "text"))
         case (Some(JStr(c)), Some(JStr(text))) => Some(ChatMessage(c, text))
         case _ => None)
      else if t == "zone-entered" then Some(ZoneEnteredMessage)
      else None
    case _ => None
  }

  /** As written, a state change reaches the client without its state. */
  lemma StateChangeLosesState(state: string)
    ensures FieldValue(Serialize(StateChangeMessage(state)), "state") == None
    ensures DecodeOutgoing(Serialize(StateChangeMessage(state))) == None
  {
  }

  /** With the subclass fields written, every outgoing message is recovered exactly. */
  lemma OutgoingRoundTrip(m: OutgoingMessage)
    ensures DecodeOutgoing(SerializeIntended(m)) == Some(m)
  {
    var f := SerializeIntended(m);
    match m
    case StateChangeMessage(state) =>
      assert FieldValue(f, "state") == Some(JStr(state));
    case ChatMessage(c, text) =>
      var last := ("text", JStr(text));
      FieldValueCons(last, [], "text");
      FieldValueCons(("chat-type", JStr(c)), [last], "text");
      FieldValueCons(("type", JStr("chat")), [("chat-type", JStr(c)), last], "text");
      assert FieldValue(f, "chat-type") == Some(JStr(c));
    case ZoneEnteredMessage =>
  }
}
