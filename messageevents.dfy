/**
 * Incoming message events: the typed events the message dispatcher builds
 * from a client's JSON message, with the text-field validation they share.
 */
module MessageEvents {
  import opened Wrappers
  import opened Json
  import opened EventKinds

  /** A connected client session, compared by identity. */
  datatype Session = Session(id: nat)

  /** How building an event fails: a Java NullPointerException or a MalformedMessageException. */
  datatype MessageError = NullPointer | Malformed(reason: string)

  /**
   * AbstractMessageEvent.validateTextField. The field comes from JsonNode.get,
   * so an absent key is Java null and the first dereference throws.
   */
  function ValidateTextField(field: Option<Json>, allowEmpty: bool): (r: Result<string, MessageError>)
    ensures r.Ok? <==> field.Some? && field.value.JStr? && (allowEmpty || field.value.s != "")
    ensures r.Ok? ==> r.value == field.value.s
    ensures field.None? ==> r == Err(NullPointer)
    ensures field.Some? && r.Err? ==> r.error.Malformed?
  {
    match field
    case None => Err(NullPointer)
    case Some(node) =>
      if node.JNull? then Err(Malformed("Field is missing or null."))
      else if !node.JStr? then Err(Malformed("Found a non-textual field where text was expected."))
      else if node.s == "" && !allowEmpty then Err(Malformed("Found an empty text field where a value was expected."))
      else Ok(node.s)
  }

  /** The one-argument validateTextField: a present, textual, non-empty field. */
  function ValidateRequiredText(field: Option<Json>): (r: Result<string, MessageError>)
    ensures r.Ok? <==> field.Some? && field.value.JStr? && field.value.s != ""
    ensures r.Ok? ==> r.value == field.value.s
  {
    ValidateTextField(field, false)
  }

  datatype MessageEvent =
    | ChatMessage(session: Session, node: Json, text: string)
    | LoginMessage(session: Session, node: Json, username: string, password: string)
    | RegistrationMessage(session: Session, node: Json, username: string, password: string, email: string)

  /** The event class under which each message event is pushed. */
  function KindOf(e: MessageEvent): (k: Kind)
    ensures IsAssignableFrom(AbstractMessageEvent, k)
  {
    match e
    case ChatMessage(_, _, _) => ChatMessageEvent
    case LoginMessage(_, _, _, _) => LoginMessageEvent
    case RegistrationMessage(_, _, _, _, _) => RegistrationMessageEvent
  }

  /**
   * ChatMessageEvent's constructor: only the presence of "text" is checked;
   * any present value is taken as its text, so an empty or a numeric text is accepted.
   */
  function NewChatMessage(session: Session, node: Json): (r: Result<MessageEvent, MessageError>)
    ensures r.Ok? <==> Has(node, "text")
    ensures r.Ok? ==> r.value == ChatMessage(session, node, AsText(node.fields["text"]))
  {
    if !Has(node, "text") then Err(Malformed("Chat message has no text field."))
    else Ok(ChatMessage(session, node, AsText(Get(node, "text").value)))
  }

  /** LoginMessageEvent's constructor: username, then password, each required text. */
  function NewLoginMessage(session: Session, node: Json): (r: Result<MessageEvent, MessageError>)
    ensures r.Ok? <==> (ValidateRequiredText(Get(node, "username")).Ok?
                        && ValidateRequiredText(Get(node, "password")).Ok?)
    ensures r.Ok? ==> r.value == LoginMessage(session, node, node.fields["username"].s, node.fields["password"].s)
    ensures ValidateRequiredText(Get(node, "username")).Err? ==> r == Err(ValidateRequiredText(Get(node, "username")).error)
  {
    var username := ValidateRequiredText(Get(node, "username"));
    if username.Err? then Err(username.error)
    else
      var password := ValidateRequiredText(Get(node, "password"));
      if password.Err? then Err(password.error)
      else Ok(LoginMessage(session, node, username.value, password.value))
  }

  /** RegistrationMessageEvent's constructor: username, password, then email, each required text. */
  function NewRegistrationMessage(session: Session, node: Json): (r: Result<MessageEvent, MessageError>)
    ensures r.Ok? <==> (ValidateRequiredText(Get(node, "username")).Ok?
                        && ValidateRequiredText(Get(node, "password")).Ok?
                        && ValidateRequiredText(Get(node, "email")).Ok?)
    ensures r.Ok? ==> r.value == RegistrationMessage(session, node, node.fields["username"].s,
                                                    node.fields["password"].s, node.fields["email"].s)
    ensures ValidateRequiredText(Get(node, "username")).Err? ==> r == Err(ValidateRequiredText(Get(node, "username")).error)
  {
    var username := ValidateRequiredText(Get(node, "username"));
    if username.Err? then Err(username.error)
    else
      var password := ValidateRequiredText(Get(node, "password"));
      if password.Err? then Err(password.error)
      else
        var email := ValidateRequiredText(Get(node, "email"));
        if email.Err? then Err(email.error)
        else Ok(RegistrationMessage(session, node, username.value, password.value, email.value))
  }

  /** A missing field makes the login constructor throw a NullPointerException, not a malformed-message error. */
  lemma MissingLoginFieldIsNullPointer(session: Session)
    ensures NewLoginMessage(session, JObj(map["type" := JStr("login"), "password" := JStr("pw")]))
         == Err(NullPointer)
    ensures NewLoginMessage(session, JObj(map["username" := JNull, "password" := JStr("pw")])).error.Malformed?
  {
  }
}
