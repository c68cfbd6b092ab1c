/**
 * The three handler factories: maps from a message's type or name to the
 * class that handles it, seeded from the classes that carry the factory's
 * annotation and extendable by explicit registration.
 */
module Handlers {
  import opened Wrappers

  /** The annotation a factory scans for. */
  datatype AnnotationType = MessageHandler | RequestHandler | ResponseHandler

  /**
   * A handler class: the five annotated classes of the server, or some other
   * class with whatever handler annotations it carries.
   */
  datatype HandlerClass =
    | ChatMessageEventClass
    | LoginMessageEventClass
    | RegistrationMessageEventClass
    | RequestDispatcherClass
    | ResponseDispatcherClass
    | OtherClass(id: nat, annotations: map<AnnotationType, string>)

  datatype FactoryError = IllegalArgument

  /** The value of a class's annotation of the given type, if it has one. */
  function AnnotationValue(c: HandlerClass, t: AnnotationType): Option<string>
  {
    match c
    case ChatMessageEventClass => if t == MessageHandler then Some("chat") else None
    case LoginMessageEventClass => if t == MessageHandler then Some("login") else None
    case RegistrationMessageEventClass => if t == MessageHandler then Some("register") else None
    case RequestDispatcherClass => if t == MessageHandler then Some("response") else None
    case ResponseDispatcherClass => if t == MessageHandler then Some("request") else None
    case OtherClass(_, annotations) => if t in annotations then Some(annotations[t]) else None
  }

  /** The annotated classes found under the scanned package prefix. */
  const ScannedClasses: seq<HandlerClass> :=
    [ChatMessageEventClass, LoginMessageEventClass, RegistrationMessageEventClass,
     RequestDispatcherClass, ResponseDispatcherClass]

  /** initHandlers: registers, in scan order, each scanned class carrying the annotation. */
  function Seed(classes: seq<HandlerClass>, t: AnnotationType): map<string, HandlerClass>
  {
    if classes == [] then map[]
    else
      var c := classes[|classes| - 1];
      var earlier := Seed(classes[..|classes| - 1], t);
      match AnnotationValue(c, t)
      case None => earlier
      case Some(name) => earlier[name := c]
  }

  class HandlerFactory {
    const annotation: AnnotationType
    var handlers: map<string, HandlerClass>

    /** The private constructor: an empty map, then the classpath scan. */
    constructor(annotation: AnnotationType)
      ensures this.annotation == annotation
      ensures handlers == Seed(ScannedClasses, annotation)
    {
      this.annotation := annotation;
      handlers := map[];
      new;
      var i := 0;
      while i < |ScannedClasses|
        invariant 0 <= i <= |ScannedClasses|
        invariant handlers == Seed(ScannedClasses[..i], annotation)
      {
        var c := ScannedClasses[i];
        assert ScannedClasses[..i + 1][..i] == ScannedClasses[..i];
        var name := AnnotationValue(c, annotation);
        if name.Some? {
          handlers := handlers[name.value := c];
        }
        i := i + 1;
      }
      assert ScannedClasses[..i] == ScannedClasses;
    }

    /** register(name, class): binds the name, replacing any earlier binding. */
    method Register(name: string, c: HandlerClass)
      modifies this`handlers
      ensures handlers == old(handlers)[name := c]
    {
      handlers := handlers[name := c];
    }

    /** register(class): binds the class under its annotation's value, or throws IllegalArgumentException. */
    method RegisterAnnotated(c: HandlerClass) returns (r: Outcome<FactoryError>)
      modifies this`handlers
      ensures r.Pass? <==> AnnotationValue(c, annotation).Some?
      ensures r.Pass? ==> handlers == old(handlers)[AnnotationValue(c, annotation).value := c]
      ensures r.Fail? ==> r.error == IllegalArgument && handlers == old(handlers)
    {
      var name := AnnotationValue(c, annotation);
      if name.Some? {
        Register(name.value, c);
        r := Pass;
      } else {
        r := Fail(IllegalArgument);
      }
    }

    /** getHandler: the class bound to the name, or null. */
    function GetHandler(name: string): (r: Option<HandlerClass>)
      reads this
      ensures r.Some? <==> name in handlers
      ensures r.Some? ==> r.value == handlers[name]
    {
      if name in handlers then Some(handlers[name]) else None
    }
  }

  /** The message handler factory starts with the five server bindings. */
  lemma MessageHandlerSeed()
    ensures Seed(ScannedClasses, MessageHandler)
         == map["chat" := ChatMessageEventClass, "login" := LoginMessageEventClass,
                "register" := RegistrationMessageEventClass, "response" := RequestDispatcherClass,
                "request" := ResponseDispatcherClass]
  {
    var s := ScannedClasses;
    assert s[..1][..0] == s[..0];
    assert s[..2][..1] == s[..1];
    assert s[..3][..2] == s[..2];
    assert s[..4][..3] == s[..3];
    assert s[..5][..4] == s[..4];
    assert s[..5] == s;
    assert Seed(s[..1], MessageHandler) == map["chat" := ChatMessageEventClass];
    assert Seed(s[..2], MessageHandler) == map["chat" := ChatMessageEventClass, "login" := LoginMessageEventClass];
    assert Seed(s[..3], MessageHandler) == map["chat" := ChatMessageEventClass, "login" := LoginMessageEventClass, "register" := RegistrationMessageEventClass];
    assert Seed(s[..4], MessageHandler) == map["chat" := ChatMessageEventClass, "login" := LoginMessageEventClass, "register" := RegistrationMessageEventClass, "response" := RequestDispatcherClass];
    assert Seed(s[..5], MessageHandler) == map["chat" := ChatMessageEventClass, "login" := LoginMessageEventClass, "register" := RegistrationMessageEventClass, "response" := RequestDispatcherClass, "request" := ResponseDispatcherClass];
  }

  /** No scanned class carries @RequestHandler, so the request handler factory starts empty. */
  lemma RequestHandlerSeedEmpty()
    ensures Seed(ScannedClasses, RequestHandler) == map[]
  {
    var s := ScannedClasses;
    assert s[..1][..0] == s[..0];
    assert s[..2][..1] == s[..1];
    assert s[..3][..2] == s[..2];
    assert s[..4][..3] == s[..3];
    assert s[..5][..4] == s[..4];
    assert s[..5] == s;
    assert Seed(s[..1], RequestHandler) == map[];
    assert Seed(s[..2], RequestHandler) == map[];
    assert Seed(s[..3], RequestHandler) == map[];
    assert Seed(s[..4], RequestHandler) == map[];
    assert Seed(s[..5], RequestHandler) == map[];
  }

  /** No scanned class carries @ResponseHandler, so the response handler factory starts empty. */
  lemma ResponseHandlerSeedEmpty()
    ensures Seed(ScannedClasses, ResponseHandler) == map[]
  {
    var s := ScannedClasses;
    assert s[..1][..0] == s[..0];
    assert s[..2][..1] == s[..1];
    assert s[..3][..2] == s[..2];
    assert s[..4][..3] == s[..3];
    assert s[..5][..4] == s[..4];
    assert s[..5] == s;
    assert Seed(s[..1], ResponseHandler) == map[];
    assert Seed(s[..2], ResponseHandler) == map[];
    assert Seed(s[..3], ResponseHandler) == map[];
    assert Seed(s[..4], ResponseHandler) == map[];
    assert Seed(s[..5], ResponseHandler) == map[];
  }
}
