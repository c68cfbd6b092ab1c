/**
 * The event classes of the game and their inheritance, standing in for the
 * Class objects the event bus compares with getClass() and isAssignableFrom.
 */
module EventKinds {
  import opened Wrappers

  datatype Kind =
    | Event
    | ContextualEvent
    | DemoEventA
    | DemoEventAB
    | DemoEventB
    | AbstractMessageEvent
    | ChatMessageEvent
    | LoginMessageEvent
    | RegistrationMessageEvent
    | IncomingMessageEvent
    | OutgoingMessageEvent
    | EntitySelectionEvent
    | EntityZoneEnteredEvent
    | EntityZoneExitedEvent
    | ZoneEnteredEvent
    | ZoneExitedEvent
    | ChatZoneExitedEvent
    | ChatZoneMessageEvent
    | WorldTickEvent
    | ZoneAddedEvent
    | ZoneRemovedEvent

  /** The direct superclass; Event is the root of the hierarchy. */
  function Parent(k: Kind): Option<Kind>
  {
    match k
    case Event => None
    case ContextualEvent => Some(Event)
    case DemoEventA => Some(Event)
    case DemoEventAB => Some(DemoEventA)
    case DemoEventB => Some(Event)
    case AbstractMessageEvent => Some(Event)
    case ChatMessageEvent => Some(AbstractMessageEvent)
    case LoginMessageEvent => Some(AbstractMessageEvent)
    case RegistrationMessageEvent => Some(AbstractMessageEvent)
    case IncomingMessageEvent => Some(Event)
    case OutgoingMessageEvent => Some(Event)
    case EntitySelectionEvent => Some(Event)
    case EntityZoneEnteredEvent => Some(ContextualEvent)
    case EntityZoneExitedEvent => Some(ContextualEvent)
    case ZoneEnteredEvent => Some(ContextualEvent)
    case ZoneExitedEvent => Some(ContextualEvent)
    case ChatZoneExitedEvent => Some(ZoneExitedEvent)
    case ChatZoneMessageEvent => Some(ContextualEvent)
    case WorldTickEvent => Some(Event)
    case ZoneAddedEvent => Some(Event)
    case ZoneRemovedEvent => Some(Event)
  }

  /** Distance from Event; it shrinks along Parent. */
  function Height(k: Kind): nat
  {
    match k
    case Event => 0
    case DemoEventAB => 2
    case ChatMessageEvent => 2
    case LoginMessageEvent => 2
    case RegistrationMessageEvent => 2
    case EntityZoneEnteredEvent => 2
    case EntityZoneExitedEvent => 2
    case ZoneEnteredEvent => 2
    case ZoneExitedEvent => 2
    case ChatZoneMessageEvent => 2
    case ChatZoneExitedEvent => 3
    case _ => 1
  }

  lemma ParentIsLower(k: Kind)
    ensures Parent(k).Some? ==> Height(Parent(k).value) < Height(k)
    ensures Parent(k).None? <==> Height(k) == 0
  {
  }

  /** sup.isAssignableFrom(sub): sub is sup or a subclass of it. */
  predicate IsAssignableFrom(sup: Kind, sub: Kind)
    decreases Height(sub)
  {
    sub == sup
    || match Parent(sub)
       case None => false
       case Some(p) => ParentIsLower(sub); IsAssignableFrom(sup, p)
  }

  lemma {:induction false} AssignableReflexive(k: Kind)
    ensures IsAssignableFrom(k, k)
  {
  }

  lemma {:induction false} AssignableTransitive(a: Kind, b: Kind, c: Kind)
    requires IsAssignableFrom(a, b) && IsAssignableFrom(b, c)
    ensures IsAssignableFrom(a, c)
    decreases Height(c)
  {
    if c != b {
      ParentIsLower(c);
      AssignableTransitive(a, b, Parent(c).value);
    }
  }

  /** A superclass is never below its subclass. */
  lemma {:induction false} AssignableHeight(sup: Kind, sub: Kind)
    requires IsAssignableFrom(sup, sub)
    ensures Height(sup) <= Height(sub)
    ensures Height(sup) == Height(sub) ==> sup == sub
    decreases Height(sub)
  {
    if sub != sup {
      ParentIsLower(sub);
      AssignableHeight(sup, Parent(sub).value);
    }
  }

  lemma AssignableAntisymmetric(a: Kind, b: Kind)
    requires IsAssignableFrom(a, b) && IsAssignableFrom(b, a)
    ensures a == b
  {
    AssignableHeight(a, b);
    AssignableHeight(b, a);
  }

  /** Every event class is an Event. */
  lemma {:induction false} EventIsRoot(k: Kind)
    ensures IsAssignableFrom(Event, k)
    decreases Height(k)
  {
    if k != Event {
      ParentIsLower(k);
      EventIsRoot(Parent(k).value);
    }
  }
}
