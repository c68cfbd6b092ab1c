/** The player adapter: the default controllers a session puts on its player entity. */
module Players {
  import opened Wrappers
  import opened MessageEvents
  import opened Domain

  /** The adapter's bindings; a binding may hold null once an entity had no previous controller. */
  type Bindings = map<ControllerClass, Option<Controller>>

  predicate Distinct(keys: seq<ControllerClass>)
  {
    forall i, j :: 0 <= i < j < |keys| ==> keys[i] != keys[j]
  }

  /** The position of the first binding, in iteration order, that setController refuses; |order| if none. */
  function FirstIncompatible(bindings: Bindings, order: seq<ControllerClass>): (n: nat)
    requires forall k :: k in order ==> k in bindings
    ensures n <= |order|
    ensures forall i :: 0 <= i < n ==> Compatible(order[i], bindings[order[i]])
    ensures n < |order| ==> !Compatible(order[n], bindings[order[n]])
  {
    if order == [] then 0
    else if !Compatible(order[0], bindings[order[0]]) then 0
    else 1 + FirstIncompatible(bindings, order[1..])
  }

  /** Every visited class has a binding setController accepts. */
  predicate AllCompatible(bindings: Bindings, keys: seq<ControllerClass>)
  {
    forall k :: k in keys ==> k in bindings && Compatible(k, bindings[k])
  }

  /** The entity's controllers after setController succeeded for each of these classes in turn. */
  function Bound(controllers: map<ControllerClass, Controller>, bindings: Bindings, keys: seq<ControllerClass>): map<ControllerClass, Controller>
    requires AllCompatible(bindings, keys)
  {
    if keys == [] then controllers
    else
      var k := keys[|keys| - 1];
      assert k in keys;
      assert AllCompatible(bindings, keys[..|keys| - 1]) by {
        forall x | x in keys[..|keys| - 1] ensures x in keys { }
      }
      Bound(controllers, bindings, keys[..|keys| - 1])[k := bindings[k].value]
  }

  /** The adapter's bindings after each of these classes was overwritten with the entity's previous controller. */
  function Swapped(bindings: Bindings, controllers: map<ControllerClass, Controller>, keys: seq<ControllerClass>): Bindings
  {
    if keys == [] then bindings
    else
      var k := keys[|keys| - 1];
      Swapped(bindings, controllers, keys[..|keys| - 1])[k := if k in controllers then Some(controllers[k]) else None]
  }

  /** The entity's controllers, before the put, for the classes visited: what putControllers is documented to return. */
  function Previous(controllers: map<ControllerClass, Controller>, keys: seq<ControllerClass>): (r: map<ControllerClass, Controller>)
    ensures forall k :: k in r <==> k in keys && k in controllers
    ensures forall k :: k in r ==> r[k] == controllers[k]
  {
    map k | k in keys && k in controllers :: controllers[k]
  }

  lemma PreviousStep(controllers: map<ControllerClass, Controller>, keys: seq<ControllerClass>, k: ControllerClass)
    ensures Previous(controllers, keys + [k])
         == if k in controllers then Previous(controllers, keys)[k := controllers[k]] else Previous(controllers, keys)
  {
    var a, b := Previous(controllers, keys + [k]), Previous(controllers, keys);
    if k in controllers {
      assert a.Keys == b.Keys + {k};
    } else {
      assert a.Keys == b.Keys;
    }
  }

  /**
   * After a new adapter has put its controllers on an entity that had none,
   * its own ChatController binding holds null, so putting its controllers on
   * a second entity throws at once.
   */
  lemma SecondPutRefused(session: Session)
    ensures var after := Swapped(map[ChatController := Some(PlayerChatController(session))], map[], [ChatController]);
            && after == map[ChatController := None]
            && FirstIncompatible(after, [ChatController]) == 0
  {
    var before: Bindings := map[ChatController := Some(PlayerChatController(session))];
    assert [ChatController][..0] == [];
    assert Swapped(before, map[], [ChatController]) == before[ChatController := None];
    assert before[ChatController := None] == map[ChatController := None];
  }

  /** Classes not yet visited keep their entity controller. */
  lemma {:induction false} BoundElsewhere(controllers: map<ControllerClass, Controller>, bindings: Bindings,
                                          keys: seq<ControllerClass>, k: ControllerClass)
    requires AllCompatible(bindings, keys)
    requires k !in keys
    ensures k in Bound(controllers, bindings, keys) <==> k in controllers
    ensures k in controllers ==> Bound(controllers, bindings, keys)[k] == controllers[k]
  {
    if keys != [] {
      assert AllCompatible(bindings, keys[..|keys| - 1]) by {
        forall x | x in keys[..|keys| - 1] ensures x in keys { }
      }
      BoundElsewhere(controllers, bindings, keys[..|keys| - 1], k);
    }
  }

  /** Classes not yet visited keep their adapter binding. */
  lemma {:induction false} SwappedElsewhere(bindings: Bindings, controllers: map<ControllerClass, Controller>,
                                            keys: seq<ControllerClass>, k: ControllerClass)
    requires k !in keys
    ensures k in Swapped(bindings, controllers, keys) <==> k in bindings
    ensures k in bindings ==> Swapped(bindings, controllers, keys)[k] == bindings[k]
  {
    if keys != [] {
      SwappedElsewhere(bindings, controllers, keys[..|keys| - 1], k);
    }
  }

  /** After putControllers succeeds, the entity holds every adapter binding, and nothing else changed. */
  lemma {:induction false} BoundHoldsBindings(controllers: map<ControllerClass, Controller>, bindings: Bindings,
                                              keys: seq<ControllerClass>)
    requires AllCompatible(bindings, keys)
    ensures forall k :: k in keys ==> k in Bound(controllers, bindings, keys) && Bound(controllers, bindings, keys)[k] == bindings[k].value
    ensures forall k :: k !in keys ==> (k in Bound(controllers, bindings, keys) <==> k in controllers)
    ensures forall k :: k !in keys && k in controllers ==> Bound(controllers, bindings, keys)[k] == controllers[k]
  {
    if keys != [] {
      assert AllCompatible(bindings, keys[..|keys| - 1]) by {
        forall x | x in keys[..|keys| - 1] ensures x in keys { }
      }
      BoundHoldsBindings(controllers, bindings, keys[..|keys| - 1]);
      var last := keys[|keys| - 1];
      forall k | k in keys
        ensures k in Bound(controllers, bindings, keys) && Bound(controllers, bindings, keys)[k] == bindings[k].value
      {
        if k != last {
          assert k in keys[..|keys| - 1];
        }
      }
      forall k | k !in keys
        ensures k in Bound(controllers, bindings, keys) <==> k in controllers
        ensures k in controllers ==> Bound(controllers, bindings, keys)[k] == controllers[k]
      {
        assert k !in keys[..|keys| - 1];
      }
    }
  }

  /** After putControllers succeeds over distinct classes, each adapter binding holds the entity's previous controller, or null. */
  lemma {:induction false} SwappedHoldsPrevious(bindings: Bindings, controllers: map<ControllerClass, Controller>,
                                                keys: seq<ControllerClass>)
    requires Distinct(keys)
    ensures forall k :: k in keys ==>
      (k in Swapped(bindings, controllers, keys)
       && Swapped(bindings, controllers, keys)[k] == if k in controllers then Some(controllers[k]) else None)
  {
    if keys != [] {
      var init := keys[..|keys| - 1];
      assert Distinct(init);
      SwappedHoldsPrevious(bindings, controllers, init);
      forall k | k in keys
        ensures k in Swapped(bindings, controllers, keys)
        ensures Swapped(bindings, controllers, keys)[k] == if k in controllers then Some(controllers[k]) else None
      {
        if k != keys[|keys| - 1] {
          assert k in init;
        }
      }
    }
  }

  /** The first i classes in the iteration order all have accepted bindings. */
  predicate VisitedCompatible(bindings: Bindings, order: seq<ControllerClass>, i: nat)
  {
    i <= |order| && AllCompatible(bindings, order[..i])
  }

  /** One more accepted binding extends both the entity's controllers and the swapped bindings by that class. */
  lemma VisitStep(controllers: map<ControllerClass, Controller>, bindings: Bindings, order: seq<ControllerClass>, i: nat)
    requires VisitedCompatible(bindings, order, i) && i < |order|
    requires order[i] in bindings && Compatible(order[i], bindings[order[i]])
    ensures VisitedCompatible(bindings, order, i + 1)
    ensures Bound(controllers, bindings, order[..i + 1])
         == Bound(controllers, bindings, order[..i])[order[i] := bindings[order[i]].value]
    ensures Swapped(bindings, controllers, order[..i + 1])
         == Swapped(bindings, controllers, order[..i])[order[i] := if order[i] in controllers then Some(controllers[order[i]]) else None]
  {
    assert order[..i + 1][..i] == order[..i];
    assert order[..i + 1] == order[..i] + [order[i]];
  }

  /** The first refused binding is the one FirstIncompatible names. */
  lemma StopsAtFirst(bindings: Bindings, order: seq<ControllerClass>, i: nat)
    requires forall k :: k in order ==> k in bindings
    requires i <= FirstIncompatible(bindings, order) && i < |order| && !Compatible(order[i], bindings[order[i]])
    ensures i == FirstIncompatible(bindings, order)
  {
  }

  /** The class about to be visited still has its original binding and entity controller. */
  lemma Unvisited(controllers: map<ControllerClass, Controller>, bindings: Bindings, order: seq<ControllerClass>, i: nat)
    requires Distinct(order) && VisitedCompatible(bindings, order, i) && i < |order| && order[i] in bindings
    ensures order[i] in Swapped(bindings, controllers, order[..i])
    ensures Swapped(bindings, controllers, order[..i])[order[i]] == bindings[order[i]]
    ensures order[i] in Bound(controllers, bindings, order[..i]) <==> order[i] in controllers
    ensures order[i] in controllers ==> Bound(controllers, bindings, order[..i])[order[i]] == controllers[order[i]]
  {
    assert order[i] !in order[..i];
    SwappedElsewhere(bindings, controllers, order[..i], order[i]);
    BoundElsewhere(controllers, bindings, order[..i], order[i]);
  }

  /** One more accepted binding, as putControllers is documented: the entity gains it and the previous controller is collected. */
  lemma IntendedStep(controllers: map<ControllerClass, Controller>, bindings: Bindings, order: seq<ControllerClass>, i: nat)
    requires Distinct(order) && VisitedCompatible(bindings, order, i) && i < |order|
    requires order[i] in bindings && Compatible(order[i], bindings[order[i]])
    ensures VisitedCompatible(bindings, order, i + 1)
    ensures Bound(controllers, bindings, order[..i + 1])
         == Bound(controllers, bindings, order[..i])[order[i] := bindings[order[i]].value]
    ensures order[i] in Bound(controllers, bindings, order[..i]) <==> order[i] in controllers
    ensures order[i] in controllers ==> Bound(controllers, bindings, order[..i])[order[i]] == controllers[order[i]]
    ensures Previous(controllers, order[..i + 1])
         == if order[i] in controllers then Previous(controllers, order[..i])[order[i] := controllers[order[i]]]
            else Previous(controllers, order[..i])
  {
    var k := order[i];
    assert k !in order[..i];
    BoundElsewhere(controllers, bindings, order[..i], k);
    VisitStep(controllers, bindings, order, i);
    PreviousStep(controllers, order[..i], k);
    assert order[..i + 1] == order[..i] + [k];
  }

  class PlayerAdapter {
    const session: Session
    var controllers: Bindings

    /** A new adapter binds ChatController to a PlayerChatController for its session. */
    constructor(session: Session)
      ensures this.session == session
      ensures controllers == map[ChatController := Some(PlayerChatController(session))]
    {
      this.session := session;
      controllers := map[];
      new;
      Set(ChatController, Some(PlayerChatController(session)));
    }

    /** set: replaces the binding for this class only. */
    method Set(c: ControllerClass, impl: Option<Controller>)
      modifies this`controllers
      ensures controllers == old(controllers)[c := impl]
    {
      controllers := controllers[c := impl];
    }

    /**
     * putControllers, visiting the bindings in `order` (the hash map's
     * iteration order): setController on the entity for each binding, and the
     * binding overwritten with the entity's previous controller. The first
     * refused binding throws and stops the loop; the returned map is always empty.
     */
    method PutControllers(entity: Entity, order: seq<ControllerClass>)
      returns (previous: map<ControllerClass, Controller>, r: Outcome<EntityError>)
      requires Distinct(order) && (forall k :: k in order <==> k in controllers)
      modifies this`controllers, entity`controllers
      ensures previous == map[]
      ensures var n := FirstIncompatible(old(controllers), order);
        && r == (if n < |order| then Fail(IncompatibleController) else Pass)
        && entity.controllers == Bound(old(entity.controllers), old(controllers), order[..n])
        && controllers == Swapped(old(controllers), old(entity.controllers), order[..n])
    {
      ghost var bindings, before := controllers, entity.controllers;
      previous := map[];
      var n := FirstIncompatible(controllers, order);
      var i := 0;
      while i < |order|
        invariant 0 <= i <= n
        invariant VisitedCompatible(bindings, order, i)
        invariant entity.controllers == Bound(before, bindings, order[..i])
        invariant controllers == Swapped(bindings, before, order[..i])
      {
        var k := order[i];
        assert k in bindings;
        Unvisited(before, bindings, order, i);
        var res, _ := entity.SetController(k, controllers[k]);
        if res.Err? {
          StopsAtFirst(bindings, order, i);
          return previous, Fail(res.error);
        }
        VisitStep(before, bindings, order, i);
        controllers := controllers[k := res.value];
        i := i + 1;
      }
      assert order[..i] == order;
      r := Pass;
    }

    /**
     * putControllers as documented: the entity's previous controllers are
     * collected in the returned map and the adapter's own bindings are left
     * alone, so the same defaults can be put on any number of entities.
     */
    method PutControllersIntended(entity: Entity, order: seq<ControllerClass>)
      returns (previous: map<ControllerClass, Controller>, r: Outcome<EntityError>)
      requires Distinct(order) && (forall k :: k in order <==> k in controllers)
      modifies entity`controllers
      ensures var n := FirstIncompatible(controllers, order);
        && r == (if n < |order| then Fail(IncompatibleController) else Pass)
        && entity.controllers == Bound(old(entity.controllers), controllers, order[..n])
        && previous == Previous(old(entity.controllers), order[..n])
    {
      var bindings := controllers;
      ghost var before := entity.controllers;
      previous := map[];
      var n := FirstIncompatible(bindings, order);
      var i := 0;
      while i < |order|
        invariant 0 <= i <= n
        invariant VisitedCompatible(bindings, order, i)
        invariant entity.controllers == Bound(before, bindings, order[..i])
        invariant previous == Previous(before, order[..i])
      {
        var k := order[i];
        assert k in bindings;
        var res, _ := entity.SetController(k, bindings[k]);
        if res.Err? {
          StopsAtFirst(bindings, order, i);
          return previous, Fail(res.error);
        }
        IntendedStep(before, bindings, order, i);
        if res.value.Some? {
          previous := previous[k := res.value.value];
        }
        i := i + 1;
      }
      assert order[..i] == order;
      r := Pass;
    }
  }
}
