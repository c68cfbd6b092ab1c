/**
 * The static quadtree: a root over a fixed boundary, subdivided in halves down
 * to a maximum depth, with items held only in the lists of the deepest nodes.
 * A tree's nodes form one value owned by the root object; a node is named by
 * its path of quadrants from the root, and an item's parent is such a name.
 */
module QuadTrees {
  import opened Wrappers
  import opened Geometry
  import opened Lists

  datatype TreeError = IllegalArgument | NullPointer | NoSuchElement

  /** A node of the tree named by `tree`, reached from its root by `path`. */
  datatype NodeRef = NodeRef(tree: QuadTree, path: seq<Quadrant>)

  /** An item placed in a tree: a fixed position and the node holding it, if any. */
  class Item {
    const x: real
    const y: real
    var parent: Option<NodeRef>

    constructor(x: real, y: real)
      ensures this.x == x && this.y == y && parent == None
    {
      this.x := x;
      this.y := y;
      parent := None;
    }
  }

  /** One node: its depth, boundary, item list (null except at the root and at maximum depth) and four subtrees. */
  datatype Node = Node(depth: int, boundry: Boundry, children: Option<seq<Item>>,
                       nw: Option<Node>, ne: Option<Node>, sw: Option<Node>, se: Option<Node>)

  /** getSubtree. */
  function Sub(n: Node, q: Quadrant): Option<Node>
  {
    match q
    case NorthWest => n.nw
    case NorthEast => n.ne
    case SouthWest => n.sw
    case SouthEast => n.se
  }

  /** setSubtree: replaces one quadrant's subtree and nothing else. */
  function WithSub(n: Node, q: Quadrant, s: Option<Node>): (r: Node)
    ensures Sub(r, q) == s
    ensures forall p :: p != q ==> Sub(r, p) == Sub(n, p)
    ensures r.depth == n.depth && r.boundry == n.boundry && r.children == n.children
  {
    match q
    case NorthWest => n.(nw := s)
    case NorthEast => n.(ne := s)
    case SouthWest => n.(sw := s)
    case SouthEast => n.(se := s)
  }

  /** The root constructor: depth 1 and an empty item list. */
  function Root(b: Boundry): (r: Node)
  {
    Node(1, b, Some([]), None, None, None, None)
  }

  /** The subtree constructor: one level deeper, the quadrant's sub-boundary, and an item list only at maximum depth. */
  function Subtree(parent: Node, q: Quadrant, maxDepth: int): (r: Node)
  {
    Node(parent.depth + 1, SubBoundry(parent.boundry, q),
         if parent.depth + 1 == maxDepth then Some([]) else None, None, None, None, None)
  }

  /** What the subtree constructor guarantees of a subtree in quadrant q of n. */
  predicate SubShaped(n: Node, q: Quadrant, s: Node, maxDepth: int)
  {
    && s.depth == n.depth + 1
    && s.depth <= maxDepth
    && s.boundry == SubBoundry(n.boundry, q)
    && (s.children.Some? <==> s.depth == maxDepth)
  }

  /** Every subtree below n was made by the subtree constructor, and a node at maximum depth has a list. */
  predicate Shaped(n: Node, maxDepth: int)
    decreases n
  {
    && (n.depth >= maxDepth ==> n.children.Some?)
    && (n.nw.Some? ==> SubShaped(n, NorthWest, n.nw.value, maxDepth) && Shaped(n.nw.value, maxDepth))
    && (n.ne.Some? ==> SubShaped(n, NorthEast, n.ne.value, maxDepth) && Shaped(n.ne.value, maxDepth))
    && (n.sw.Some? ==> SubShaped(n, SouthWest, n.sw.value, maxDepth) && Shaped(n.sw.value, maxDepth))
    && (n.se.Some? ==> SubShaped(n, SouthEast, n.se.value, maxDepth) && Shaped(n.se.value, maxDepth))
  }

  lemma SubOfShaped(n: Node, q: Quadrant, maxDepth: int)
    requires Shaped(n, maxDepth)
    requires Sub(n, q).Some?
    ensures SubShaped(n, q, Sub(n, q).value, maxDepth) && Shaped(Sub(n, q).value, maxDepth)
  {
  }

  lemma WithSubShaped(n: Node, q: Quadrant, s: Option<Node>, maxDepth: int)
    requires Shaped(n, maxDepth)
    requires s.Some? ==> SubShaped(n, q, s.value, maxDepth) && Shaped(s.value, maxDepth)
    ensures Shaped(WithSub(n, q, s), maxDepth)
  {
    match q
    case NorthWest => assert WithSub(n, q, s) == n.(nw := s);
    case NorthEast => assert WithSub(n, q, s) == n.(ne := s);
    case SouthWest => assert WithSub(n, q, s) == n.(sw := s);
    case SouthEast => assert WithSub(n, q, s) == n.(se := s);
  }

  /** Every item held in the subtree, counted as often as it is held. */
  function Items(n: Node): multiset<Item>
    decreases n
  {
    (if n.children.Some? then multiset(n.children.value) else multiset{})
    + OptionItems(n.nw) + OptionItems(n.ne) + OptionItems(n.sw) + OptionItems(n.se)
  }

  function OptionItems(o: Option<Node>): multiset<Item>
    decreases o
  {
    if o.Some? then Items(o.value) else multiset{}
  }

  /** Replacing one subtree changes the items by exactly what the old and new subtrees hold. */
  lemma WithSubItems(n: Node, q: Quadrant, s: Option<Node>)
    ensures Items(WithSub(n, q, s)) + OptionItems(Sub(n, q)) == Items(n) + OptionItems(s)
  {
    var r := WithSub(n, q, s);
    forall x
      ensures (Items(r) + OptionItems(Sub(n, q)))[x] == (Items(n) + OptionItems(s))[x]
    {
      ItemsCount(r, x);
      ItemsCount(n, x);
    }
  }

  /** How often a subtree holds an item: its own list's count plus each quadrant's. */
  lemma ItemsCount(n: Node, x: Item)
    ensures Items(n)[x] == (if n.children.Some? then multiset(n.children.value)[x] else 0)
      + OptionItems(Sub(n, NorthWest))[x] + OptionItems(Sub(n, NorthEast))[x]
      + OptionItems(Sub(n, SouthWest))[x] + OptionItems(Sub(n, SouthEast))[x]
  {
  }

  /** The node a path names, if the tree has it. */
  function NodeAt(n: Node, path: seq<Quadrant>): Option<Node>
    decreases |path|
  {
    if path == [] then Some(n)
    else match Sub(n, path[0])
      case None => None
      case Some(s) => NodeAt(s, path[1..])
  }

  /** The tree with the node a path names replaced. */
  function ReplaceAt(n: Node, path: seq<Quadrant>, m: Node): Node
    requires NodeAt(n, path).Some?
    decreases |path|
  {
    if path == [] then m
    else WithSub(n, path[0], Some(ReplaceAt(Sub(n, path[0]).value, path[1..], m)))
  }

  /** The subtree insert descends into: the existing one, or a new one. */
  function Target(n: Node, q: Quadrant, maxDepth: int): Node
  {
    if Sub(n, q).Some? then Sub(n, q).value else Subtree(n, q, maxDepth)
  }

  lemma TargetShaped(n: Node, q: Quadrant, maxDepth: int)
    requires Shaped(n, maxDepth) && n.depth < maxDepth
    ensures SubShaped(n, q, Target(n, q, maxDepth), maxDepth) && Shaped(Target(n, q, maxDepth), maxDepth)
    ensures OptionItems(Sub(n, q)) == Items(Target(n, q, maxDepth))
  {
    if Sub(n, q).Some? { SubOfShaped(n, q, maxDepth); }
  }

  /**
   * insert, from node n: out of bounds throws; above maximum depth it
   * descends into the localized point's quadrant, creating the subtree if
   * missing; at maximum depth it appends the item. The result is the new node
   * and the path to the node that took the item.
   */
  function InsertInto(n: Node, maxDepth: int, item: Item, x: real, y: real): Result<(Node, seq<Quadrant>), TreeError>
    requires Shaped(n, maxDepth)
    decreases maxDepth - n.depth
  {
    if !Contains(n.boundry, x, y) then Err(IllegalArgument)
    else if n.depth < maxDepth then
      var q := QuadrantOf(Localize(Point(x, y), Position(n.boundry)));
      var sub := Target(n, q, maxDepth);
      assert Shaped(sub, maxDepth) by { TargetShaped(n, q, maxDepth); }
      match InsertInto(sub, maxDepth, item, x, y)
      case Err(e) => Err(e)
      case Ok((s, path)) => Ok((WithSub(n, q, Some(s)), [q] + path))
    else
      match n.children
      case None => Err(NullPointer)
      case Some(l) => Ok((n.(children := Some(l + [item])), []))
  }

  /** One level of insert above maximum depth. */
  lemma InsertDescends(n: Node, maxDepth: int, item: Item, x: real, y: real)
    requires Shaped(n, maxDepth) && n.depth < maxDepth
    ensures var q := QuadrantOf(Localize(Point(x, y), Position(n.boundry)));
      && SubShaped(n, q, Target(n, q, maxDepth), maxDepth)
      && Shaped(Target(n, q, maxDepth), maxDepth)
      && OptionItems(Sub(n, q)) == Items(Target(n, q, maxDepth))
      && InsertInto(n, maxDepth, item, x, y)
        == if !Contains(n.boundry, x, y) then Err(IllegalArgument)
           else match InsertInto(Target(n, q, maxDepth), maxDepth, item, x, y)
             case Err(e) => Err(e)
             case Ok((s, path)) => Ok((WithSub(n, q, Some(s)), [q] + path))
  {
    TargetShaped(n, QuadrantOf(Localize(Point(x, y), Position(n.boundry))), maxDepth);
  }

  /** Insert at maximum depth. */
  lemma InsertAppends(n: Node, maxDepth: int, item: Item, x: real, y: real)
    requires Shaped(n, maxDepth) && n.depth >= maxDepth
    ensures InsertInto(n, maxDepth, item, x, y)
         == if !Contains(n.boundry, x, y) then Err(IllegalArgument)
            else Ok((n.(children := Some(n.children.value + [item])), []))
  {
  }

  /** Insertion keeps the tree's shape and its top node. */
  lemma {:induction false} InsertKeepsShape(n: Node, maxDepth: int, item: Item, x: real, y: real)
    requires Shaped(n, maxDepth)
    requires InsertInto(n, maxDepth, item, x, y).Ok?
    ensures var t := InsertInto(n, maxDepth, item, x, y).value.0;
      && Shaped(t, maxDepth) && t.depth == n.depth && t.boundry == n.boundry
      && (n.depth < maxDepth ==> t.children == n.children)
    decreases maxDepth - n.depth
  {
    if n.depth < maxDepth {
      var q := QuadrantOf(Localize(Point(x, y), Position(n.boundry)));
      var sub := Target(n, q, maxDepth);
      InsertDescends(n, maxDepth, item, x, y);
      InsertKeepsShape(sub, maxDepth, item, x, y);
      WithSubShaped(n, q, Some(InsertInto(sub, maxDepth, item, x, y).value.0), maxDepth);
    }
  }

  /** Insertion keeps the tree's shape and its top node, and the item ends its node's list. */
  lemma {:induction false} InsertShape(n: Node, maxDepth: int, item: Item, x: real, y: real)
    requires Shaped(n, maxDepth)
    requires InsertInto(n, maxDepth, item, x, y).Ok?
    ensures var (t, path) := InsertInto(n, maxDepth, item, x, y).value;
      && Shaped(t, maxDepth) && t.depth == n.depth && t.boundry == n.boundry
      && (n.depth < maxDepth ==> t.children == n.children)
      && NodeAt(t, path).Some? && NodeAt(t, path).value.children.Some?
      && |NodeAt(t, path).value.children.value| > 0
      && NodeAt(t, path).value.children.value[|NodeAt(t, path).value.children.value| - 1] == item
      && |path| == (if n.depth < maxDepth then maxDepth - n.depth else 0)
    decreases maxDepth - n.depth
  {
    InsertKeepsShape(n, maxDepth, item, x, y);
    if n.depth < maxDepth {
      var q := QuadrantOf(Localize(Point(x, y), Position(n.boundry)));
      var sub := Target(n, q, maxDepth);
      InsertDescends(n, maxDepth, item, x, y);
      InsertShape(sub, maxDepth, item, x, y);
      var (s, path) := InsertInto(sub, maxDepth, item, x, y).value;
      assert NodeAt(WithSub(n, q, Some(s)), [q] + path) == NodeAt(s, path) by {
        assert ([q] + path)[1..] == path;
      }
    }
  }

  /** Insertion adds exactly the item to the tree's items. */
  lemma {:induction false} InsertAddsItem(n: Node, maxDepth: int, item: Item, x: real, y: real)
    requires Shaped(n, maxDepth)
    requires InsertInto(n, maxDepth, item, x, y).Ok?
    ensures Items(InsertInto(n, maxDepth, item, x, y).value.0) == Items(n) + multiset{item}
    decreases maxDepth - n.depth
  {
    if n.depth < maxDepth {
      var q := QuadrantOf(Localize(Point(x, y), Position(n.boundry)));
      var sub := Target(n, q, maxDepth);
      InsertDescends(n, maxDepth, item, x, y);
      InsertAddsItem(sub, maxDepth, item, x, y);
      var (s, path) := InsertInto(sub, maxDepth, item, x, y).value;
      WithSubItems(n, q, Some(s));
      Absorb(Items(WithSub(n, q, Some(s))), Items(sub), Items(n), Items(s), multiset{item});
    } else {
      var l := n.children.value;
      InsertAppends(n, maxDepth, item, x, y);
      assert multiset(l + [item]) == multiset(l) + multiset{item};
      AppendedItems(n, item);
    }
  }

  /** Appending to a node's own list adds the item to the subtree's items. */
  lemma AppendedItems(n: Node, item: Item)
    requires n.children.Some?
    ensures Items(n.(children := Some(n.children.value + [item]))) == Items(n) + multiset{item}
  {
    var l := n.children.value;
    assert multiset(l + [item]) == multiset(l) + multiset{item};
    assert Items(n.(children := Some(l + [item]))) == multiset(l) + multiset{item} + OptionItems(n.nw) + OptionItems(n.ne) + OptionItems(n.sw) + OptionItems(n.se);
  }

  /** In a shaped tree only the bounds check at the node inserted into can fail: every deeper check passes. */
  lemma {:induction false} InsertFailsOnlyOutOfBounds(n: Node, maxDepth: int, item: Item, x: real, y: real)
    requires Shaped(n, maxDepth)
    ensures InsertInto(n, maxDepth, item, x, y).Err? <==> !Contains(n.boundry, x, y)
    ensures InsertInto(n, maxDepth, item, x, y).Err? ==> InsertInto(n, maxDepth, item, x, y).error == IllegalArgument
    decreases maxDepth - n.depth
  {
    if Contains(n.boundry, x, y) && n.depth < maxDepth {
      var q := QuadrantOf(Localize(Point(x, y), Position(n.boundry)));
      var sub := Target(n, q, maxDepth);
      InsertDescends(n, maxDepth, item, x, y);
      QuadrantOfContainedPoint(n.boundry, x, y);
      InsertFailsOnlyOutOfBounds(sub, maxDepth, item, x, y);
    }
  }

  /** The corrected emptiness test: a missing item list counts as empty. */
  predicate IsEmpty(n: Node)
    decreases n
  {
    && (n.children.None? || n.children.value == [])
    && (n.nw.Some? ==> IsEmpty(n.nw.value))
    && (n.ne.Some? ==> IsEmpty(n.ne.value))
    && (n.sw.Some? ==> IsEmpty(n.sw.value))
    && (n.se.Some? ==> IsEmpty(n.se.value))
  }

  /** A subtree is empty exactly when it holds no items. */
  lemma {:induction false} IsEmptyMeansNoItems(n: Node)
    ensures IsEmpty(n) <==> Items(n) == multiset{}
    decreases n
  {
    if n.nw.Some? { IsEmptyMeansNoItems(n.nw.value); }
    if n.ne.Some? { IsEmptyMeansNoItems(n.ne.value); }
    if n.sw.Some? { IsEmptyMeansNoItems(n.sw.value); }
    if n.se.Some? { IsEmptyMeansNoItems(n.se.value); }
    var own := if n.children.Some? then multiset(n.children.value) else multiset{};
    assert own == multiset{} <==> n.children.None? || n.children.value == [];
    SumEmpty(own, OptionItems(n.nw), OptionItems(n.ne), OptionItems(n.sw), OptionItems(n.se));
  }

  /**
   * isEmpty as written: it reads the node's own list first, so a node
   * without one (every node below the root and above maximum depth) throws;
   * the subtree tests are joined by short-circuit "and".
   */
  function IsEmptyAsWritten(n: Node): Result<bool, TreeError>
    decreases n
  {
    match n.children
    case None => Err(NullPointer)
    case Some(l) =>
      if l != [] then Ok(false)
      else
        var a := if n.nw.Some? then IsEmptyAsWritten(n.nw.value) else Ok(true);
        if a != Ok(true) then a
        else
          var b := if n.ne.Some? then IsEmptyAsWritten(n.ne.value) else Ok(true);
          if b != Ok(true) then b
          else
            var c := if n.sw.Some? then IsEmptyAsWritten(n.sw.value) else Ok(true);
            if c != Ok(true) then c
            else if n.se.Some? then IsEmptyAsWritten(n.se.value) else Ok(true)
  }

  /** Every node of the subtree has an item list. */
  predicate AllListed(n: Node)
    decreases n
  {
    && n.children.Some?
    && (n.nw.Some? ==> AllListed(n.nw.value))
    && (n.ne.Some? ==> AllListed(n.ne.value))
    && (n.sw.Some? ==> AllListed(n.sw.value))
    && (n.se.Some? ==> AllListed(n.se.value))
  }

  /** Where every node has a list, the written test agrees with the corrected one. */
  lemma {:induction false} IsEmptyAsWrittenAgrees(n: Node)
    requires AllListed(n)
    ensures IsEmptyAsWritten(n) == Ok(IsEmpty(n))
    decreases n
  {
    if n.nw.Some? { IsEmptyAsWrittenAgrees(n.nw.value); }
    if n.ne.Some? { IsEmptyAsWrittenAgrees(n.ne.value); }
    if n.sw.Some? { IsEmptyAsWrittenAgrees(n.sw.value); }
    if n.se.Some? { IsEmptyAsWrittenAgrees(n.se.value); }
  }

  function Pruned(o: Option<Node>): Option<Node>
  {
    if o.Some? && IsEmpty(o.value) then None else o
  }

  /** prune's own step: every empty subtree is dropped. */
  function PruneSelf(n: Node): (r: Node)
    ensures r.depth == n.depth && r.boundry == n.boundry && r.children == n.children
    ensures forall q :: Sub(r, q) == (if Sub(n, q).Some? && IsEmpty(Sub(n, q).value) then None else Sub(n, q))
  {
    n.(nw := Pruned(n.nw), ne := Pruned(n.ne), sw := Pruned(n.sw), se := Pruned(n.se))
  }

  /** prune from the node a path names: that node first, then each ancestor up to the root. */
  function PruneUp(n: Node, path: seq<Quadrant>): (r: Node)
    requires NodeAt(n, path).Some?
    ensures r.depth == n.depth && r.boundry == n.boundry && r.children == n.children
    decreases |path|
  {
    if path == [] then PruneSelf(n)
    else PruneSelf(WithSub(n, path[0], Some(PruneUp(Sub(n, path[0]).value, path[1..]))))
  }

  /** Pruning drops only empty subtrees, so the items, in order, are unchanged. */
  lemma PruneSelfKeepsItems(n: Node)
    ensures Items(PruneSelf(n)) == Items(n)
  {
    PrunedKeepsItems(n.nw);
    PrunedKeepsItems(n.ne);
    PrunedKeepsItems(n.sw);
    PrunedKeepsItems(n.se);
  }

  lemma PrunedKeepsItems(o: Option<Node>)
    ensures OptionItems(Pruned(o)) == OptionItems(o)
  {
    if o.Some? { IsEmptyMeansNoItems(o.value); }
  }

  lemma PruneSelfShaped(n: Node, maxDepth: int)
    requires Shaped(n, maxDepth)
    ensures Shaped(PruneSelf(n), maxDepth)
  {
  }

  lemma {:induction false} PruneUpKeepsItems(n: Node, path: seq<Quadrant>)
    requires NodeAt(n, path).Some?
    ensures Items(PruneUp(n, path)) == Items(n)
    decreases |path|
  {
    if path == [] {
      PruneSelfKeepsItems(n);
    } else {
      var s := Sub(n, path[0]).value;
      var w := WithSub(n, path[0], Some(PruneUp(s, path[1..])));
      PruneUpKeepsItems(s, path[1..]);
      WithSubItems(n, path[0], Some(PruneUp(s, path[1..])));
      Cancel(Items(w), Items(n), Items(s));
      PruneSelfKeepsItems(w);
    }
  }

  lemma {:induction false} PruneUpShaped(n: Node, path: seq<Quadrant>, maxDepth: int)
    requires Shaped(n, maxDepth) && NodeAt(n, path).Some?
    ensures Shaped(PruneUp(n, path), maxDepth)
    decreases |path|
  {
    if path == [] {
      PruneSelfShaped(n, maxDepth);
    } else {
      var s := Sub(n, path[0]).value;
      SubOfShaped(n, path[0], maxDepth);
      PruneUpShaped(s, path[1..], maxDepth);
      WithSubShaped(n, path[0], Some(PruneUp(s, path[1..])), maxDepth);
      PruneSelfShaped(WithSub(n, path[0], Some(PruneUp(s, path[1..]))), maxDepth);
    }
  }

  /** Replacing the node a path names changes the items by exactly what the old and new nodes hold. */
  lemma {:induction false} ReplaceAtItems(n: Node, path: seq<Quadrant>, m: Node)
    requires NodeAt(n, path).Some?
    ensures Items(ReplaceAt(n, path, m)) + Items(NodeAt(n, path).value) == Items(n) + Items(m)
    decreases |path|
  {
    if path != [] {
      var s := Sub(n, path[0]).value;
      var inner := ReplaceAt(s, path[1..], m);
      ReplaceAtItems(s, path[1..], m);
      WithSubItems(n, path[0], Some(inner));
      assert ReplaceAt(n, path, m) == WithSub(n, path[0], Some(inner));
      assert NodeAt(n, path) == NodeAt(s, path[1..]);
      Chain(Items(ReplaceAt(n, path, m)), Items(s), Items(n), Items(inner), Items(NodeAt(n, path).value), Items(m));
    } else {
      assert Items(m) + Items(n) == Items(n) + Items(m);
    }
  }

  lemma {:induction false} ReplaceAtShaped(n: Node, path: seq<Quadrant>, m: Node, maxDepth: int)
    requires Shaped(n, maxDepth) && NodeAt(n, path).Some?
    requires Shaped(m, maxDepth)
    requires m.depth == NodeAt(n, path).value.depth && m.boundry == NodeAt(n, path).value.boundry
    requires m.children.Some? == NodeAt(n, path).value.children.Some?
    ensures Shaped(ReplaceAt(n, path, m), maxDepth)
    ensures NodeAt(ReplaceAt(n, path, m), path) == Some(m)
    ensures path != [] ==> ReplaceAt(n, path, m).children == n.children
    ensures ReplaceAt(n, path, m).depth == n.depth && ReplaceAt(n, path, m).boundry == n.boundry
    decreases |path|
  {
    if path != [] {
      var s := Sub(n, path[0]).value;
      SubOfShaped(n, path[0], maxDepth);
      ReplaceAtShaped(s, path[1..], m, maxDepth);
      WithSubShaped(n, path[0], Some(ReplaceAt(s, path[1..], m)), maxDepth);
    }
  }

  /** The item taken out of the list of the node a path names. */
  function Without(n: Node, item: Item): Node
    requires n.children.Some?
  {
    n.(children := Some(RemoveFirst(n.children.value, item)))
  }

  /**
   * remove, for an item whose parent is the node `at` itself: take it out of
   * that node's list (a node without a list throws), then prune upward.
   */
  function RemoveDirect(top: Node, at: seq<Quadrant>, item: Item): Result<Node, TreeError>
    requires NodeAt(top, at).Some?
  {
    var node := NodeAt(top, at).value;
    match node.children
    case None => Err(NullPointer)
    case Some(_) =>
      var replaced := ReplaceAt(top, at, Without(node, item));
      assert NodeAt(replaced, at).Some? by { ReplaceAtNode(top, at, Without(node, item)); }
      Ok(PruneUp(replaced, at))
  }

  lemma {:induction false} ReplaceAtNode(n: Node, path: seq<Quadrant>, m: Node)
    requires NodeAt(n, path).Some?
    ensures NodeAt(ReplaceAt(n, path, m), path) == Some(m)
    decreases |path|
  {
    if path != [] {
      ReplaceAtNode(Sub(n, path[0]).value, path[1..], m);
    }
  }

  /** Direct removal takes exactly one occurrence of the item out of the tree, when the node holds it. */
  lemma RemoveDirectTakesItem(top: Node, at: seq<Quadrant>, item: Item)
    requires NodeAt(top, at).Some? && NodeAt(top, at).value.children.Some?
    ensures RemoveDirect(top, at, item).Ok?
    ensures item in NodeAt(top, at).value.children.value ==>
      Items(RemoveDirect(top, at, item).value) + multiset{item} == Items(top)
  {
    var node := NodeAt(top, at).value;
    var m := Without(node, item);
    var replaced := ReplaceAt(top, at, m);
    ReplaceAtNode(top, at, m);
    ReplaceAtItems(top, at, m);
    PruneUpKeepsItems(replaced, at);
    assert RemoveDirect(top, at, item) == Ok(PruneUp(replaced, at));
    if item in node.children.value {
      WithoutItems(node, item);
      Exchange(Items(replaced), Items(node), Items(top), Items(m), multiset{item});
    }
  }

  lemma WithoutItems(n: Node, item: Item)
    requires n.children.Some? && item in n.children.value
    ensures Items(Without(n, item)) + multiset{item} == Items(n)
  {
    RemoveFirstCount(n.children.value, item);
  }

  /**
   * The state a written prune leaves behind: the tree, with every step done
   * before an exception, and the exception, if one was thrown.
   */
  datatype Pruning = Pruning(node: Node, error: Option<TreeError>)

  /** One pruning step as written: a subtree whose written emptiness test throws stops the prune there. */
  function PruneQuadAsWritten(n: Node, q: Quadrant): Pruning
  {
    match Sub(n, q)
    case None => Pruning(n, None)
    case Some(s) =>
      match IsEmptyAsWritten(s)
      case Err(e) => Pruning(n, Some(e))
      case Ok(empty) => Pruning(if empty then WithSub(n, q, None) else n, None)
  }

  /** prune's own step as written: NORTHWEST, NORTHEAST, SOUTHWEST, then SOUTHEAST, stopping at the first exception. */
  function PruneSelfAsWritten(n: Node): Pruning
  {
    var a := PruneQuadAsWritten(n, NorthWest);
    if a.error.Some? then a
    else
      var b := PruneQuadAsWritten(a.node, NorthEast);
      if b.error.Some? then b
      else
        var c := PruneQuadAsWritten(b.node, SouthWest);
        if c.error.Some? then c
        else PruneQuadAsWritten(c.node, SouthEast)
  }

  /**
   * prune as written, from the node a path names up to the root: each node
   * prunes itself and then its parent; an exception leaves the nodes below
   * pruned and those above untouched.
   */
  function PruneUpAsWritten(n: Node, path: seq<Quadrant>): Pruning
    requires NodeAt(n, path).Some?
    decreases |path|
  {
    if path == [] then PruneSelfAsWritten(n)
    else
      var p := PruneUpAsWritten(Sub(n, path[0]).value, path[1..]);
      var w := WithSub(n, path[0], Some(p.node));
      if p.error.Some? then Pruning(w, p.error) else PruneSelfAsWritten(w)
  }

  /**
   * remove as written, for an item whose parent is the node `at`: a node
   * without a list throws before anything changes; otherwise the item is
   * taken out of the list and the written prune runs.
   */
  function RemoveDirectAsWritten(top: Node, at: seq<Quadrant>, item: Item): Pruning
    requires NodeAt(top, at).Some?
  {
    var node := NodeAt(top, at).value;
    match node.children
    case None => Pruning(top, Some(NullPointer))
    case Some(_) =>
      var replaced := ReplaceAt(top, at, Without(node, item));
      assert NodeAt(replaced, at).Some? by { ReplaceAtNode(top, at, Without(node, item)); }
      PruneUpAsWritten(replaced, at)
  }

  /** A written emptiness test that answers true has seen only empty lists. */
  lemma {:induction false} IsEmptyAsWrittenSound(n: Node)
    ensures IsEmptyAsWritten(n) == Ok(true) ==> IsEmpty(n)
    decreases n
  {
    if n.nw.Some? { IsEmptyAsWrittenSound(n.nw.value); }
    if n.ne.Some? { IsEmptyAsWrittenSound(n.ne.value); }
    if n.sw.Some? { IsEmptyAsWrittenSound(n.sw.value); }
    if n.se.Some? { IsEmptyAsWrittenSound(n.se.value); }
  }

  /** A written prune step drops only empty subtrees and keeps the node's own fields. */
  lemma PruneQuadAsWrittenKeeps(n: Node, q: Quadrant, maxDepth: int)
    ensures var r := PruneQuadAsWritten(n, q).node;
      && Items(r) == Items(n)
      && r.depth == n.depth && r.children == n.children && r.boundry == n.boundry
      && (Shaped(n, maxDepth) ==> Shaped(r, maxDepth))
  {
    var r := PruneQuadAsWritten(n, q).node;
    if Sub(n, q).Some? && IsEmptyAsWritten(Sub(n, q).value) == Ok(true) {
      assert r == WithSub(n, q, None);
      DroppedEmptyKeeps(n, q, maxDepth);
    } else {
      assert r == n;
    }
  }

  lemma DroppedEmptyKeeps(n: Node, q: Quadrant, maxDepth: int)
    requires Sub(n, q).Some? && IsEmptyAsWritten(Sub(n, q).value) == Ok(true)
    ensures Items(WithSub(n, q, None)) == Items(n)
    ensures Shaped(n, maxDepth) ==> Shaped(WithSub(n, q, None), maxDepth)
  {
    IsEmptyAsWrittenSound(Sub(n, q).value);
    IsEmptyMeansNoItems(Sub(n, q).value);
    WithSubItems(n, q, None);
    if Shaped(n, maxDepth) { WithSubShaped(n, q, None, maxDepth); }
  }

  lemma PruneSelfAsWrittenKeeps(n: Node, maxDepth: int)
    ensures var r := PruneSelfAsWritten(n).node;
      && Items(r) == Items(n)
      && r.depth == n.depth && r.children == n.children && r.boundry == n.boundry
      && (Shaped(n, maxDepth) ==> Shaped(r, maxDepth))
  {
    var a := PruneQuadAsWritten(n, NorthWest);
    var b := PruneQuadAsWritten(a.node, NorthEast);
    var c := PruneQuadAsWritten(b.node, SouthWest);
    PruneQuadAsWrittenKeeps(n, NorthWest, maxDepth);
    PruneQuadAsWrittenKeeps(a.node, NorthEast, maxDepth);
    PruneQuadAsWrittenKeeps(b.node, SouthWest, maxDepth);
    PruneQuadAsWrittenKeeps(c.node, SouthEast, maxDepth);
  }

  /** Whether or not it throws, the written prune keeps every item, the shape, and the root's own fields. */
  lemma {:induction false} PruneUpAsWrittenKeeps(n: Node, path: seq<Quadrant>, maxDepth: int)
    requires NodeAt(n, path).Some?
    ensures var r := PruneUpAsWritten(n, path).node;
      && Items(r) == Items(n)
      && r.depth == n.depth && r.children == n.children && r.boundry == n.boundry
      && (Shaped(n, maxDepth) ==> Shaped(r, maxDepth))
    decreases |path|
  {
    if path == [] {
      PruneSelfAsWrittenKeeps(n, maxDepth);
    } else {
      var s := Sub(n, path[0]).value;
      var p := PruneUpAsWritten(s, path[1..]);
      var w := WithSub(n, path[0], Some(p.node));
      PruneUpAsWrittenKeeps(s, path[1..], maxDepth);
      ReplacedSubKeeps(n, path[0], p.node, maxDepth);
      PruneSelfAsWrittenKeeps(w, maxDepth);
      if p.error.Some? {
        assert PruneUpAsWritten(n, path).node == w;
      } else {
        assert PruneUpAsWritten(n, path).node == PruneSelfAsWritten(w).node;
      }
    }
  }

  /** Replacing a subtree by one with the same items and fields keeps the items and the shape. */
  lemma ReplacedSubKeeps(n: Node, q: Quadrant, t: Node, maxDepth: int)
    requires Sub(n, q).Some?
    requires var s := Sub(n, q).value;
      Items(t) == Items(s) && t.depth == s.depth && t.children == s.children && t.boundry == s.boundry
      && (Shaped(s, maxDepth) ==> Shaped(t, maxDepth))
    ensures Items(WithSub(n, q, Some(t))) == Items(n)
    ensures Shaped(n, maxDepth) ==> Shaped(WithSub(n, q, Some(t)), maxDepth)
  {
    WithSubItems(n, q, Some(t));
    Cancel(Items(WithSub(n, q, Some(t))), Items(n), Items(t));
    if Shaped(n, maxDepth) {
      SubOfShaped(n, q, maxDepth);
      WithSubShaped(n, q, Some(t), maxDepth);
    }
  }

  /** A node with at least one subtree, none of which has an item list, makes the written prune step throw. */
  lemma PruneSelfAsWrittenThrows(w: Node)
    requires w.nw.Some? || w.ne.Some? || w.sw.Some? || w.se.Some?
    requires forall q :: Sub(w, q).Some? ==> Sub(w, q).value.children.None?
    ensures PruneSelfAsWritten(w).error == Some(NullPointer)
  {
    if w.nw.Some? {
      assert Sub(w, NorthWest).Some?;
    } else if w.ne.Some? {
      assert Sub(w, NorthEast).Some? && PruneQuadAsWritten(w, NorthWest) == Pruning(w, None);
    } else if w.sw.Some? {
      assert Sub(w, SouthWest).Some? && PruneQuadAsWritten(w, NorthEast) == Pruning(w, None);
    } else {
      assert Sub(w, SouthEast).Some? && PruneQuadAsWritten(w, SouthWest) == Pruning(w, None);
    }
  }

  /**
   * Written pruning throws whenever it starts two levels or more below the
   * node it is applied to: the node one level below on the path, and every
   * sibling of it, has subtrees, so none of them is at maximum depth or holds
   * an item list.
   */
  lemma {:induction false} PruneUpAsWrittenThrows(n: Node, path: seq<Quadrant>, maxDepth: int)
    requires Shaped(n, maxDepth) && NodeAt(n, path).Some? && |path| >= 2
    ensures PruneUpAsWritten(n, path).error == Some(NullPointer)
    decreases |path|
  {
    var s := Sub(n, path[0]).value;
    SubOfShaped(n, path[0], maxDepth);
    if |path[1..]| >= 2 {
      PruneUpAsWrittenThrows(s, path[1..], maxDepth);
    } else {
      SubOfShaped(s, path[1], maxDepth);
      var p := PruneUpAsWritten(s, path[1..]);
      PruneUpAsWrittenKeeps(s, path[1..], maxDepth);
      if p.error.Some? {
        PruneUpAsWrittenErrorIsNull(s, path[1..]);
      } else {
        var w := WithSub(n, path[0], Some(p.node));
        forall q | Sub(w, q).Some?
          ensures Sub(w, q).value.children.None?
        {
          if q != path[0] { SubOfShaped(n, q, maxDepth); }
        }
        assert Sub(w, path[0]).Some?;
        PruneSelfAsWrittenThrows(w);
      }
    }
  }

  /** The written emptiness test, and so the written prune, can only throw NullPointerException. */
  lemma {:induction false} IsEmptyAsWrittenErrorIsNull(n: Node)
    ensures IsEmptyAsWritten(n).Err? ==> IsEmptyAsWritten(n).error == NullPointer
    decreases n
  {
    if n.nw.Some? { IsEmptyAsWrittenErrorIsNull(n.nw.value); }
    if n.ne.Some? { IsEmptyAsWrittenErrorIsNull(n.ne.value); }
    if n.sw.Some? { IsEmptyAsWrittenErrorIsNull(n.sw.value); }
    if n.se.Some? { IsEmptyAsWrittenErrorIsNull(n.se.value); }
  }

  lemma PruneSelfAsWrittenErrorIsNull(n: Node)
    ensures PruneSelfAsWritten(n).error.Some? ==> PruneSelfAsWritten(n).error == Some(NullPointer)
  {
    forall m: Node, q: Quadrant | Sub(m, q).Some?
      ensures PruneQuadAsWritten(m, q).error.Some? ==> PruneQuadAsWritten(m, q).error == Some(NullPointer)
    {
      IsEmptyAsWrittenErrorIsNull(Sub(m, q).value);
    }
  }

  lemma {:induction false} PruneUpAsWrittenErrorIsNull(n: Node, path: seq<Quadrant>)
    requires NodeAt(n, path).Some?
    ensures PruneUpAsWritten(n, path).error.Some? ==> PruneUpAsWritten(n, path).error == Some(NullPointer)
    decreases |path|
  {
    if path == [] {
      PruneSelfAsWrittenErrorIsNull(n);
    } else {
      var p := PruneUpAsWritten(Sub(n, path[0]).value, path[1..]);
      PruneUpAsWrittenErrorIsNull(Sub(n, path[0]).value, path[1..]);
      if p.error.None? {
        PruneSelfAsWrittenErrorIsNull(WithSub(n, path[0], Some(p.node)));
      }
    }
  }

  /** Every subtree of the node has an item list at every level. */
  predicate SubsListed(n: Node)
  {
    forall q :: Sub(n, q).Some? ==> AllListed(Sub(n, q).value)
  }

  /** Where every subtree has its lists, the written prune step throws nothing and does what the corrected one does. */
  lemma PruneSelfAsWrittenAgrees(n: Node)
    requires SubsListed(n)
    ensures PruneSelfAsWritten(n) == Pruning(PruneSelf(n), None)
  {
    forall m: Node, q: Quadrant | Sub(m, q).Some? && AllListed(Sub(m, q).value)
      ensures PruneQuadAsWritten(m, q) == Pruning(WithSub(m, q, Pruned(Sub(m, q))), None)
    {
      IsEmptyAsWrittenAgrees(Sub(m, q).value);
    }
    assert Sub(n, NorthWest) == n.nw && Sub(n, NorthEast) == n.ne && Sub(n, SouthWest) == n.sw && Sub(n, SouthEast) == n.se;
  }

  /** Pruning keeps every remaining node's list, so a fully listed subtree stays fully listed. */
  lemma {:induction false} PruneUpKeepsListed(n: Node, path: seq<Quadrant>)
    requires NodeAt(n, path).Some? && AllListed(n)
    ensures AllListed(PruneUp(n, path))
    decreases |path|
  {
    if path != [] {
      var s := Sub(n, path[0]).value;
      PruneUpKeepsListed(s, path[1..]);
    }
  }

  /** Where every subtree of the starting node has its lists, the written prune agrees with the corrected one. */
  lemma {:induction false} PruneUpAsWrittenAgrees(n: Node, path: seq<Quadrant>)
    requires NodeAt(n, path).Some? && SubsListed(n)
    ensures PruneUpAsWritten(n, path) == Pruning(PruneUp(n, path), None)
    decreases |path|
  {
    if path == [] {
      PruneSelfAsWrittenAgrees(n);
    } else {
      var s := Sub(n, path[0]).value;
      assert AllListed(s);
      PruneUpAsWrittenAgrees(s, path[1..]);
      PruneUpKeepsListed(s, path[1..]);
      var w := WithSub(n, path[0], Some(PruneUp(s, path[1..])));
      forall q | Sub(w, q).Some?
        ensures AllListed(Sub(w, q).value)
      {
        if q != path[0] { assert Sub(w, q) == Sub(n, q); }
      }
      PruneSelfAsWrittenAgrees(w);
    }
  }

  /** A shaped node at maximum depth has a list and no subtrees. */
  lemma DeepestListed(n: Node, maxDepth: int)
    requires Shaped(n, maxDepth) && n.depth >= maxDepth
    ensures AllListed(n)
  {
  }

  /**
   * In a tree of maximum depth 2 or less, written and corrected removal agree:
   * every subtree of the root is at maximum depth and has a list.
   */
  lemma RemoveAsWrittenAgreesShallow(top: Node, maxDepth: int, at: seq<Quadrant>, item: Item)
    requires Shaped(top, maxDepth) && top.depth == 1 && maxDepth <= 2
    requires NodeAt(top, at).Some? && NodeAt(top, at).value.children.Some?
    ensures RemoveDirect(top, at, item).Ok?
    ensures RemoveDirectAsWritten(top, at, item) == Pruning(RemoveDirect(top, at, item).value, None)
  {
    var node := NodeAt(top, at).value;
    var m := Without(node, item);
    NodeShaped(top, at, maxDepth);
    ReplaceAtNode(top, at, m);
    ReplaceAtShaped(top, at, m, maxDepth);
    var replaced := ReplaceAt(top, at, m);
    forall q | Sub(replaced, q).Some?
      ensures AllListed(Sub(replaced, q).value)
    {
      SubOfShaped(replaced, q, maxDepth);
      DeepestListed(Sub(replaced, q).value, maxDepth);
    }
    PruneUpAsWrittenAgrees(replaced, at);
  }

  /**
   * In a tree of maximum depth 3 or more, removing any item that insert
   * placed throws as written, but only after the item has left the tree;
   * the corrected removal takes exactly that item out and throws nothing.
   */
  lemma RemoveThrowsAtDepthThree(top: Node, maxDepth: int, item: Item, x: real, y: real)
    requires Shaped(top, maxDepth) && top.depth == 1 && maxDepth >= 3
    requires InsertInto(top, maxDepth, item, x, y).Ok?
    ensures var (t, path) := InsertInto(top, maxDepth, item, x, y).value;
      && NodeAt(t, path).Some?
      && NodeAt(t, path).value.children.Some?
      && RemoveDirectAsWritten(t, path, item).error == Some(NullPointer)
      && Items(RemoveDirectAsWritten(t, path, item).node) == Items(top)
      && RemoveDirect(t, path, item).Ok?
      && Items(RemoveDirect(t, path, item).value) == Items(top)
  {
    var (t, path) := InsertInto(top, maxDepth, item, x, y).value;
    InsertShape(top, maxDepth, item, x, y);
    InsertAddsItem(top, maxDepth, item, x, y);
    var node := NodeAt(t, path).value;
    var m := Without(node, item);
    ReplaceAtNode(t, path, m);
    NodeShaped(t, path, maxDepth);
    ReplaceAtShaped(t, path, m, maxDepth);
    PruneUpAsWrittenThrows(ReplaceAt(t, path, m), path, maxDepth);
    assert node.children.value[|node.children.value| - 1] in node.children.value;
    RemoveDirectTakesItem(t, path, item);
    Cancel(Items(RemoveDirect(t, path, item).value), Items(top), multiset{item});
    var replaced := ReplaceAt(t, path, m);
    PruneUpAsWrittenKeeps(replaced, path, maxDepth);
    PruneUpKeepsItems(replaced, path);
    assert RemoveDirect(t, path, item).value == PruneUp(replaced, path);
  }

  /** The items an iterator over the node yields: a node with a list yields only that list, any other its SOUTHWEST, NORTHEAST and NORTHWEST subtrees. */
  function Iterate(n: Node): seq<Item>
    decreases n
  {
    if n.children.Some? then n.children.value
    else
      (if n.sw.Some? then Iterate(n.sw.value) else [])
      + (if n.ne.Some? then Iterate(n.ne.value) else [])
      + (if n.nw.Some? then Iterate(n.nw.value) else [])
  }

  function SubIterate(n: Node, q: Quadrant): seq<Item>
  {
    if Sub(n, q).Some? then Iterate(Sub(n, q).value) else []
  }

  /** What is left to yield once the quadrant walk stands at `quad`. */
  function Rest(n: Node, quad: Step): seq<Item>
  {
    match quad
    case Last => []
    case Then(q) =>
      match q
      case SouthEast => SubIterate(n, SouthWest) + SubIterate(n, NorthEast) + SubIterate(n, NorthWest)
      case SouthWest => SubIterate(n, NorthEast) + SubIterate(n, NorthWest)
      case NorthEast => SubIterate(n, NorthWest)
      case NorthWest => []
  }

  function StepRank(quad: Step): nat
  {
    match quad
    case Last => 0
    case Then(q) => match q case NorthWest => 1 case NorthEast => 2 case SouthWest => 3 case SouthEast => 4
  }

  /** An iterator yields only items of the subtree, never more often than they occur there. */
  lemma {:induction false} IterateWithinItems(n: Node)
    ensures multiset(Iterate(n)) <= Items(n)
    decreases n
  {
    if n.children.None? {
      var a := if n.sw.Some? then Iterate(n.sw.value) else [];
      var b := if n.ne.Some? then Iterate(n.ne.value) else [];
      var c := if n.nw.Some? then Iterate(n.nw.value) else [];
      if n.nw.Some? { IterateWithinItems(n.nw.value); }
      if n.ne.Some? { IterateWithinItems(n.ne.value); }
      if n.sw.Some? { IterateWithinItems(n.sw.value); }
      assert multiset(Iterate(n)) == multiset(a) + multiset(b) + multiset(c);
      assert multiset(a) <= OptionItems(n.sw) && multiset(b) <= OptionItems(n.ne) && multiset(c) <= OptionItems(n.nw);
      Within(multiset(a), multiset(b), multiset(c), OptionItems(n.sw), OptionItems(n.ne), OptionItems(n.nw),
             multiset{}, OptionItems(n.se));
    }
  }

  /** A node without a list never yields its SOUTHEAST subtree's items. */
  lemma SouthEastNeverYielded(n: Node)
    requires n.children.None?
    ensures Iterate(WithSub(n, SouthEast, None)) == Iterate(n)
  {
  }

  lemma RestStep(n: Node, q: Quadrant)
    ensures Geometry.Next(q).Last? ==> Rest(n, Then(q)) == []
    ensures Geometry.Next(q).Then? ==> Rest(n, Then(q)) == SubIterate(n, Geometry.Next(q).q) + Rest(n, Geometry.Next(q))
  {
  }

  /** The quadrant walk from SOUTHEAST covers everything a node without a list yields. */
  lemma IterateWalk(n: Node)
    requires n.children.None?
    ensures Rest(n, Then(SouthEast)) == Iterate(n)
  {
  }

  /** An iterator over a node, holding what it has still to yield. */
  class TreeIterator {
    var remaining: seq<Item>

    /**
     * iterator(): a node with a list iterates the list; any other gets a
     * QuadTreeIterator, which starts at SOUTHEAST and advances before its
     * first lookup.
     */
    constructor(n: Node)
      ensures remaining == Iterate(n)
    {
      if n.children.Some? {
        remaining := n.children.value;
      } else {
        var yielded := [];
        var quad := Then(SouthEast);
        IterateWalk(n);
        while quad.Then?
          invariant yielded + Rest(n, quad) == Iterate(n)
          decreases StepRank(quad)
        {
          RestStep(n, quad.q);
          ghost var before := yielded;
          quad := Geometry.Next(quad.q);
          if quad.Then? {
            var sub := Sub(n, quad.q);
            if sub.Some? {
              var inner := new TreeIterator(sub.value);
              yielded := yielded + inner.remaining;
              assert yielded + Rest(n, quad) == before + (inner.remaining + Rest(n, quad));
            } else {
              assert SubIterate(n, quad.q) == [];
            }
          }
        }
        remaining := yielded;
      }
    }

    predicate HasNext()
      reads this
    {
      remaining != []
    }

    /** next: the next item, or NoSuchElementException at the end. */
    method Next() returns (r: Result<Item, TreeError>)
      modifies this
      ensures old(remaining) == [] ==> r == Err(NoSuchElement) && remaining == []
      ensures old(remaining) != [] ==> r == Ok(old(remaining)[0]) && remaining == old(remaining)[1..]
    {
      if remaining == [] {
        return Err(NoSuchElement);
      }
      r := Ok(remaining[0]);
      remaining := remaining[1..];
    }
  }

  /** The root object of a tree, owning the tree's nodes. */
  class QuadTree {
    const maxDepth: int
    var top: Node

    /** The root is shaped, at depth 1, with a list that stays empty once there is depth to descend into. */
    predicate Valid()
      reads this
    {
      && Shaped(top, maxDepth)
      && top.depth == 1
      && top.children.Some?
      && (maxDepth > 1 ==> top.children.value == [])
    }

    constructor(boundry: Boundry, maxDepth: int)
      ensures this.maxDepth == maxDepth && top == Root(boundry) && Valid()
    {
      this.maxDepth := maxDepth;
      top := Root(boundry);
    }

    /** insert at the root: an item that already has a parent is refused. */
    method Insert(item: Item) returns (r: Outcome<TreeError>)
      requires Valid()
      modifies this`top, item`parent
      ensures Valid()
      ensures old(item.parent).Some? ==> r == Fail(IllegalArgument) && top == old(top) && item.parent == old(item.parent)
      ensures old(item.parent).None? ==>
        match InsertInto(old(top), maxDepth, item, item.x, item.y)
        case Err(e) => r == Fail(e) && top == old(top) && item.parent == None
        case Ok((t, path)) => r == Pass && top == t && item.parent == Some(NodeRef(this, path))
    {
      if item.parent.Some? {
        return Fail(IllegalArgument);
      }
      var result := InsertInto(top, maxDepth, item, item.x, item.y);
      match result
      case Err(e) =>
        return Fail(e);
      case Ok((t, path)) =>
        InsertShape(top, maxDepth, item, item.x, item.y);
        top := t;
        item.parent := Some(NodeRef(this, path));
        return Pass;
    }

    /**
     * remove, called on the node `at`: an item without a parent is refused;
     * the item's own node removes it from its list, clears its parent and
     * prunes as written, which can throw after those two steps (a node
     * without a list throws before either); a node of another tree is
     * refused; another node of this tree does nothing.
     */
    method Remove(at: seq<Quadrant>, item: Item) returns (r: Outcome<TreeError>)
      requires Valid() && NodeAt(top, at).Some?
      modifies this`top, item`parent
      ensures Valid()
      ensures old(item.parent).None? ==> r == Fail(IllegalArgument) && top == old(top) && item.parent == None
      ensures old(item.parent) == Some(NodeRef(this, at)) ==>
        var w := RemoveDirectAsWritten(old(top), at, item);
        && top == w.node
        && r == (if w.error.Some? then Fail(w.error.value) else Pass)
        && item.parent == (if NodeAt(old(top), at).value.children.None? then old(item.parent) else None)
      ensures old(item.parent).Some? && old(item.parent).value.tree != this ==>
        r == Fail(IllegalArgument) && top == old(top) && item.parent == old(item.parent)
      ensures old(item.parent).Some? && old(item.parent).value.tree == this && old(item.parent).value.path != at ==>
        r == Pass && top == old(top) && item.parent == old(item.parent)
    {
      if item.parent.None? {
        return Fail(IllegalArgument);
      }
      var p := item.parent.value;
      if p == NodeRef(this, at) {
        var w := RemoveDirectAsWritten(top, at, item);
        RemoveKeepsValid(at, item);
        if NodeAt(top, at).value.children.Some? {
          item.parent := None;
        }
        top := w.node;
        if w.error.Some? {
          return Fail(w.error.value);
        }
        return Pass;
      }
      if p.tree != this {
        return Fail(IllegalArgument);
      }
      return Pass;
    }

    /** The written removal leaves a valid tree, whether or not it throws. */
    lemma RemoveKeepsValid(at: seq<Quadrant>, item: Item)
      requires Valid() && NodeAt(top, at).Some?
      ensures var t := RemoveDirectAsWritten(top, at, item).node;
        && Shaped(t, maxDepth)
        && t.depth == 1
        && t.children.Some?
        && (maxDepth > 1 ==> t.children.value == [])
    {
      var node := NodeAt(top, at).value;
      if node.children.Some? {
        var m := Without(node, item);
        NodeShaped(top, at, maxDepth);
        ReplaceAtShaped(top, at, m, maxDepth);
        var replaced := ReplaceAt(top, at, m);
        ReplaceAtNode(top, at, m);
        PruneUpAsWrittenKeeps(replaced, at, maxDepth);
        if at == [] && maxDepth > 1 {
          assert node.children.value == [];
        }
      }
    }

    /**
     * update: an item of another tree is refused; otherwise the item is
     * removed by its own node, when it has one, and inserted again from the
     * root; an exception from the removal ends the update before the insert.
     */
    method Update(item: Item) returns (r: Outcome<TreeError>)
      requires Valid()
      requires item.parent.Some? && item.parent.value.tree == this ==> NodeAt(top, item.parent.value.path).Some?
      modifies this`top, item`parent
      ensures Valid()
      ensures old(item.parent).Some? && old(item.parent).value.tree != this ==>
        r == Fail(IllegalArgument) && top == old(top) && item.parent == old(item.parent)
      ensures old(item.parent).None? ==>
        match InsertInto(old(top), maxDepth, item, item.x, item.y)
        case Err(e) => r == Fail(e) && top == old(top) && item.parent == None
        case Ok((t, path)) => r == Pass && top == t && item.parent == Some(NodeRef(this, path))
      ensures old(item.parent).Some? && old(item.parent).value.tree == this ==>
        var at := old(item.parent).value.path;
        var w := RemoveDirectAsWritten(old(top), at, item);
        if w.error.Some? then
          && r == Fail(w.error.value) && top == w.node
          && item.parent == (if NodeAt(old(top), at).value.children.None? then old(item.parent) else None)
        else
          && Shaped(w.node, maxDepth)
          && match InsertInto(w.node, maxDepth, item, item.x, item.y)
             case Err(e) => r == Fail(e) && top == w.node && item.parent == None
             case Ok((t2, path)) => r == Pass && top == t2 && item.parent == Some(NodeRef(this, path))
    {
      if item.parent.Some? {
        var p := item.parent.value;
        if p.tree != this {
          return Fail(IllegalArgument);
        }
        var removed := Remove(p.path, item);
        if removed.Fail? {
          return removed;
        }
      }
      r := Insert(item);
    }
  }

  lemma {:induction false} NodeShaped(n: Node, path: seq<Quadrant>, maxDepth: int)
    requires Shaped(n, maxDepth) && NodeAt(n, path).Some?
    ensures Shaped(NodeAt(n, path).value, maxDepth)
    decreases |path|
  {
    if path != [] {
      SubOfShaped(n, path[0], maxDepth);
      NodeShaped(Sub(n, path[0]).value, path[1..], maxDepth);
    }
  }

  /** A tree deeper than one level yields nothing when iterated from its root: the root has a list, and it stays empty. */
  lemma RootIteratesNothing(t: QuadTree)
    requires t.Valid() && t.maxDepth > 1
    ensures Iterate(t.top) == []
  {
  }
}
