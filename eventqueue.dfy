/**
 * One event queue: the entries (receiver, handler method, priority, vetoable)
 * registered for one event class, kept in priority order, and the delivery
 * loop that notifies them.
 */
module EventQueue {
  import opened Wrappers
  import opened EventKinds

  /** The named priorities of EventPriority; any Java int is a legal priority. */
  const HIGHEST: int := 3
  const HIGHER: int := 2
  const HIGH: int := 1
  const NORMAL: int := 0
  const LOW: int := -1
  const LOWER: int := -2
  const LOWEST: int := -3

  const INT_MIN: int := -0x8000_0000
  const INT_MAX: int := 0x7fff_ffff
  const TWO_32: int := 0x1_0000_0000

  predicate IsInt32(x: int) { INT_MIN <= x <= INT_MAX }

  /** Java int arithmetic: the value modulo 2^32, read as a signed 32-bit number. */
  function Wrap32(x: int): (r: int)
    ensures IsInt32(r)
    ensures IsInt32(x) ==> r == x
  {
    (x - INT_MIN) % TWO_32 + INT_MIN
  }

  /** A receiving object, compared by identity. */
  datatype Receiver = Receiver(id: nat)

  /** The declared type of one method parameter. */
  datatype ParamType = EventParam(kind: Kind) | OtherParam(name: string)

  /**
   * The @EventHandler annotation of a method. The annotation type declares
   * only priority (default NORMAL); the bus also reads a vetoable flag, which
   * is taken here as given.
   */
  datatype HandlerAnnotation = HandlerAnnotation(priority: int, vetoable: bool)

  /** A method as seen through reflection. */
  datatype Method = Method(name: string, params: seq<ParamType>, annotation: Option<HandlerAnnotation>)

  /** EventQueueEntry; equals compares all four parts, as datatype equality does. */
  datatype Entry = Entry(receiver: Receiver, handler: Method, priority: int, vetoable: bool)

  /** What one handler does with one event: return, throw EventVetoException, or throw anything else. */
  datatype HandlerResult = Handled | Vetoed | Failed

  /** The exceptions that matter to notify. */
  datatype JavaException = EventVetoException | HandlerException | InvocationTargetException(cause: JavaException)

  /** The exception the handler method itself throws, if any. */
  function Thrown(r: HandlerResult): (t: Option<JavaException>)
    ensures t == None <==> r == Handled
    ensures t == Some(EventVetoException) <==> r == Vetoed
  {
    match r
    case Handled => None
    case Vetoed => Some(EventVetoException)
    case Failed => Some(HandlerException)
  }

  /** Method.invoke: whatever the invoked method throws reaches the caller wrapped in InvocationTargetException. */
  function Invoke(r: HandlerResult): (t: Option<JavaException>)
    ensures t.None? <==> r == Handled
    ensures t.Some? ==> t.value.InvocationTargetException? && Some(t.value.cause) == Thrown(r)
  {
    match Thrown(r)
    case None => None
    case Some(e) => Some(InvocationTargetException(e))
  }

  /** How notify ends: normally, or by throwing EventVetoException to the queue. */
  datatype Signal = Returned | VetoRaised

  /**
   * EventQueueEntry.notify as written: an EventVetoException caught from the
   * invocation is thrown on, any other exception is logged and swallowed.
   */
  function Notify(r: HandlerResult): Signal
  {
    match Invoke(r)
    case None => Returned
    case Some(e) => if e == EventVetoException then VetoRaised else Returned
  }

  /** The exception caught is always the InvocationTargetException wrapper, so a veto never reaches the queue. */
  lemma NotifyNeverVetoes(r: HandlerResult)
    ensures Notify(r) == Returned
    ensures r == Vetoed ==> Invoke(r) == Some(InvocationTargetException(EventVetoException))
  {
  }

  /** notify as intended: a handler's veto, unwrapped from the invocation, reaches the queue; other failures are swallowed. */
  function NotifyIntended(r: HandlerResult): (s: Signal)
    ensures s == VetoRaised <==> r == Vetoed
    ensures r == Failed ==> s == Returned
  {
    match Invoke(r)
    case None => Returned
    case Some(e) => if e.cause == EventVetoException then VetoRaised else Returned
  }

  // ------------------------------------------------------------ ordering

  /** EventQueueEntry.compareTo as written: other.priority - priority in Java int arithmetic. */
  function CompareToAsWritten(self: Entry, other: Entry): int
  {
    Wrap32(other.priority - self.priority)
  }

  /** The intended order: negative exactly when self has the higher priority. */
  function Compare(self: Entry, other: Entry): (r: int)
    ensures r < 0 <==> self.priority > other.priority
    ensures r == 0 <==> self.priority == other.priority
    ensures r > 0 <==> self.priority < other.priority
  {
    if self.priority > other.priority then -1
    else if self.priority == other.priority then 0
    else 1
  }

  /** With priorities near Integer.MAX_VALUE the subtraction wraps and the order inverts. */
  lemma CompareToOverflows(o: Receiver, m: Method)
    ensures var low := Entry(o, m, -2, false);
            var high := Entry(o, m, INT_MAX, false);
            CompareToAsWritten(low, high) < 0 && Compare(low, high) > 0
  {
  }

  /** For priorities whose difference fits in an int (all named ones do) the two agree in sign. */
  lemma CompareToAgreesInRange(self: Entry, other: Entry)
    requires IsInt32(other.priority - self.priority)
    ensures (CompareToAsWritten(self, other) < 0) == (Compare(self, other) < 0)
    ensures (CompareToAsWritten(self, other) == 0) == (Compare(self, other) == 0)
  {
  }

  // ----------------------------------------------------------- hash code

  /**
   * EventQueueEntry.hashCode: seeded with 7, then 79 * hash + part for the
   * receiver's hash, the method's hash, the priority and vetoable as 1 or 0.
   * The two object hashes are inputs.
   */
  function HashCode(e: Entry, receiverHash: int, methodHash: int): (h: int)
    ensures IsInt32(h)
  {
    var h1 := Wrap32(79 * 7 + receiverHash);
    var h2 := Wrap32(79 * h1 + methodHash);
    var h3 := Wrap32(79 * h2 + e.priority);
    Wrap32(79 * h3 + if e.vetoable then 1 else 0)
  }

  lemma ModAddMultiple(z: int, t: int)
    ensures (z + t * TWO_32) % TWO_32 == z % TWO_32
  {
    var q := z / TWO_32;
    var r := z % TWO_32;
    assert z + t * TWO_32 == (q + t) * TWO_32 + r;
  }

  lemma Wrap32Shift(x: int, t: int)
    ensures Wrap32(x + t * TWO_32) == Wrap32(x)
  {
    ModAddMultiple(x - INT_MIN, t);
  }

  /** Wrapping an intermediate value does not change the wrapped result of 79 * value + part. */
  lemma Wrap32Step(x: int, part: int)
    ensures Wrap32(79 * Wrap32(x) + part) == Wrap32(79 * x + part)
  {
    var t := (x - INT_MIN) / TWO_32;
    assert Wrap32(x) == x - t * TWO_32;
    assert 79 * Wrap32(x) + part == (79 * x + part) + (-79 * t) * TWO_32;
    Wrap32Shift(79 * x + part, -79 * t);
  }

  /** The hash is the base-79 polynomial of its parts, reduced once to a Java int. */
  lemma HashCodePolynomial(e: Entry, receiverHash: int, methodHash: int)
    ensures HashCode(e, receiverHash, methodHash)
         == Wrap32(79 * 79 * 79 * 79 * 7 + 79 * 79 * 79 * receiverHash + 79 * 79 * methodHash
                   + 79 * e.priority + (if e.vetoable then 1 else 0))
  {
    var v := if e.vetoable then 1 else 0;
    var p1 := 79 * 7 + receiverHash;
    var p2 := 79 * p1 + methodHash;
    var p3 := 79 * p2 + e.priority;
    var h2 := Wrap32(79 * Wrap32(p1) + methodHash);
    Wrap32Step(p1, methodHash);
    assert h2 == Wrap32(p2);
    var h3 := Wrap32(79 * h2 + e.priority);
    Wrap32Step(p2, e.priority);
    assert h3 == Wrap32(p3);
    Wrap32Step(p3, v);
    assert HashCode(e, receiverHash, methodHash) == Wrap32(79 * h3 + v);
    assert 79 * p3 + v == 79 * 79 * 79 * 79 * 7 + 79 * 79 * 79 * receiverHash + 79 * 79 * methodHash
                          + 79 * e.priority + v;
  }

  // -------------------------------------------------------------- queues

  /** Iteration order of a queue: non-increasing priority. Ties may come in any order. */
  predicate Sorted(q: seq<Entry>)
  {
    forall i, j :: 0 <= i < j < |q| ==> q[i].priority >= q[j].priority
  }

  /** Adding an entry to the priority queue. */
  function InsertSorted(q: seq<Entry>, e: Entry): (r: seq<Entry>)
    requires Sorted(q)
    ensures Sorted(r)
    ensures multiset(r) == multiset(q) + multiset{e}
    ensures |r| == |q| + 1
  {
    if q == [] then [e]
    else if e.priority > q[0].priority then [e] + q
    else
      var rest := InsertSorted(q[1..], e);
      assert q == [q[0]] + q[1..];
      BelowHead(q, e, rest);
      SortedCons(q[0], rest);
      [q[0]] + rest
  }

  /** What is inserted after the head of a queue sorts below it. */
  lemma BelowHead(q: seq<Entry>, e: Entry, rest: seq<Entry>)
    requires Sorted(q) && q != [] && e.priority <= q[0].priority
    requires multiset(rest) == multiset(q[1..]) + multiset{e}
    ensures forall x :: x in rest ==> x.priority <= q[0].priority
  {
    forall x | x in rest
      ensures x.priority <= q[0].priority
    {
      assert x in multiset(rest);
      if x != e {
        assert x in multiset(q[1..]);
        var j :| 0 <= j < |q[1..]| && q[1..][j] == x;
        assert q[j + 1] == x;
      }
    }
  }

  /** A head no lower than everything after it keeps a sorted queue sorted. */
  lemma SortedCons(h: Entry, rest: seq<Entry>)
    requires Sorted(rest) && forall x :: x in rest ==> x.priority <= h.priority
    ensures Sorted([h] + rest)
  {
    var r := [h] + rest;
    forall i, j | 0 <= i < j < |r|
      ensures r[i].priority >= r[j].priority
    {
      assert r[j] == rest[j - 1];
      if i > 0 {
        assert r[i] == rest[i - 1];
      }
    }
  }

  /**
   * java.util.PriorityQueue.offer as the JDK implements it, ordered by
   * compareTo as written: the entry goes to the end of the heap array and
   * moves up past every parent it compares below. The queue's iterator
   * walks this array from the front.
   */
  function SiftUp(heap: seq<Entry>, k: nat, key: Entry): (r: seq<Entry>)
    requires k < |heap|
    ensures |r| == |heap|
    ensures multiset(r) == multiset(heap) - multiset{heap[k]} + multiset{key}
    decreases k
  {
    if k == 0 then heap[0 := key]
    else
      var parent := (k - 1) / 2;
      if CompareToAsWritten(key, heap[parent]) >= 0 then heap[k := key]
      else
        var moved := heap[k := heap[parent]];
        assert moved[parent] == heap[parent];
        SiftUp(moved, parent, key)
  }

  /** PriorityQueue.add: the array afterwards holds the old entries and the new one. */
  function HeapOffer(heap: seq<Entry>, e: Entry): (r: seq<Entry>)
    ensures multiset(r) == multiset(heap) + multiset{e}
    ensures |r| == |heap| + 1
  {
    var grown := heap + [e];
    assert grown[|heap|] == e;
    assert multiset(grown) == multiset(heap) + multiset{e};
    SiftUp(grown, |heap|, e)
  }

  /**
   * Handlers of priority NORMAL, HIGH and HIGHER registered in that order
   * are iterated HIGHER, NORMAL, HIGH: the heap array is not in priority
   * order, so the NORMAL handler runs before the HIGH one.
   */
  lemma HeapIterationOutOfOrder(o: Receiver, m: Method)
    ensures var normal, high, higher := Entry(o, m, NORMAL, false), Entry(o, m, HIGH, false), Entry(o, m, HIGHER, false);
            var heap := HeapOffer(HeapOffer(HeapOffer([], normal), high), higher);
            && heap == [higher, normal, high]
            && !Sorted(heap)
  {
    var normal, high, higher := Entry(o, m, NORMAL, false), Entry(o, m, HIGH, false), Entry(o, m, HIGHER, false);
    ThreeOffers(normal, high, higher);
    var h3 := [higher, normal, high];
    assert h3[1].priority < h3[2].priority;
  }

  /** Three offers of rising priority: each new entry moves up to the root, displacing the old root to the end. */
  lemma ThreeOffers(a: Entry, b: Entry, c: Entry)
    requires a.priority < b.priority < c.priority
    requires IsInt32(a.priority - b.priority) && IsInt32(b.priority - c.priority)
    ensures HeapOffer(HeapOffer(HeapOffer([], a), b), c) == [c, a, b]
  {
    OfferEmpty(a);
    OfferOne(a, b);
    OfferTwo(b, a, c);
  }

  lemma OfferOne(x: Entry, e: Entry)
    requires IsInt32(x.priority - e.priority) && e.priority > x.priority
    ensures HeapOffer([x], e) == [e, x]
  {
    OfferBelow([x], e);
    assert [e] + [x][1..] + [[x][0]] == [e, x];
  }

  lemma OfferTwo(x: Entry, y: Entry, e: Entry)
    requires IsInt32(x.priority - e.priority) && e.priority > x.priority
    ensures HeapOffer([x, y], e) == [e, y, x]
  {
    OfferBelow([x, y], e);
    assert [e] + [x, y][1..] + [[x, y][0]] == [e, y, x];
  }

  lemma OfferEmpty(e: Entry)
    ensures HeapOffer([], e) == [e]
  {
    assert [] + [e] == [e];
  }

  /** Offering an entry of higher priority than the root of a one- or two-entry heap. */
  lemma OfferBelow(heap: seq<Entry>, e: Entry)
    requires 1 <= |heap| <= 2 && IsInt32(heap[0].priority - e.priority) && e.priority > heap[0].priority
    ensures HeapOffer(heap, e) == [e] + heap[1..] + [heap[0]]
  {
    var grown := heap + [e];
    var k := |heap|;
    assert grown[0] == heap[0];
    RootSwap(grown, k, e);
    var swapped := grown[k := grown[0]][0 := e];
    assert swapped == [e] + heap[1..] + [heap[0]] by {
      assert |swapped| == k + 1;
      forall i | 0 <= i <= k
        ensures swapped[i] == ([e] + heap[1..] + [heap[0]])[i]
      {
      }
    }
  }

  /** An entry one step below the root that compares below it moves up to the root. */
  lemma RootSwap(heap: seq<Entry>, k: nat, key: Entry)
    requires 1 <= k <= 2 && k < |heap|
    requires IsInt32(heap[0].priority - key.priority) && key.priority > heap[0].priority
    ensures SiftUp(heap, k, key) == heap[k := heap[0]][0 := key]
  {
    assert (k - 1) / 2 == 0;
    assert CompareToAsWritten(key, heap[0]) < 0;
  }

  /** The intended queue: three entries of rising priority end up highest first. */
  lemma SortedInserts(a: Entry, b: Entry, c: Entry)
    requires a.priority < b.priority < c.priority
    ensures InsertSorted(InsertSorted(InsertSorted([], a), b), c) == [c, b, a]
  {
    assert InsertSorted([], a) == [a];
    assert InsertSorted([a], b) == [b, a];
  }

  /** EventQueueDefinition: the event class it serves and its entries. */
  datatype QueueDef = QueueDef(eventType: Kind, queue: seq<Entry>)

  /**
   * The entries the delivery loop notifies as written: each entry in order,
   * stopping after one whose notify throws a veto, which never happens.
   */
  function DeliverAsWritten(q: seq<Entry>, run: Entry -> HandlerResult): (t: seq<Entry>)
    ensures |t| <= |q|
  {
    if q == [] then []
    else if Notify(run(q[0])) == VetoRaised then [q[0]]
    else [q[0]] + DeliverAsWritten(q[1..], run)
  }

  /** As written, a push notifies the whole queue in order, whatever the handlers do. */
  lemma {:induction false} AsWrittenNotifiesAll(q: seq<Entry>, run: Entry -> HandlerResult)
    ensures DeliverAsWritten(q, run) == q
  {
    if q != [] {
      NotifyNeverVetoes(run(q[0]));
      AsWrittenNotifiesAll(q[1..], run);
    }
  }

  /**
   * The entries a push is documented to notify: the whole queue in order,
   * skipping everything after the first entry that vetoes. A handler that
   * fails does not stop delivery.
   */
  function Deliver(q: seq<Entry>, run: Entry -> HandlerResult): (t: seq<Entry>)
    ensures |t| <= |q|
  {
    if q == [] then []
    else if NotifyIntended(run(q[0])) == VetoRaised then [q[0]]
    else [q[0]] + Deliver(q[1..], run)
  }

  /** The documented priority push: only entries of at least the given priority. */
  function AtLeast(q: seq<Entry>, min: int): (r: seq<Entry>)
    ensures |r| <= |q|
    ensures forall i :: 0 <= i < |r| ==> r[i].priority >= min
  {
    if q == [] then []
    else if q[0].priority >= min then [q[0]] + AtLeast(q[1..], min)
    else AtLeast(q[1..], min)
  }

  lemma AtLeastStep(q: seq<Entry>, i: nat, min: int)
    requires i < |q|
    ensures AtLeast(q[i..], min)
         == (if q[i].priority >= min then [q[i]] else []) + AtLeast(q[i + 1..], min)
  {
    assert q[i..][0] == q[i] && q[i..][1..] == q[i + 1..];
  }

  /** Entries whose receiver is not the given object. */
  function Without(q: seq<Entry>, o: Receiver): (r: seq<Entry>)
    ensures |r| <= |q|
    ensures forall i :: 0 <= i < |r| ==> r[i].receiver != o
  {
    if q == [] then []
    else if q[0].receiver == o then Without(q[1..], o)
    else [q[0]] + Without(q[1..], o)
  }

  /** Removing a receiver's entries keeps every other entry, as often as it occurred. */
  lemma {:induction false} WithoutKeepsOthers(q: seq<Entry>, o: Receiver, e: Entry)
    requires e.receiver != o
    ensures multiset(Without(q, o))[e] == multiset(q)[e]
  {
    if q != [] {
      WithoutKeepsOthers(q[1..], o, e);
      assert q == [q[0]] + q[1..];
    }
  }

  /** EventQueueDefinition.push: the loop over the queue that breaks when notify throws a veto. */
  method PushQueue(d: QueueDef, run: Entry -> HandlerResult) returns (trace: seq<Entry>)
    ensures trace == DeliverAsWritten(d.queue, run)
  {
    var q := d.queue;
    trace := [];
    var i := 0;
    while i < |q|
      invariant 0 <= i <= |q|
      invariant DeliverAsWritten(q, run) == trace + DeliverAsWritten(q[i..], run)
    {
      var e := q[i];
      assert q[i..][0] == e && q[i..][1..] == q[i + 1..];
      trace := trace + [e];
      if Notify(run(e)) == VetoRaised {
        break;
      }
      i := i + 1;
    }
  }

  lemma DeliverAsWrittenStep(q: seq<Entry>, run: Entry -> HandlerResult)
    requires q != []
    ensures DeliverAsWritten(q, run)
         == if Notify(run(q[0])) == VetoRaised then [q[0]] else [q[0]] + DeliverAsWritten(q[1..], run)
  {
  }

  /** The priority overload of push: entries below the minimum are skipped. */
  method PushQueueAtLeast(d: QueueDef, min: int, run: Entry -> HandlerResult) returns (trace: seq<Entry>)
    ensures trace == DeliverAsWritten(AtLeast(d.queue, min), run)
  {
    var q := d.queue;
    trace := [];
    var i := 0;
    while i < |q|
      invariant 0 <= i <= |q|
      invariant DeliverAsWritten(AtLeast(q, min), run) == trace + DeliverAsWritten(AtLeast(q[i..], min), run)
    {
      var e := q[i];
      AtLeastStep(q, i, min);
      if e.priority >= min {
        DeliverAsWrittenStep(AtLeast(q[i..], min), run);
        trace := trace + [e];
        if Notify(run(e)) == VetoRaised {
          break;
        }
      }
      i := i + 1;
    }
  }

  /**
   * As written, the veto the documentation promises is lost: a queue whose
   * first handler vetoes still notifies every later handler, where the
   * documented delivery stops after the first.
   */
  lemma VetoSwallowed(q: seq<Entry>, run: Entry -> HandlerResult)
    requires |q| >= 2 && run(q[0]) == Vetoed
    ensures DeliverAsWritten(q, run) == q
    ensures Deliver(q, run) == [q[0]]
  {
    AsWrittenNotifiesAll(q, run);
  }

  /** As written and as documented, delivery agrees exactly when no entry before the last vetoes. */
  lemma AsWrittenAgrees(q: seq<Entry>, run: Entry -> HandlerResult)
    ensures DeliverAsWritten(q, run) == Deliver(q, run) <==> forall i :: 0 <= i < |q| - 1 ==> run(q[i]) != Vetoed
  {
    AsWrittenNotifiesAll(q, run);
    DeliverPrefix(q, run);
    if forall i :: 0 <= i < |q| - 1 ==> run(q[i]) != Vetoed {
      DeliverUnique(q, run, |q|);
      assert q[..|q|] == q;
    }
  }

  // -------------------------------------------------- delivery properties

  /** Delivery notifies a prefix of the queue: exactly up to the first veto, or all of it. */
  lemma {:induction false} DeliverPrefix(q: seq<Entry>, run: Entry -> HandlerResult)
    ensures var t := Deliver(q, run);
      && t == q[..|t|]
      && (forall i :: 0 <= i < |t| - 1 ==> run(t[i]) != Vetoed)
      && (|t| == |q| || (|t| > 0 && run(t[|t| - 1]) == Vetoed))
      && (q != [] ==> |t| > 0)
  {
    if q != [] && run(q[0]) != Vetoed {
      DeliverPrefix(q[1..], run);
    }
  }

  /** The converse: any prefix with those properties is what delivery notifies. */
  lemma {:induction false} DeliverUnique(q: seq<Entry>, run: Entry -> HandlerResult, n: nat)
    requires n <= |q|
    requires forall i :: 0 <= i < n - 1 ==> run(q[i]) != Vetoed
    requires n == |q| || (n > 0 && run(q[n - 1]) == Vetoed)
    ensures Deliver(q, run) == q[..n]
  {
    if q != [] {
      if run(q[0]) == Vetoed {
        assert n == 1;
      } else {
        DeliverUnique(q[1..], run, n - 1);
        assert q[..n] == [q[0]] + q[1..][..n - 1];
      }
    }
  }

  /** Without a veto every entry is notified, failures included. */
  lemma NoVetoDeliversAll(q: seq<Entry>, run: Entry -> HandlerResult)
    requires forall i :: 0 <= i < |q| ==> run(q[i]) != Vetoed
    ensures Deliver(q, run) == q
  {
    DeliverUnique(q, run, |q|);
    assert q[..|q|] == q;
  }

  /** A veto at position k stops delivery there, even for entries that are not vetoable. */
  lemma VetoStops(q: seq<Entry>, run: Entry -> HandlerResult, k: nat)
    requires k < |q| && run(q[k]) == Vetoed
    requires forall i :: 0 <= i < k ==> run(q[i]) != Vetoed
    ensures Deliver(q, run) == q[..k + 1]
  {
    DeliverUnique(q, run, k + 1);
  }

  /** Higher-priority entries are notified before lower-priority ones. */
  lemma DeliverInPriorityOrder(q: seq<Entry>, run: Entry -> HandlerResult)
    requires Sorted(q)
    ensures Sorted(Deliver(q, run))
    ensures multiset(Deliver(q, run)) <= multiset(q)
  {
    DeliverPrefix(q, run);
    var t := Deliver(q, run);
    assert q == q[..|t|] + q[|t|..];
  }

  /** If an entry is notified, every entry of strictly higher priority was notified before it. */
  lemma HigherNotifiedFirst(q: seq<Entry>, run: Entry -> HandlerResult, i: nat, j: nat)
    requires Sorted(q)
    requires i < |Deliver(q, run)|
    requires j < |q| && q[j].priority > q[i].priority
    ensures j < i
  {
    DeliverPrefix(q, run);
  }

  /** In a sorted queue the entries of at least some priority form a prefix. */
  lemma {:induction false} AtLeastIsPrefix(q: seq<Entry>, min: int)
    requires Sorted(q)
    ensures AtLeast(q, min) == q[..|AtLeast(q, min)|]
    ensures forall i :: |AtLeast(q, min)| <= i < |q| ==> q[i].priority < min
  {
    if q != [] {
      AtLeastIsPrefix(q[1..], min);
    }
  }

  /** Removing a receiver's entries keeps the queue in priority order. */
  lemma {:induction false} WithoutSorted(q: seq<Entry>, o: Receiver)
    requires Sorted(q)
    ensures Sorted(Without(q, o))
    ensures forall x :: x in Without(q, o) ==> x in q
  {
    if q != [] {
      var tail := q[1..];
      assert Sorted(tail);
      WithoutSorted(tail, o);
      var rest := Without(tail, o);
      assert q == [q[0]] + tail;
      if q[0].receiver != o {
        var r := [q[0]] + rest;
        forall i, j | 0 <= i < j < |r| ensures r[i].priority >= r[j].priority {
          if i == 0 {
            assert r[j] in tail;
          } else {
            assert r[i] == rest[i - 1] && r[j] == rest[j - 1];
          }
        }
      }
    }
  }
}
