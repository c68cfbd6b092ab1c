/**
 * The client's `Array.prototype.remove(from, to)` helper: it slices off the
 * tail after the removed range, sets the array's length to `from` (counted
 * from the end when negative), and pushes the tail back. JavaScript arrays
 * are modelled as sequences of slots; a slot that was never written is a
 * hole and reads as undefined.
 */
module JsArrays {
  import opened Wrappers

  datatype RangeError = InvalidArrayLength

  /** k holes. */
  function Holes<T>(k: nat): (r: seq<Option<T>>)
    ensures |r| == k && forall i :: 0 <= i < k ==> r[i] == None
  {
    seq(k, _ => None)
  }

  /** The start index `slice(k)` uses: a negative k counts from the end; both are clamped to 0..n. */
  function SliceStart(k: int, n: nat): (s: nat)
    ensures s <= n
    ensures 0 <= k <= n ==> s == k
    ensures k < 0 && n + k >= 0 ==> s == n + k
  {
    if k < 0 then (if n + k < 0 then 0 else n + k)
    else if k > n then n
    else k
  }

  /** Assigning `length`: truncates, or extends with holes. */
  function SetLength<T>(a: seq<Option<T>>, len: nat): (r: seq<Option<T>>)
    ensures |r| == len
    ensures forall i :: 0 <= i < len && i < |a| ==> r[i] == a[i]
    ensures forall i :: |a| <= i < len ==> r[i] == None
  {
    if len <= |a| then a[..len] else a + Holes(len - |a|)
  }

  /** The largest length a JavaScript array can have, 2^32 - 1. */
  const MaxLength: nat := 0xFFFF_FFFF

  /**
   * What remove(from, to) leaves behind: the array's slots, and the
   * RangeError it throws, if any.
   */
  datatype Removal<T> = Removal(elements: seq<Option<T>>, error: Option<RangeError>)

  /**
   * The tail `slice` cuts off. A `to` of 0 or undefined is falsy, so it
   * falls back to `from`; `last + 1` of 0 is falsy too and falls back to
   * the length.
   */
  function Rest<T>(a: seq<Option<T>>, from: int, to: int): (r: seq<Option<T>>)
    ensures |r| <= |a|
  {
    var last := if to != 0 then to else from;
    a[SliceStart(if last + 1 != 0 then last + 1 else |a|, |a|)..]
  }

  /** The value assigned to `length`: `from`, counted from the end when negative. */
  function NewLength(n: nat, from: int): int
  {
    if from < 0 then n + from else from
  }

  /**
   * The outcome of remove(from, to). A new length outside 0 .. 2^32 - 1
   * makes the `length` assignment throw a RangeError before anything is
   * changed. Otherwise the array is cut to the new length and the tail is
   * pushed back; `push` writes the slots up to index 2^32 - 2 and then
   * throws a RangeError when the final length would exceed 2^32 - 1.
   */
  function Removed<T>(a: seq<Option<T>>, from: int, to: int): Removal<T>
  {
    var len := NewLength(|a|, from);
    if len < 0 || len > MaxLength then Removal(a, Some(InvalidArrayLength))
    else
      var pushed := SetLength(a, len) + Rest(a, from, to);
      if |pushed| > MaxLength then Removal(pushed[..MaxLength], Some(InvalidArrayLength))
      else Removal(pushed, None)
  }

  /** A JavaScript array whose elements remove() rewrites in place. */
  class JsArray<T> {
    var elements: seq<Option<T>>

    constructor(elements: seq<Option<T>>)
      ensures this.elements == elements
    {
      this.elements := elements;
    }

    /** remove(from, to): returns what push returns, the new length, unless a RangeError is thrown. */
    method Remove(from: int, to: int) returns (r: Result<nat, RangeError>)
      modifies this
      ensures elements == Removed(old(elements), from, to).elements
      ensures Removed(old(elements), from, to).error.Some? ==> r == Err(InvalidArrayLength)
      ensures Removed(old(elements), from, to).error.None? ==> r == Ok(|elements|)
    {
      var last := if to != 0 then to else from;
      var rest := elements[SliceStart(if last + 1 != 0 then last + 1 else |elements|, |elements|)..];
      var len := if from < 0 then |elements| + from else from;
      if len < 0 || len > MaxLength {
        return Err(InvalidArrayLength);
      }
      elements := SetLength(elements, len);
      if |elements| + |rest| > MaxLength {
        elements := (elements + rest)[..MaxLength];
        return Err(InvalidArrayLength);
      }
      elements := elements + rest;
      r := Ok(|elements|);
    }
  }

  /** remove(i) deletes element i and keeps the others in order. */
  lemma RemoveAt<T>(a: seq<Option<T>>, i: int)
    requires 0 <= i < |a| <= MaxLength
    ensures Removed(a, i, 0) == Removal(a[..i] + a[i + 1..], None)
  {
  }

  /** remove(i, j) with i <= j deletes elements i through j inclusive. */
  lemma RemoveRange<T>(a: seq<Option<T>>, i: int, j: int)
    requires 0 <= i <= j < |a| <= MaxLength
    ensures Removed(a, i, j) == Removal(a[..i] + a[j + 1..], None)
    ensures |Removed(a, i, j).elements| == |a| - (j - i + 1)
  {
  }

  /** remove(-m) deletes the m-th element from the end. */
  lemma RemoveFromEnd<T>(a: seq<Option<T>>, m: int)
    requires 1 <= m <= |a| <= MaxLength
    ensures Removed(a, -m, 0) == Removal(a[..|a| - m] + a[|a| - m + 1..], None)
  {
    assert a[|a|..] == [];
  }

  /** remove(-1) drops the last element. */
  lemma RemoveLast<T>(a: seq<Option<T>>)
    requires 0 < |a| <= MaxLength
    ensures Removed(a, -1, 0) == Removal(a[..|a| - 1], None)
  {
    RemoveFromEnd(a, 1);
    assert a[|a| - 1 + 1..] == [];
    assert a[..|a| - 1] + [] == a[..|a| - 1];
  }

  /** A `to` of 0 behaves as if `to` were `from`. */
  lemma ZeroToIsAbsent<T>(a: seq<Option<T>>, from: int)
    ensures Removed(a, from, 0) == Removed(a, from, from)
  {
  }

  /**
   * remove throws exactly when the new length is outside 0 .. 2^32 - 1 (a
   * negative `from` reaching past the start, or a `from` above 2^32 - 1),
   * which leaves the array as it was, or when the pushed tail would take
   * the length past 2^32 - 1.
   */
  lemma RemoveThrows<T>(a: seq<Option<T>>, from: int, to: int)
    ensures Removed(a, from, to).error.Some?
      <==> from < -|a| || from > MaxLength || NewLength(|a|, from) + |Rest(a, from, to)| > MaxLength
    ensures from < -|a| || from > MaxLength ==> Removed(a, from, to) == Removal(a, Some(InvalidArrayLength))
  {
  }

  /**
   * The one-argument form on a JavaScript array throws exactly when the new
   * length is out of range: the pushed tail always fits.
   */
  lemma RemoveOneThrows<T>(a: seq<Option<T>>, from: int)
    requires |a| <= MaxLength
    ensures Removed(a, from, 0).error.Some? <==> from < -|a| || from > MaxLength
  {
    if -|a| <= from <= MaxLength {
      var len := NewLength(|a|, from);
      if from >= 0 {
        assert |Rest(a, from, 0)| <= if from + 1 <= |a| then |a| - (from + 1) else 0;
      } else {
        assert |Rest(a, from, 0)| <= -from - 1;
      }
      assert len + |Rest(a, from, 0)| <= MaxLength;
    }
  }

  /** remove(i) past the end, up to the largest length, removes nothing and pads the array with holes up to length i. */
  lemma RemovePastEnd<T>(a: seq<Option<T>>, i: int)
    requires |a| <= i <= MaxLength
    ensures Removed(a, i, 0) == Removal(a + Holes(i - |a|), None)
  {
    assert a[|a|..] == [];
    assert Rest(a, i, 0) == [];
    if i == |a| {
      assert Holes<T>(0) == [];
      assert a[..|a|] == a;
    } else {
      assert SetLength(a, i) == a + Holes(i - |a|);
      assert SetLength(a, i) + [] == SetLength(a, i);
    }
  }

  /**
   * A tail pushed past the largest length: the slots up to index 2^32 - 2
   * are written, and then the RangeError is thrown.
   */
  lemma RemovePushOverflows<T>(x: T, y: T, z: T)
    ensures Removed([Some(x), Some(y), Some(z)], MaxLength, 1)
      == Removal(SetLength([Some(x), Some(y), Some(z)], MaxLength), Some(InvalidArrayLength))
  {
    var a := [Some(x), Some(y), Some(z)];
    assert Rest(a, MaxLength, 1) == [Some(z)];
    assert (SetLength(a, MaxLength) + [Some(z)])[..MaxLength] == SetLength(a, MaxLength);
  }

  /**
   * With 0 < to < from, the elements between are pushed back a second time
   * instead of anything being deleted, when the longer array still fits.
   */
  lemma RemoveBackwards<T>(a: seq<Option<T>>, from: int, to: int)
    requires 0 < to < from < |a|
    requires |a| + (from - to - 1) <= MaxLength
    ensures Removed(a, from, to) == Removal(a[..from] + a[to + 1..], None)
    ensures |Removed(a, from, to).elements| == |a| + (from - to - 1)
  {
    assert SetLength(a, from) == a[..from];
    assert SliceStart(to + 1, |a|) == to + 1;
  }
}
