/** List operations the Java collections provide: first-occurrence lookup and removal. */
module Lists {
  /** indexOf: the position of the first occurrence. */
  function IndexOf<T(==)>(s: seq<T>, x: T): (i: nat)
    requires x in s
    ensures i < |s| && s[i] == x && x !in s[..i]
  {
    if s[0] == x then 0
    else
      var j := IndexOf(s[1..], x);
      assert s[1..][..j] == s[1..j + 1];
      1 + j
  }

  /** List.remove(Object): drops the first occurrence, if there is one. */
  function RemoveFirst<T(==)>(s: seq<T>, x: T): (r: seq<T>)
  {
    if x in s then s[..IndexOf(s, x)] + s[IndexOf(s, x) + 1..] else s
  }

  /** Removal takes away exactly one occurrence when there is one, and otherwise nothing. */
  lemma RemoveFirstCount<T>(s: seq<T>, x: T)
    ensures multiset(RemoveFirst(s, x)) == multiset(s) - multiset{x}
    ensures |RemoveFirst(s, x)| == if x in s then |s| - 1 else |s|
  {
    if x in s {
      var i := IndexOf(s, x);
      assert s == s[..i] + [x] + s[i + 1..];
      assert multiset(s) == multiset(s[..i]) + multiset{x} + multiset(s[i + 1..]);
    } else {
      assert multiset(s)[x] == 0;
    }
  }

  /** The elements before the removed one keep their positions; the ones after move up by one. */
  lemma RemoveFirstOrder<T>(s: seq<T>, x: T)
    requires x in s
    ensures forall k :: 0 <= k < IndexOf(s, x) ==> RemoveFirst(s, x)[k] == s[k]
    ensures forall k :: IndexOf(s, x) <= k < |s| - 1 ==> RemoveFirst(s, x)[k] == s[k + 1]
  {
    var i := IndexOf(s, x);
    SliceOut(s, i, RemoveFirst(s, x));
  }

  /** Cutting out position i keeps the elements before it and moves the rest up by one. */
  lemma SliceOut<T>(s: seq<T>, i: nat, r: seq<T>)
    requires i < |s| && r == s[..i] + s[i + 1..]
    ensures forall k :: 0 <= k < i ==> r[k] == s[k]
    ensures forall k :: i <= k < |s| - 1 ==> r[k] == s[k + 1]
  {
  }

  /** Multiset addition cancels. */
  lemma Cancel<T>(a: multiset<T>, b: multiset<T>, c: multiset<T>)
    requires a + c == b + c
    ensures a == b
  {
    forall x
      ensures a[x] == b[x]
    {
      assert (a + c)[x] == (b + c)[x];
    }
  }

  /** Two exchanges chain: when w + s == n + r and r + d == s + m, then w + d == n + m. */
  lemma Chain<T>(w: multiset<T>, s: multiset<T>, n: multiset<T>, r: multiset<T>, d: multiset<T>, m: multiset<T>)
    requires w + s == n + r && r + d == s + m
    ensures w + d == n + m
  {
    forall x
      ensures (w + d)[x] == (n + m)[x]
    {
      assert (w + s)[x] == (n + r)[x];
      assert (r + d)[x] == (s + m)[x];
    }
  }

  /** When w + o == n + s and s == o + i, then w == n + i. */
  lemma Absorb<T>(w: multiset<T>, o: multiset<T>, n: multiset<T>, s: multiset<T>, i: multiset<T>)
    requires w + o == n + s && s == o + i
    ensures w == n + i
  {
    forall x
      ensures w[x] == (n + i)[x]
    {
      assert (w + o)[x] == (n + s)[x];
    }
  }

  /** A sum of five multisets is empty exactly when each of them is. */
  lemma SumEmpty<T>(a: multiset<T>, b: multiset<T>, c: multiset<T>, d: multiset<T>, e: multiset<T>)
    ensures a + b + c + d + e == multiset{} <==>
      a == multiset{} && b == multiset{} && c == multiset{} && d == multiset{} && e == multiset{}
  {
    if a + b + c + d + e == multiset{} {
      forall x
        ensures a[x] == 0 && b[x] == 0 && c[x] == 0 && d[x] == 0 && e[x] == 0
      {
        assert (a + b + c + d + e)[x] == 0;
      }
    }
  }

  /** Parts bounded one by one bound their sum, whatever else the larger sum holds. */
  lemma Within<T>(a: multiset<T>, b: multiset<T>, c: multiset<T>, x: multiset<T>, y: multiset<T>, z: multiset<T>,
                  v: multiset<T>, w: multiset<T>)
    requires a <= x && b <= y && c <= z
    ensures a + b + c <= v + z + y + x + w
  {
    forall o
      ensures (a + b + c)[o] <= (v + z + y + x + w)[o]
    {
      assert a[o] <= x[o] && b[o] <= y[o] && c[o] <= z[o];
    }
  }

  /** When a + b == c + d and d + e == b, then a + e == c. */
  lemma Exchange<T>(a: multiset<T>, b: multiset<T>, c: multiset<T>, d: multiset<T>, e: multiset<T>)
    requires a + b == c + d && d + e == b
    ensures a + e == c
  {
    forall x
      ensures (a + e)[x] == c[x]
    {
      assert (a + b)[x] == (c + d)[x];
      assert (d + e)[x] == b[x];
    }
  }
}
