/** Python's `sorted` with a key: stable insertion under a total preorder. */
module StableSort {

  ghost predicate Preorder<T(!new)>(le: (T, T) -> bool) {
    && (forall a, b :: le(a, b) || le(b, a))
    && (forall a, b, c :: le(a, b) && le(b, c) ==> le(a, c))
  }

  ghost predicate Ordered<T>(s: seq<T>, le: (T, T) -> bool) {
    forall i, j :: 0 <= i < j < |s| ==> le(s[i], s[j])
  }

  ghost predicate Distinct<T>(s: seq<T>) {
    forall i, j :: 0 <= i < j < |s| ==> s[i] != s[j]
  }

  ghost predicate Within<T>(s: seq<T>, t: seq<T>) {
    forall x :: x in s ==> x in t
  }

  /** `x` goes after every element that is not greater. */
  function InsertInto<T>(s: seq<T>, x: T, le: (T, T) -> bool): (r: seq<T>) {
    if s == [] || le(s[|s| - 1], x) then s + [x]
    else InsertInto(s[..|s| - 1], x, le) + [s[|s| - 1]]
  }

  function SortBy<T>(s: seq<T>, le: (T, T) -> bool): (r: seq<T>) {
    if s == [] then [] else InsertInto(SortBy(s[..|s| - 1], le), s[|s| - 1], le)
  }

  lemma {:induction false} InsertPermutes<T>(s: seq<T>, x: T, le: (T, T) -> bool)
    ensures multiset(InsertInto(s, x, le)) == multiset(s) + multiset{x}
  {
    if s != [] && !le(s[|s| - 1], x) {
      InsertPermutes(s[..|s| - 1], x, le);
      assert s == s[..|s| - 1] + [s[|s| - 1]];
    }
  }

  lemma {:induction false} SortPermutes<T>(s: seq<T>, le: (T, T) -> bool)
    ensures multiset(SortBy(s, le)) == multiset(s) && |SortBy(s, le)| == |s|
  {
    if s != [] {
      SortPermutes(s[..|s| - 1], le);
      InsertPermutes(SortBy(s[..|s| - 1], le), s[|s| - 1], le);
      assert s == s[..|s| - 1] + [s[|s| - 1]];
    }
    assert |multiset(SortBy(s, le))| == |SortBy(s, le)|;
  }

  lemma {:induction false} InsertOrdered<T(!new)>(s: seq<T>, x: T, le: (T, T) -> bool)
    requires Preorder(le) && Ordered(s, le)
    ensures Ordered(InsertInto(s, x, le), le)
  {
    if s != [] && !le(s[|s| - 1], x) {
      var front, last := s[..|s| - 1], s[|s| - 1];
      InsertOrdered(front, x, le);
      InsertPermutes(front, x, le);
      var r := InsertInto(front, x, le);
      forall i | 0 <= i < |r|
        ensures le(r[i], last)
      {
        assert r[i] in multiset(front) + multiset{x};
        if r[i] != x {
          assert r[i] in front;
        }
      }
    }
  }

  lemma {:induction false} SortOrders<T(!new)>(s: seq<T>, le: (T, T) -> bool)
    requires Preorder(le)
    ensures Ordered(SortBy(s, le), le)
  {
    if s != [] {
      SortOrders(s[..|s| - 1], le);
      InsertOrdered(SortBy(s[..|s| - 1], le), s[|s| - 1], le);
    }
  }

  lemma {:induction false} OrderedFront<T>(s: seq<T>, le: (T, T) -> bool)
    requires Ordered(s, le) && s != []
    ensures Ordered(s[..|s| - 1], le) && (|s| > 1 ==> le(s[..|s| - 1][|s| - 2], s[|s| - 1]))
  {}

  lemma {:induction false} AppendLast<T>(s: seq<T>, x: T, le: (T, T) -> bool)
    requires s != [] ==> le(s[|s| - 1], x)
    ensures InsertInto(s, x, le) == s + [x]
  {}

  /** Sorting what is already in order changes nothing. */
  lemma {:induction false} SortKeepsOrdered<T>(s: seq<T>, le: (T, T) -> bool)
    requires Ordered(s, le)
    ensures SortBy(s, le) == s
  {
    if s != [] {
      var front, last := s[..|s| - 1], s[|s| - 1];
      OrderedFront(s, le);
      SortKeepsOrdered(front, le);
      AppendLast(front, last, le);
      assert s == front + [last];
    }
  }

  // ----- elements that occur once -----

  lemma {:induction false} DistinctCount<T>(s: seq<T>, x: T)
    requires Distinct(s)
    ensures multiset(s)[x] <= 1
  {
    if s != [] {
      var n := |s| - 1;
      assert s == s[..n] + [s[n]];
      DistinctCount(s[..n], x);
      if x == s[n] {
        assert x !in s[..n];
      }
    }
  }

  lemma {:induction false} SeenTwice<T>(s: seq<T>, i: nat, j: nat)
    requires i < j < |s|
    ensures s[i] == s[j] ==> multiset(s)[s[i]] >= 2
  {
    assert s == s[..j] + s[j..];
    assert s[..j][i] in multiset(s[..j]) && s[j..][0] in multiset(s[j..]);
  }

  lemma {:induction false} CountDistinct<T(!new)>(s: seq<T>)
    requires forall x :: multiset(s)[x] <= 1
    ensures Distinct(s)
  {
    forall i, j | 0 <= i < j < |s|
      ensures s[i] != s[j]
    {
      SeenTwice(s, i, j);
    }
  }

  /** A rearrangement of distinct elements is distinct. */
  lemma {:induction false} DistinctPermuted<T(!new)>(s: seq<T>, t: seq<T>)
    requires Distinct(s) && multiset(s) == multiset(t)
    ensures Distinct(t) && Within(s, t) && Within(t, s)
  {
    forall x
      ensures multiset(t)[x] <= 1 && (x in s <==> x in t)
    {
      DistinctCount(s, x);
      assert x in s <==> x in multiset(s);
      assert x in t <==> x in multiset(t);
    }
    CountDistinct(t);
  }

  /** Sorting distinct elements keeps them all, once each. */
  lemma {:induction false} SortDistinct<T(!new)>(s: seq<T>, le: (T, T) -> bool)
    requires Distinct(s)
    ensures var r := SortBy(s, le);
            |r| == |s| && Distinct(r) && Within(s, r) && Within(r, s)
  {
    SortPermutes(s, le);
    DistinctPermuted(s, SortBy(s, le));
  }

  // ----- stability -----

  /** The elements that sort neither before nor after `x`, in their order. */
  ghost function Ties<T>(s: seq<T>, x: T, le: (T, T) -> bool): seq<T> {
    if s == [] then []
    else
      var last := s[|s| - 1];
      Ties(s[..|s| - 1], x, le) + if le(last, x) && le(x, last) then [last] else []
  }

  lemma {:induction false} TiesAppend<T>(s: seq<T>, y: T, x: T, le: (T, T) -> bool)
    ensures Ties(s + [y], x, le) == Ties(s, x, le) + if le(y, x) && le(x, y) then [y] else []
  {
    assert (s + [y])[..|s|] == s;
  }

  lemma {:induction false} InsertStable<T(!new)>(s: seq<T>, y: T, x: T, le: (T, T) -> bool)
    requires Preorder(le) && Ordered(s, le)
    ensures Ties(InsertInto(s, y, le), x, le) == Ties(s + [y], x, le)
  {
    if s != [] && !le(s[|s| - 1], y) {
      var front, last := s[..|s| - 1], s[|s| - 1];
      InsertStable(front, y, x, le);
      assert s == front + [last];
      TiesAppend(InsertInto(front, y, le), last, x, le);
      TiesAppend(front, y, x, le);
      TiesAppend(front, last, x, le);
      TiesAppend(s, y, x, le);
    }
  }

  /** Elements with equal keys keep their order. */
  lemma {:induction false} SortStable<T(!new)>(s: seq<T>, x: T, le: (T, T) -> bool)
    requires Preorder(le)
    ensures Ties(SortBy(s, le), x, le) == Ties(s, x, le)
  {
    if s != [] {
      var front, last := s[..|s| - 1], s[|s| - 1];
      SortStable(front, x, le);
      SortOrders(front, le);
      InsertStable(SortBy(front, le), last, x, le);
      TiesAppend(SortBy(front, le), last, x, le);
    }
  }
}
