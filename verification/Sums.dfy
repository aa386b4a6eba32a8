/** Sums over sequences and over the values of a client-keyed dictionary. */
module Sums {
  import opened LiveRows
  import opened Ordering

  function Sum(s: seq<real>): real {
    if s == [] then 0.0 else Sum(s[..|s| - 1]) + s[|s| - 1]
  }

  function SumSquares(s: seq<real>): real {
    if s == [] then 0.0 else SumSquares(s[..|s| - 1]) + Square(s[|s| - 1])
  }

  function Div(a: real, b: real): real
    requires b != 0.0
  {
    a / b
  }

  function Mul(a: real, b: real): real {
    a * b
  }

  lemma {:induction false} MulPositive(a: real, b: real)
    requires a > 0.0 && b > 0.0
    ensures Mul(a, b) > 0.0
  {}

  function Square(d: real): (r: real)
    ensures r >= 0.0 && (d != 0.0 ==> r > 0.0) && r == d * d
  {
    if d > 0.0 then MulPositive(d, d); Mul(d, d)
    else if d < 0.0 then MulPositive(-d, -d); Mul(-d, -d)
    else 0.0
  }

  /** Sum of squared distances to `x`. */
  function Deviation(s: seq<real>, x: real): (r: real)
    ensures r >= 0.0
  {
    if s == [] then 0.0
    else Deviation(s[..|s| - 1], x) + Square(s[|s| - 1] - x)
  }

  ghost function Expansion(squares: real, sum: real, n: real, x: real): real {
    squares - 2.0 * x * sum + n * (x * x)
  }

  lemma {:induction false} ExpansionStep(squares: real, sum: real, n: real, x: real, y: real)
    ensures Expansion(squares, sum, n, x) + Square(y - x)
            == Expansion(squares + Square(y), sum + y, n + 1.0, x)
  {
    assert (y - x) * (y - x) == y * y - 2.0 * x * y + x * x;
  }

  lemma {:induction false} DeviationExpands(s: seq<real>, x: real)
    ensures Deviation(s, x) == Expansion(SumSquares(s), Sum(s), |s| as real, x)
  {
    if s != [] {
      var n := |s| - 1;
      DeviationExpands(s[..n], x);
      ExpansionStep(SumSquares(s[..n]), Sum(s[..n]), n as real, x, s[n]);
    }
  }

  lemma {:induction false} DeviationZero(s: seq<real>, x: real)
    ensures Deviation(s, x) == 0.0 <==> AllAre(s, x)
  {
    if s != [] {
      var n := |s| - 1;
      DeviationZero(s[..n], x);
      assert Deviation(s, x) == 0.0 <==> Deviation(s[..n], x) == 0.0 && s[n] == x;
      AllAreStep(s, x);
    }
  }

  ghost predicate AllAre(s: seq<real>, x: real) {
    forall i :: 0 <= i < |s| ==> s[i] == x
  }

  lemma {:induction false} AllAreStep(s: seq<real>, x: real)
    requires s != []
    ensures AllAre(s, x) <==> AllAre(s[..|s| - 1], x) && s[|s| - 1] == x
  {
    var n := |s| - 1;
    assert s == s[..n] + [s[n]];
  }

  /** Total of a dictionary of counters. */
  ghost function Tally(m: map<ClientId, int>): int
    decreases m.Keys
  {
    if m == map[] then 0
    else
      var k :| k in m;
      m[k] + Tally(m - {k})
  }

  /** The total does not depend on which entry is taken first. */
  lemma {:induction false} TallyTake(m: map<ClientId, int>, k: ClientId)
    requires k in m
    ensures Tally(m) == m[k] + Tally(m - {k})
    decreases m.Keys
  {
    var first :| first in m && Tally(m) == m[first] + Tally(m - {first});
    if first != k {
      WithoutBoth(m, first, k);
      TallyTake(m - {first}, k);
      TallyTake(m - {k}, first);
    }
  }

  /** Counting one more for every client of a set adds the set's size to the total. */
  lemma {:induction false} TallyCount(m: map<ClientId, int>, r: map<ClientId, int>, counted: set<ClientId>)
    requires m.Keys == r.Keys && counted <= m.Keys
    requires forall c :: c in m ==> r[c] == m[c] + if c in counted then 1 else 0
    ensures Tally(r) == Tally(m) + |counted|
    decreases m.Keys
  {
    if m.Keys == {} {
      assert m == map[] && r == map[];
    } else {
      var k :| k in m;
      TallyTake(m, k);
      TallyTake(r, k);
      TallyCount(m - {k}, r - {k}, counted - {k});
      assert |counted| == |counted - {k}| + if k in counted then 1 else 0;
    }
  }

  /** The values of a dictionary, with repetitions. */
  ghost function Bag(m: map<ClientId, real>): multiset<real>
    decreases m.Keys
  {
    if m == map[] then multiset{}
    else
      var k :| k in m;
      multiset{m[k]} + Bag(m - {k})
  }

  function One(x: real, y: real): nat {
    if x == y then 1 else 0
  }

  lemma {:induction false} WithoutBoth<V>(m: map<ClientId, V>, a: ClientId, b: ClientId)
    requires a in m && b in m && a != b
    ensures b in m - {a} && (m - {a})[b] == m[b] && a in m - {b} && (m - {b})[a] == m[a]
    ensures m - {a} - {b} == m - {b} - {a}
  {}

  lemma {:induction false} BagFirst(m: map<ClientId, real>, x: real) returns (k: ClientId)
    requires m.Keys != {}
    ensures k in m && Bag(m)[x] == Bag(m - {k})[x] + One(x, m[k])
  {
    k :| k in m && Bag(m) == multiset{m[k]} + Bag(m - {k});
  }

  lemma {:induction false} BagCount(m: map<ClientId, real>, k: ClientId, x: real)
    requires k in m
    ensures Bag(m)[x] == Bag(m - {k})[x] + One(x, m[k])
    decreases m.Keys
  {
    var first := BagFirst(m, x);
    if first != k {
      WithoutBoth(m, first, k);
      BagCount(m - {first}, k, x);
      BagCount(m - {k}, first, x);
    }
  }

  lemma {:induction false} BagTake(m: map<ClientId, real>, k: ClientId)
    requires k in m
    ensures Bag(m) == multiset{m[k]} + Bag(m - {k})
  {
    forall x
      ensures Bag(m)[x] == (multiset{m[k]} + Bag(m - {k}))[x]
    {
      BagCount(m, k, x);
    }
  }

  lemma {:induction false} BagMember(m: map<ClientId, real>, x: real)
    requires x in Bag(m)
    ensures exists c :: c in m && m[c] == x
    decreases m.Keys
  {
    var k :| k in m && Bag(m) == multiset{m[k]} + Bag(m - {k});
    if x != m[k] {
      BagMember(m - {k}, x);
      var c :| c in m - {k} && (m - {k})[c] == x;
      assert c in m && m[c] == x;
    }
  }

  /** `sorted(m.values())`. */
  ghost function SortedValues(m: map<ClientId, real>): (r: seq<real>)
    ensures Ascending(r)
    decreases m.Keys
  {
    if m == map[] then []
    else
      var k :| k in m;
      Insert(SortedValues(m - {k}), m[k])
  }

  lemma {:induction false} SortedFirst(m: map<ClientId, real>) returns (k: ClientId)
    requires m.Keys != {}
    ensures k in m && SortedValues(m) == Insert(SortedValues(m - {k}), m[k])
  {
    k :| k in m && SortedValues(m) == Insert(SortedValues(m - {k}), m[k]);
  }

  lemma {:induction false} SortedBag(m: map<ClientId, real>)
    ensures multiset(SortedValues(m)) == Bag(m) && |SortedValues(m)| == |m|
    decreases m.Keys
  {
    if m.Keys != {} {
      var k := SortedFirst(m);
      SortedBag(m - {k});
      BagTake(m, k);
      assert (m - {k}).Keys == m.Keys - {k};
    } else {
      assert m == map[];
    }
  }

  method SortValues(m: map<ClientId, real>) returns (r: seq<real>)
    ensures r == SortedValues(m)
  {
    var todo := m;
    r := [];
    while todo.Keys != {}
      invariant Ascending(r) && multiset(r) + Bag(todo) == Bag(m)
      decreases todo.Keys
    {
      var k :| k in todo.Keys;
      BagTake(todo, k);
      r := Insert(r, todo[k]);
      todo := todo - {k};
    }
    assert todo == map[];
    SortedBag(m);
    AscendingUnique(r, SortedValues(m));
  }
}
