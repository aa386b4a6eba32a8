/** Sorted real sequences and the linearly interpolated percentile that every
    pass of the live analysis takes over them. */
module Ordering {

  ghost predicate Ascending(s: seq<real>) {
    forall i, j :: 0 <= i < j < |s| ==> s[i] <= s[j]
  }

  /** Python's `sorted` on numbers. */
  function Sort(s: seq<real>): (r: seq<real>)
    ensures Ascending(r) && multiset(r) == multiset(s) && |r| == |s|
  {
    if s == [] then []
    else
      assert s == s[..|s| - 1] + [s[|s| - 1]];
      Insert(Sort(s[..|s| - 1]), s[|s| - 1])
  }

  function Insert(s: seq<real>, x: real): (r: seq<real>)
    requires Ascending(s)
    ensures Ascending(r) && multiset(r) == multiset(s) + multiset{x} && |r| == |s| + 1
  {
    if s == [] || x <= s[0] then [x] + s
    else
      var rest := Insert(s[1..], x);
      Prepend(s, x, rest);
      [s[0]] + rest
  }

  lemma {:induction false} Prepend(s: seq<real>, x: real, rest: seq<real>)
    requires s != [] && Ascending(s) && s[0] <= x && Ascending(rest)
    requires multiset(rest) == multiset(s[1..]) + multiset{x} && |rest| == |s|
    ensures Ascending([s[0]] + rest) && multiset([s[0]] + rest) == multiset(s) + multiset{x}
  {
    assert s == [s[0]] + s[1..];
    forall i | 0 <= i < |rest|
      ensures s[0] <= rest[i]
    {
      assert rest[i] in multiset(s[1..]) + multiset{x};
      assert rest[i] == x || rest[i] in s[1..];
    }
  }

  /** A sorted sequence is determined by its elements: whatever order the values
      arrive in, `sorted` gives the same list. */
  lemma {:induction false} AscendingUnique(a: seq<real>, b: seq<real>)
    requires Ascending(a) && Ascending(b) && multiset(a) == multiset(b)
    ensures a == b
  {
    assert |a| == |multiset(a)| == |multiset(b)| == |b|;
    if a != [] {
      FirstIsLeast(a, b);
      FirstIsLeast(b, a);
      assert a == [a[0]] + a[1..] && b == [b[0]] + b[1..];
      assert multiset(a[1..]) == multiset(a) - multiset{a[0]};
      assert multiset(b[1..]) == multiset(b) - multiset{b[0]};
      AscendingUnique(a[1..], b[1..]);
    }
  }

  lemma {:induction false} FirstIsLeast(a: seq<real>, b: seq<real>)
    requires Ascending(a) && multiset(a) == multiset(b) && a != [] && b != []
    ensures a[0] <= b[0]
  {
    assert b[0] in multiset(a);
    var i :| 0 <= i < |a| && a[i] == b[0];
  }

  /** `percentile_from_sorted`: linear interpolation between the two closest ranks. */
  function Percentile(ordered: seq<real>, percentile: real): (r: real)
    requires 0.0 <= percentile <= 100.0
  {
    if ordered == [] then 0.0
    else if |ordered| == 1 then ordered[0]
    else
      PositionInRange(|ordered|, percentile);
      BlendAt(ordered, Position(|ordered|, percentile))
  }

  function Position(n: nat, percentile: real): real {
    (n - 1) as real * percentile / 100.0
  }

  function BlendAt(ordered: seq<real>, position: real): real
    requires 0 <= position.Floor <= Ceiling(position) < |ordered|
  {
    var lower := position.Floor;
    var upper := Ceiling(position);
    if lower == upper then ordered[lower]
    else
      var fraction := position - lower as real;
      Mix(ordered[lower], ordered[upper], fraction)
  }

  function Mix(a: real, b: real, f: real): real {
    a * (1.0 - f) + b * f
  }

  function Ceiling(x: real): (c: int)
    ensures c as real - 1.0 < x <= c as real
  {
    -((-x).Floor)
  }

  lemma {:induction false} PositionInRange(n: nat, percentile: real)
    requires n >= 1 && 0.0 <= percentile <= 100.0
    ensures var position := Position(n, percentile);
      0.0 <= position <= (n - 1) as real && 0 <= position.Floor <= Ceiling(position) <= n - 1
  {
    Product((n - 1) as real, percentile);
    Product((n - 1) as real, 100.0 - percentile);
  }

  lemma {:induction false} Between(a: real, b: real, f: real)
    requires a <= b && 0.0 <= f <= 1.0
    ensures a <= Mix(a, b, f) <= b
  {
    Product(b - a, f);
    Product(b - a, 1.0 - f);
    Distribute(b - a, f);
  }

  lemma {:induction false} Product(x: real, y: real)
    requires x >= 0.0 && y >= 0.0
    ensures x * y >= 0.0
  {}

  lemma {:induction false} Distribute(w: real, f: real)
    ensures w * (1.0 - f) == w - w * f
  {}

  lemma {:induction false} BlendInRange(ordered: seq<real>, position: real)
    requires Ascending(ordered) && 0 <= position.Floor <= Ceiling(position) < |ordered|
    ensures ordered[0] <= BlendAt(ordered, position) <= ordered[|ordered| - 1]
  {
    var lower, upper := position.Floor, Ceiling(position);
    Between(ordered[lower], ordered[upper], position - lower as real);
  }

  /** A percentile never leaves the range of the values. */
  lemma {:induction false} PercentileInRange(ordered: seq<real>, percentile: real)
    requires 0.0 <= percentile <= 100.0 && ordered != [] && Ascending(ordered)
    ensures ordered[0] <= Percentile(ordered, percentile) <= ordered[|ordered| - 1]
  {
    if |ordered| > 1 {
      PositionInRange(|ordered|, percentile);
      BlendInRange(ordered, Position(|ordered|, percentile));
    }
  }

  lemma {:induction false} BlendBetween(ordered: seq<real>, position: real)
    requires Ascending(ordered) && 0 <= position.Floor <= Ceiling(position) < |ordered|
    ensures ordered[position.Floor] <= BlendAt(ordered, position) <= ordered[Ceiling(position)]
  {
    var lower, upper := position.Floor, Ceiling(position);
    Between(ordered[lower], ordered[upper], position - lower as real);
  }

  lemma {:induction false} MixMonotone(a: real, b: real, f: real, g: real)
    requires a <= b && f <= g
    ensures Mix(a, b, f) <= Mix(a, b, g)
  {
    Product(b - a, g - f);
    assert Mix(a, b, g) - Mix(a, b, f) == (b - a) * (g - f);
  }

  lemma {:induction false} BlendMonotone(ordered: seq<real>, x: real, y: real)
    requires Ascending(ordered) && x <= y
    requires 0 <= x.Floor <= Ceiling(x) < |ordered| && 0 <= y.Floor <= Ceiling(y) < |ordered|
    ensures BlendAt(ordered, x) <= BlendAt(ordered, y)
  {
    BlendBetween(ordered, x);
    BlendBetween(ordered, y);
    if x.Floor == y.Floor {
      if Ceiling(x) != x.Floor {
        MixMonotone(ordered[x.Floor], ordered[Ceiling(x)], x - x.Floor as real, y - y.Floor as real);
      }
    } else {
      assert Ceiling(x) <= y.Floor;
    }
  }

  lemma {:induction false} PositionIs(n: nat, percentile: real, rank: real)
    requires n >= 1 && (n - 1) as real * percentile == 100.0 * rank
    ensures Position(n, percentile) == rank
  {}

  lemma {:induction false} MixEnds(a: real, b: real)
    ensures Mix(a, b, 0.0) == a && Mix(a, b, 1.0) == b
  {}

  lemma {:induction false} MixIs(a: real, b: real, f: real)
    ensures Mix(a, b, f) == (1.0 - f) * a + f * b
  {}

  lemma {:induction false} BlendIs(ordered: seq<real>, k: nat, f: real)
    requires k + 1 < |ordered| && 0.0 <= f <= 1.0
    ensures 0 <= (k as real + f).Floor <= Ceiling(k as real + f) < |ordered|
    ensures BlendAt(ordered, k as real + f) == Mix(ordered[k], ordered[k + 1], f)
  {
    var position := k as real + f;
    MixEnds(ordered[k], ordered[k + 1]);
    if 0.0 < f < 1.0 {
      assert position.Floor == k && Ceiling(position) == k + 1;
    } else if f == 0.0 {
      assert position.Floor == k == Ceiling(position);
    } else {
      assert position.Floor == k + 1 == Ceiling(position);
    }
  }

  /** What every percentile is: at `k + f` of the way from the first value (0) to the last
      (`n - 1`), it lies the fraction `f` of the way from value `k` to value `k + 1`. */
  lemma {:induction false} PercentileIs(ordered: seq<real>, percentile: real, k: nat, f: real)
    requires 0.0 <= percentile <= 100.0 && k + 1 < |ordered| && 0.0 <= f <= 1.0
    requires (|ordered| - 1) as real * percentile == 100.0 * (k as real + f)
    ensures Percentile(ordered, percentile) == (1.0 - f) * ordered[k] + f * ordered[k + 1]
  {
    PositionIs(|ordered|, percentile, k as real + f);
    BlendIs(ordered, k, f);
    MixIs(ordered[k], ordered[k + 1], f);
  }

  /** A larger percentile is never smaller. */
  lemma {:induction false} PercentileMonotone(ordered: seq<real>, p: real, q: real)
    requires Ascending(ordered) && 0.0 <= p <= q <= 100.0
    ensures Percentile(ordered, p) <= Percentile(ordered, q)
  {
    if |ordered| > 1 {
      PositionInRange(|ordered|, p);
      PositionInRange(|ordered|, q);
      Product((|ordered| - 1) as real, q - p);
      BlendMonotone(ordered, Position(|ordered|, p), Position(|ordered|, q));
    }
  }

  /** The 50th percentile is the middle value, or the mean of the two middle ones. */
  lemma {:induction false} MedianMeaning(ordered: seq<real>)
    requires ordered != []
    ensures Percentile(ordered, 50.0) ==
            (ordered[(|ordered| - 1) / 2] + ordered[|ordered| / 2]) / 2.0
  {
    var n := |ordered|;
    if n > 1 {
      PositionInRange(n, 50.0);
      var position := Position(n, 50.0);
      assert position == (n - 1) as real / 2.0;
      if n % 2 == 1 {
        assert position == ((n - 1) / 2) as real;
      } else {
        assert position == (n / 2 - 1) as real + 0.5;
        assert position.Floor == n / 2 - 1 && Ceiling(position) == n / 2;
      }
    }
  }
}
