/** Jain's index, the share of clients below the median, and Python's rounding. */
module Fairness {
  import opened LiveRows
  import opened Ordering
  import opened Sums

  /** Python's `round` to an integer: nearest, halves to even. */
  function RoundHalfEven(x: real): int {
    var low := x.Floor;
    var fraction := x - low as real;
    if fraction < 0.5 then low
    else if fraction > 0.5 then low + 1
    else if low % 2 == 0 then low else low + 1
  }

  // ----- Jain's index -----

  ghost predicate NonNegative(s: seq<real>) {
    forall i :: 0 <= i < |s| ==> s[i] >= 0.0
  }

  /** Jain's index of the values, when there are two of them and one is positive. */
  function Jain(values: seq<real>): Option<real> {
    var total, squares := Sum(values), SumSquares(values);
    if |values| >= 2 && squares > 0.0 then Some(Square(total) / (|values| as real * squares)) else None
  }

  /** How far the values are from meeting Cauchy-Schwarz with equality. */
  ghost function Spread(s: seq<real>): real {
    SpreadOf(|s| as real, SumSquares(s), Sum(s))
  }

  ghost function SpreadOf(n: real, squares: real, sum: real): real {
    n * squares - Square(sum)
  }

  ghost predicate AllEqual(s: seq<real>) {
    forall i, j :: 0 <= i < j < |s| ==> s[i] == s[j]
  }

  lemma {:induction false} SquareStep(sum: real, squares: real, n: real, x: real)
    ensures SpreadOf(n + 1.0, squares + Square(x), sum + x) == SpreadOf(n, squares, sum) + Expansion(squares, sum, n, x)
  {
    assert Square(sum + x) == Square(sum) + 2.0 * x * sum + Square(x);
    assert (n + 1.0) * (squares + Square(x)) == n * squares + squares + n * (x * x) + Square(x);
  }

  /** A value adds its squared distances to the values before it. */
  lemma {:induction false} SpreadStep(s: seq<real>)
    requires s != []
    ensures Spread(s) == Spread(s[..|s| - 1]) + Deviation(s[..|s| - 1], s[|s| - 1])
  {
    var n := |s| - 1;
    DeviationExpands(s[..n], s[n]);
    SquareStep(Sum(s[..n]), SumSquares(s[..n]), n as real, s[n]);
  }

  lemma {:induction false} AllEqualStep(s: seq<real>)
    requires s != []
    ensures AllEqual(s) <==> AllEqual(s[..|s| - 1]) && AllAre(s[..|s| - 1], s[|s| - 1])
  {
    var n := |s| - 1;
    assert s == s[..n] + [s[n]];
  }

  lemma {:induction false} SpreadMeaning(s: seq<real>)
    ensures Spread(s) >= 0.0 && (Spread(s) == 0.0 <==> AllEqual(s))
  {
    if s != [] {
      var n := |s| - 1;
      SpreadMeaning(s[..n]);
      SpreadStep(s);
      DeviationZero(s[..n], s[n]);
      AllEqualStep(s);
      ZeroParts(Spread(s[..n]), Deviation(s[..n], s[n]), Spread(s));
    }
  }

  lemma {:induction false} ZeroParts(a: real, b: real, r: real)
    requires a >= 0.0 && b >= 0.0 && r == a + b
    ensures r >= 0.0 && (r == 0.0 <==> a == 0.0 && b == 0.0)
  {}

  lemma {:induction false} SquaresBelowSquare(s: seq<real>)
    requires NonNegative(s)
    ensures Sum(s) >= 0.0 && SumSquares(s) <= Square(Sum(s))
  {
    if s != [] {
      var n := |s| - 1;
      SquaresBelowSquare(s[..n]);
      var sum, x := Sum(s[..n]), s[n];
      assert Square(sum + x) == Square(sum) + 2.0 * Mul(x, sum) + Square(x);
      assert Mul(x, sum) >= 0.0;
    }
  }

  lemma {:induction false} QuotientBounds(a: real, b: real, n: real)
    requires b > 0.0 && n >= 1.0 && b <= a <= n * b
    ensures n * b > 0.0 && 1.0 / n <= a / (n * b) <= 1.0 && (a / (n * b) == 1.0 <==> a == n * b)
  {
    MulPositive(n, b);
    var d := n * b;
    var q := a / d;
    assert q * d == a;
    assert Mul(q - 1.0, d) == a - d;
    if q > 1.0 {
      MulPositive(q - 1.0, d);
    }
    var inverse := 1.0 / n;
    assert inverse * n == 1.0;
    assert inverse * d == b by {
      assert inverse * (n * b) == (inverse * n) * b;
    }
    assert Mul(inverse - q, d) == b - a;
    if q < inverse {
      MulPositive(inverse - q, d);
    }
  }

  /** Jain's index of non-negative counts lies between `1/n` and 1, and is 1 exactly when
      all counts are equal. */
  lemma {:induction false} JainBounds(values: seq<real>)
    requires NonNegative(values) && Jain(values).Some?
    ensures var j := Jain(values).value;
            1.0 / |values| as real <= j <= 1.0 && (j == 1.0 <==> AllEqual(values))
  {
    SpreadMeaning(values);
    SquaresBelowSquare(values);
    var n, squares, square := |values| as real, SumSquares(values), Square(Sum(values));
    assert square <= n * squares && (square == n * squares <==> AllEqual(values));
    QuotientBounds(square, squares, n);
    assert Jain(values).value == square / (n * squares);
  }

  /** Values of which the first `k` are `x` and the others 0. */
  ghost predicate SomeServed(values: seq<real>, k: nat, x: real) {
    forall i :: 0 <= i < |values| ==> values[i] == if i < k then x else 0.0
  }

  ghost function Fewer(a: nat, b: nat): nat {
    if a < b then a else b
  }

  lemma {:induction false} ServedTotal(values: seq<real>, k: nat, x: real)
    requires SomeServed(values, k, x)
    ensures Sum(values) == Mul(Fewer(k, |values|) as real, x)
  {
    if values != [] {
      var n := |values| - 1;
      ServedTotal(values[..n], k, x);
      OneMoreServed(n as real, x);
    }
  }

  lemma {:induction false} ServedSquares(values: seq<real>, k: nat, x: real)
    requires SomeServed(values, k, x)
    ensures SumSquares(values) == Mul(Fewer(k, |values|) as real, Square(x))
  {
    if values != [] {
      var n := |values| - 1;
      ServedSquares(values[..n], k, x);
      OneMoreServed(n as real, Square(x));
    }
  }

  lemma {:induction false} OneMoreServed(n: real, x: real)
    ensures Mul(n, x) + x == Mul(n + 1.0, x)
  {}

  /** What the index measures: if `k` of `n` clients get equal bytes and the rest none, it is
      `k / n`. */
  lemma {:induction false} JainMeaning(values: seq<real>, k: nat, x: real)
    requires 0 < k <= |values| && |values| >= 2 && x > 0.0 && SomeServed(values, k, x)
    ensures Jain(values).Some? && Jain(values).value * |values| as real == k as real
  {
    ServedTotal(values, k, x);
    ServedSquares(values, k, x);
    ServedQuotient(k as real, |values| as real, x);
  }

  lemma {:induction false} ServedQuotient(k: real, n: real, x: real)
    requires k > 0.0 && n > 0.0 && x > 0.0
    ensures Mul(k, Square(x)) > 0.0 && n * Mul(k, Square(x)) > 0.0
    ensures Square(Mul(k, x)) / (n * Mul(k, Square(x))) * n == k
  {
    var part := Mul(k, Square(x));
    MulPositive(k, Square(x));
    MulPositive(n, part);
    assert Square(Mul(k, x)) == k * part by {
      assert (k * x) * (k * x) == k * (k * (x * x));
    }
    ShareTimes(k, n, part);
  }

  lemma {:induction false} ShareTimes(k: real, n: real, part: real)
    requires n > 0.0 && part > 0.0 && n * part > 0.0
    ensures k * part / (n * part) * n == k
  {
    var q := k * part / (n * part);
    assert q * (n * part) == k * part;
    assert (q * n - k) * part == 0.0;
    if q * n - k > 0.0 {
      MulPositive(q * n - k, part);
    } else if q * n - k < 0.0 {
      MulPositive(k - q * n, part);
    }
  }

  /** In general: the squared total over `n` times the sum of squares. */
  lemma {:induction false} JainRatio(values: seq<real>)
    requires Jain(values).Some?
    ensures Jain(values).value * (|values| as real * SumSquares(values)) == Sum(values) * Sum(values)
  {
    MulPositive(|values| as real, SumSquares(values));
  }

  // ----- how many can be below the median -----

  ghost function CountBelow(s: seq<real>, x: real): nat {
    if s == [] then 0 else (if s[0] < x then 1 else 0) + CountBelow(s[1..], x)
  }

  lemma {:induction false} InsertCount(s: seq<real>, y: real, x: real)
    requires Ascending(s)
    ensures CountBelow(Insert(s, y), x) == CountBelow(s, x) + if y < x then 1 else 0
  {
    if s == [] || y <= s[0] {
      assert ([y] + s)[1..] == s;
    } else {
      InsertCount(s[1..], y, x);
      assert ([s[0]] + Insert(s[1..], y))[1..] == Insert(s[1..], y);
    }
  }

  /** The clients whose value is below `x`. */
  ghost function Below(m: map<ClientId, real>, x: real): set<ClientId> {
    set c | c in m && m[c] < x
  }

  lemma {:induction false} BelowCount(m: map<ClientId, real>, x: real)
    ensures |Below(m, x)| == CountBelow(SortedValues(m), x)
    decreases m.Keys
  {
    if m.Keys == {} {
      assert m == map[] && Below(m, x) == {};
    } else {
      var k := SortedFirst(m);
      BelowCount(m - {k}, x);
      InsertCount(SortedValues(m - {k}), m[k], x);
      BelowStep(m, k, x);
    }
  }

  lemma {:induction false} BelowStep(m: map<ClientId, real>, k: ClientId, x: real)
    requires k in m
    ensures |Below(m, x)| == |Below(m - {k}, x)| + if m[k] < x then 1 else 0
  {
    assert Below(m, x) == Below(m - {k}, x) + if m[k] < x then {k} else {};
  }

  lemma {:induction false} CountBelowRank(s: seq<real>, x: real, k: nat)
    requires Ascending(s) && k <= |s| && (k < |s| ==> s[k] >= x)
    ensures CountBelow(s, x) <= k
  {
    if s != [] {
      if k == 0 {
        assert s[0] >= x;
        CountBelowRank(s[1..], x, 0);
      } else {
        CountBelowRank(s[1..], x, k - 1);
      }
    }
  }

  /** At most half of the clients are strictly below the interpolated median. */
  lemma {:induction false} MinorityBelowMedian(m: map<ClientId, real>)
    requires m.Keys != {}
    ensures 2 * |Below(m, Percentile(SortedValues(m), 50.0))| <= |m|
  {
    var s := SortedValues(m);
    SortedBag(m);
    BelowCount(m, Percentile(s, 50.0));
    UpperMiddle(s);
    CountBelowRank(s, Percentile(s, 50.0), |s| / 2);
  }

  lemma {:induction false} UpperMiddle(s: seq<real>)
    requires s != [] && Ascending(s)
    ensures s[|s| / 2] >= Percentile(s, 50.0)
  {
    MedianMeaning(s);
    assert s[(|s| - 1) / 2] <= s[|s| / 2];
  }

  // ----- how many can be above it -----

  ghost function CountAbove(s: seq<real>, x: real): nat {
    if s == [] then 0 else (if s[0] > x then 1 else 0) + CountAbove(s[1..], x)
  }

  lemma {:induction false} InsertCountAbove(s: seq<real>, y: real, x: real)
    requires Ascending(s)
    ensures CountAbove(Insert(s, y), x) == CountAbove(s, x) + if y > x then 1 else 0
  {
    if s == [] || y <= s[0] {
      assert ([y] + s)[1..] == s;
    } else {
      InsertCountAbove(s[1..], y, x);
      assert ([s[0]] + Insert(s[1..], y))[1..] == Insert(s[1..], y);
    }
  }

  /** The clients whose value is above `x`. */
  ghost function Above(m: map<ClientId, real>, x: real): set<ClientId> {
    set c | c in m && m[c] > x
  }

  lemma {:induction false} AboveCount(m: map<ClientId, real>, x: real)
    ensures |Above(m, x)| == CountAbove(SortedValues(m), x)
    decreases m.Keys
  {
    if m.Keys == {} {
      assert m == map[] && Above(m, x) == {};
    } else {
      var k := SortedFirst(m);
      AboveCount(m - {k}, x);
      InsertCountAbove(SortedValues(m - {k}), m[k], x);
      AboveStep(m, k, x);
    }
  }

  lemma {:induction false} AboveStep(m: map<ClientId, real>, k: ClientId, x: real)
    requires k in m
    ensures |Above(m, x)| == |Above(m - {k}, x)| + if m[k] > x then 1 else 0
  {
    assert Above(m, x) == Above(m - {k}, x) + if m[k] > x then {k} else {};
  }

  lemma {:induction false} CountAboveRank(s: seq<real>, x: real, k: nat)
    requires Ascending(s) && k <= |s| && (k > 0 ==> s[k - 1] <= x)
    ensures CountAbove(s, x) <= |s| - k
  {
    if s != [] {
      if k > 0 {
        assert s[0] <= s[k - 1];
        CountAboveRank(s[1..], x, k - 1);
      } else {
        CountAboveRank(s[1..], x, 0);
      }
    }
  }

  /** At most half of the clients are strictly above the interpolated median. */
  lemma {:induction false} MinorityAboveMedian(m: map<ClientId, real>)
    requires m.Keys != {}
    ensures 2 * |Above(m, Percentile(SortedValues(m), 50.0))| <= |m|
  {
    var s := SortedValues(m);
    SortedBag(m);
    AboveCount(m, Percentile(s, 50.0));
    LowerMiddle(s);
    CountAboveRank(s, Percentile(s, 50.0), (|s| - 1) / 2 + 1);
  }

  lemma {:induction false} LowerMiddle(s: seq<real>)
    requires s != [] && Ascending(s)
    ensures s[(|s| - 1) / 2] <= Percentile(s, 50.0)
  {
    MedianMeaning(s);
    assert s[(|s| - 1) / 2] <= s[|s| / 2];
  }
}
