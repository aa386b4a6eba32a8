/** Where a moved P² marker comes to rest: on the parabola through it and its neighbours, or on
    the line to the neighbour it moves towards. */
module MarkerHeights {
  import opened StreamingMedian
  import opened Ordering

  ghost function Poly(a: real, b: real, c: real, x: real): real {
    a + b * x + c * (x * x)
  }

  // ----- the parabola -----

  lemma {:induction false} Chord(a: real, b: real, c: real, x: real, y: real)
    ensures Poly(a, b, c, y) - Poly(a, b, c, x) == (y - x) * (b + c * (x + y))
  {}

  lemma {:induction false} Cancel(weight: real, rise: real, span: real, slope: real)
    requires span != 0.0 && rise == span * slope
    ensures Weighted(weight, rise, span) == weight * slope
  {
    assert weight * rise == (weight * slope) * span;
  }

  /** The two weighted slopes add up to the parabola's slope between the old and the new rank. */
  lemma {:induction false} WeightedSlopes(b: real, c: real, x: real, y: real, z: real, d: real)
    ensures (y - x + d) * (b + c * (y + z)) + (z - y - d) * (b + c * (x + y)) == (z - x) * (b + c * (2.0 * y + d))
  {}

  lemma {:induction false} Onward(a: real, b: real, c: real, y: real, d: real)
    ensures Poly(a, b, c, y) + d * (b + c * (2.0 * y + d)) == Poly(a, b, c, y + d)
  {}

  /** The estimator's formula, for markers on a parabola at ranks `x < y < z`. */
  lemma {:induction false} FormulaIsParabola(a: real, b: real, c: real, x: real, y: real, z: real, d: real, p: real,
                                             q: real, r: real)
    requires x < y < z && p == Poly(a, b, c, x) && q == Poly(a, b, c, y) && r == Poly(a, b, c, z)
    ensures Parabolic(x, y, z, d, p, q, r) == Poly(a, b, c, y + d)
  {
    Chord(a, b, c, y, z);
    Chord(a, b, c, x, y);
    WeightedSlopes(b, c, x, y, z, d);
    Combined(x, y, z, d, p, q, r, b + c * (y + z), b + c * (x + y), b + c * (2.0 * y + d));
    Onward(a, b, c, y, d);
  }

  lemma {:induction false} Combined(x: real, y: real, z: real, d: real, p: real, q: real, r: real, upper: real,
                                    lower: real, slope: real)
    requires x < y < z && r - q == (z - y) * upper && q - p == (y - x) * lower
    requires (y - x + d) * upper + (z - y - d) * lower == (z - x) * slope
    ensures Parabolic(x, y, z, d, p, q, r) == q + d * slope
  {
    Cancel(y - x + d, r - q, z - y, upper);
    Cancel(z - y - d, q - p, y - x, lower);
    Cancel(d, Weighted(y - x + d, r - q, z - y) + Weighted(z - y - d, q - p, y - x), z - x, slope);
  }

  /** The three markers around `idx` lie on the parabola. */
  ghost predicate OnParabola(heights: seq<real>, positions: seq<int>, idx: int, a: real, b: real, c: real)
    requires |heights| == |positions| == 5 && 1 <= idx <= 3
  {
    && heights[idx - 1] == Poly(a, b, c, positions[idx - 1] as real)
    && heights[idx] == Poly(a, b, c, positions[idx] as real)
    && heights[idx + 1] == Poly(a, b, c, positions[idx + 1] as real)
  }

  /** `_parabolic_height` is the value at the new rank of the parabola through the marker and its
      neighbours. */
  lemma {:induction false} ParabolicMeaning(heights: seq<real>, positions: seq<int>, idx: int, direction: int, a: real,
                                            b: real, c: real)
    requires Marked(heights, positions) && 1 <= idx <= 3 && OnParabola(heights, positions, idx, a, b, c)
    ensures ParabolicHeight(heights, positions, idx, direction)
            == Poly(a, b, c, positions[idx] as real + direction as real)
  {
    FormulaIsParabola(a, b, c, positions[idx - 1] as real, positions[idx] as real, positions[idx + 1] as real,
                      direction as real, heights[idx - 1], heights[idx], heights[idx + 1]);
  }

  /** Any three markers lie on some parabola, so the law above says what every height is. */
  lemma {:induction false} ParabolaThrough(x: real, y: real, z: real, p: real, q: real, r: real)
    returns (a: real, b: real, c: real)
    requires x < y < z
    ensures p == Poly(a, b, c, x) && q == Poly(a, b, c, y) && r == Poly(a, b, c, z)
  {
    var s, t := (q - p) / (y - x), (r - q) / (z - y);
    c := (t - s) / (z - x);
    b := s - c * (x + y);
    a := p - (b * x + c * (x * x));
    assert s * (y - x) == q - p && t * (z - y) == r - q && c * (z - x) == t - s;
    Chord(a, b, c, x, y);
    Chord(a, b, c, y, z);
    assert b + c * (x + y) == s;
    assert b + c * (y + z) == s + c * (z - x) == t;
  }

  // ----- the line -----

  lemma {:induction false} FormulaIsLine(l: real, m: real, x: real, y: real, d: real, q: real, r: real)
    requires x != y && q == l + m * x && r == l + m * y
    ensures Linear(x, y, d, q, r) == l + m * (x + d)
  {
    assert r - q == (y - x) * m;
    Cancel(d, r - q, y - x, m);
    assert l + m * x + d * m == l + m * (x + d);
  }

  /** The marker and the neighbour it moves towards lie on the line. */
  ghost predicate OnLine(heights: seq<real>, positions: seq<int>, idx: int, direction: int, l: real, m: real)
    requires |heights| == |positions| == 5 && 1 <= idx <= 3 && direction in {-1, 1}
  {
    && heights[idx] == l + m * positions[idx] as real
    && heights[idx + direction] == l + m * positions[idx + direction] as real
  }

  /** `_linear_height` is the value at the new rank of the line through the marker and the
      neighbour it moves towards. */
  lemma {:induction false} LinearMeaning(heights: seq<real>, positions: seq<int>, idx: int, direction: int, l: real,
                                         m: real)
    requires Marked(heights, positions) && 1 <= idx <= 3 && direction in {-1, 1}
    requires OnLine(heights, positions, idx, direction, l, m)
    ensures LinearHeight(heights, positions, idx, direction) == l + m * (positions[idx] as real + direction as real)
  {
    FormulaIsLine(l, m, positions[idx] as real, positions[idx + direction] as real, direction as real, heights[idx],
                  heights[idx + direction]);
  }

  // ----- what one adjustment does -----

  /** A parabola through the marker and its neighbours has height `y` at the new rank. */
  ghost predicate ParabolaReaches(heights: seq<real>, positions: seq<int>, idx: int, direction: int, y: real)
    requires |heights| == |positions| == 5 && 1 <= idx <= 3
  {
    exists a, b, c ::
      OnParabola(heights, positions, idx, a, b, c) && y == Poly(a, b, c, positions[idx] as real + direction as real)
  }

  /** The line to the neighbour has height `y` at the new rank. */
  ghost predicate LineReaches(heights: seq<real>, positions: seq<int>, idx: int, direction: int, y: real)
    requires |heights| == |positions| == 5 && 1 <= idx <= 3 && direction in {-1, 1}
  {
    exists l, m ::
      OnLine(heights, positions, idx, direction, l, m) && y == l + m * (positions[idx] as real + direction as real)
  }

  lemma {:induction false} ParabolicIs(heights: seq<real>, positions: seq<int>, idx: int, direction: int, y: real)
    requires Marked(heights, positions) && 1 <= idx <= 3 && ParabolaReaches(heights, positions, idx, direction, y)
    ensures ParabolicHeight(heights, positions, idx, direction) == y
  {
    var a, b, c :| OnParabola(heights, positions, idx, a, b, c)
                   && y == Poly(a, b, c, positions[idx] as real + direction as real);
    ParabolicMeaning(heights, positions, idx, direction, a, b, c);
  }

  lemma {:induction false} LinearIs(heights: seq<real>, positions: seq<int>, idx: int, direction: int, y: real)
    requires Marked(heights, positions) && 1 <= idx <= 3 && direction in {-1, 1}
    requires LineReaches(heights, positions, idx, direction, y)
    ensures LinearHeight(heights, positions, idx, direction) == y
  {
    var l, m :| OnLine(heights, positions, idx, direction, l, m)
                && y == l + m * (positions[idx] as real + direction as real);
    LinearMeaning(heights, positions, idx, direction, l, m);
  }

  /** A marker that moves by `direction` takes the parabola's height at its new rank if that is
      strictly between its neighbours, else the line's; all other heights stay. */
  lemma {:induction false} MovedHeight(e: Estimator, idx: int, direction: int, parabola: real, line: real)
    requires |e.initial| == 5 && Sound(e) && 1 <= idx <= 3 && direction in {-1, 1}
    requires AdjustAt(e, idx).positions[idx] == e.positions[idx] + direction
    requires ParabolaReaches(e.heights, e.positions, idx, direction, parabola)
    requires LineReaches(e.heights, e.positions, idx, direction, line)
    ensures var r := AdjustAt(e, idx);
            && r.heights[idx] == (if e.heights[idx - 1] < parabola < e.heights[idx + 1] then parabola else line)
            && forall j :: 0 <= j < 5 && j != idx ==> r.heights[j] == e.heights[j]
  {
    ParabolicIs(e.heights, e.positions, idx, direction, parabola);
    LinearIs(e.heights, e.positions, idx, direction, line);
    MovedTo(e, idx, direction, parabola, line);
  }

  lemma {:induction false} MovedTo(e: Estimator, idx: int, direction: int, parabola: real, line: real)
    requires |e.initial| == 5 && Sound(e) && 1 <= idx <= 3 && direction in {-1, 1}
    requires AdjustAt(e, idx).positions[idx] == e.positions[idx] + direction
    requires ParabolicHeight(e.heights, e.positions, idx, direction) == parabola
    requires LinearHeight(e.heights, e.positions, idx, direction) == line
    ensures var r := AdjustAt(e, idx);
            && r.heights[idx] == (if e.heights[idx - 1] < parabola < e.heights[idx + 1] then parabola else line)
            && forall j :: 0 <= j < 5 && j != idx ==> r.heights[j] == e.heights[j]
  {
    var lag := e.desired[idx] - e.positions[idx] as real;
    assert Direction(lag) == direction;
  }

  /** A marker that stays keeps its height. */
  lemma {:induction false} KeptHeight(e: Estimator, idx: int)
    requires |e.initial| == 5 && Sound(e) && 1 <= idx <= 3
    requires AdjustAt(e, idx).positions[idx] == e.positions[idx]
    ensures AdjustAt(e, idx) == e
  {}

  /** From the sixth observation on, adding a value moves an end marker out to a new extreme, moves
      the ranks above the value's cell up by one, and then adjusts the three inner markers in
      order. */
  lemma {:induction false} AddSteps(e: Estimator, value: real) returns (e0: Estimator, cell: int)
    requires Sound(e) && |e.initial| == 5
    ensures 0 <= cell <= 3 && Sound(e0) && e0.initial == e.initial
    ensures AddTo(e, value) == AdjustAt(AdjustAt(AdjustAt(e0, 1), 2), 3)
    ensures forall i :: 0 <= i < 5 ==> e0.positions[i] == e.positions[i] + if i > cell then 1 else 0
    ensures forall i :: 0 <= i < 5 ==> e0.desired[i] == e.desired[i] + i as real / 4.0
    ensures e0.heights == if value < e.heights[0] then e.heights[0 := value]
                          else if value >= e.heights[4] then e.heights[4 := value] else e.heights
    ensures e0.heights[cell] <= value && (cell < 3 ==> value < e0.heights[cell + 1])
    ensures value >= e.heights[4] ==> cell == 3
  {
    var (marker, heights) := CellOf(e.heights, e.positions, value);
    cell := marker;
    e0 := Estimator(e.initial, heights, Shifted(e.positions, marker), Advanced(e.desired));
  }

  // ----- a whole run -----

  lemma {:induction false} SortedStays(s: seq<real>)
    requires Ascending(s)
    ensures Sort(s) == s
  {
    AscendingUnique(Sort(s), s);
  }

  lemma {:induction false} RunOfFive(s: seq<real>)
    requires |s| == 5 && Ascending(s)
    ensures Run(s) == Initialized(s)
  {
    assert s == s[..4] + [s[4]];
    StartupKeepsAll(s[..4]);
    RunAppend(s[..4], s[4]);
    SortedStays(s);
  }

  lemma {:induction false} AfterFive()
    ensures Run(FIVE) == AtFive() && Sound(AtFive())
  {
    RunOfFive(FIVE);
  }

  const FIVE := [0.0, 1.0, 2.0, 3.0, 4.0]

  ghost function AtFive(): Estimator {
    Estimator(FIVE, FIVE, [1, 2, 3, 4, 5], [1.0, 2.0, 3.0, 4.0, 5.0])
  }

  ghost function AtSix(): Estimator {
    Estimator(FIVE, [0.0, 1.0, 2.0, 3.0, 10.0], [1, 2, 3, 4, 6], [1.0, 2.25, 3.5, 4.75, 6.0])
  }

  ghost function AtSeven(): Estimator {
    Estimator(FIVE, [0.0, 1.0, 2.0, 19.0 / 3.0, 20.0], [1, 2, 3, 5, 7], [1.0, 2.5, 4.0, 5.5, 7.0])
  }

  lemma {:induction false} Sixth()
    requires Sound(AtFive())
    ensures AddTo(AtFive(), 10.0) == AtSix()
  {
    var e := AtSix();
    assert Sound(e);
    assert FIVE[4 := 10.0] == e.heights;
    assert Shifted([1, 2, 3, 4, 5], 3) == e.positions && Advanced([1.0, 2.0, 3.0, 4.0, 5.0]) == e.desired;
    assert AdjustAt(e, 1) == e && AdjustAt(e, 2) == e && AdjustAt(e, 3) == e;
  }

  /** The fourth marker follows the parabola through (3, 2), (4, 3) and (7, 20) from rank 4 to 5. */
  lemma {:induction false} Seventh()
    ensures Sound(AtSix()) && AddTo(AtSix(), 20.0) == AtSeven()
  {
    var e := Estimator(FIVE, [0.0, 1.0, 2.0, 3.0, 20.0], [1, 2, 3, 4, 7], [1.0, 2.5, 4.0, 5.5, 7.0]);
    assert Sound(AtSix()) && Sound(e);
    assert AtSix().heights[4 := 20.0] == e.heights;
    assert Shifted(AtSix().positions, 3) == e.positions && Advanced(AtSix().desired) == e.desired;
    assert AdjustAt(e, 1) == e && AdjustAt(e, 2) == e;
    Combined(3.0, 4.0, 7.0, 1.0, 2.0, 3.0, 20.0, 17.0 / 3.0, 1.0, 10.0 / 3.0);
    assert ParabolicHeight(e.heights, e.positions, 3, 1) == 19.0 / 3.0;
    assert AdjustAt(e, 3) == AtSeven();
  }

  ghost function Last(): Estimator {
    Estimator(FIVE, [0.0, 1.0, 2.0, 19.0 / 3.0, 30.0], [1, 2, 3, 5, 8], [1.0, 2.75, 4.5, 6.25, 8.0])
  }

  /** The median marker follows the parabola through (2, 1), (3, 2) and (5, 19/3) from rank 3 to 4. */
  lemma {:induction false} LastMove()
    ensures Sound(Last()) && AdjustAt(Last(), 1) == Last() && AdjustAt(Last(), 2).heights[2] == 34.0 / 9.0
  {
    var e := Last();
    assert Sound(e);
    LastHeight(e.heights, e.positions);
    MovedTo(e, 2, 1, 34.0 / 9.0, LinearHeight(e.heights, e.positions, 2, 1));
  }

  lemma {:induction false} LastHeight(heights: seq<real>, positions: seq<int>)
    requires Marked(heights, positions) && positions == [1, 2, 3, 5, 8]
    requires heights == [0.0, 1.0, 2.0, 19.0 / 3.0, 30.0]
    ensures ParabolicHeight(heights, positions, 2, 1) == 34.0 / 9.0
  {
    Combined(2.0, 3.0, 5.0, 1.0, 1.0, 2.0, 19.0 / 3.0, 13.0 / 6.0, 1.0, 16.0 / 9.0);
  }

  lemma {:induction false} OthersKept(e: Estimator, idx: int, j: int)
    requires |e.initial| == 5 && Sound(e) && 1 <= idx <= 3 && 0 <= j < 5 && j != idx
    ensures AdjustAt(e, idx).heights[j] == e.heights[j]
  {}

  lemma {:induction false} Eighth()
    ensures Sound(AtSeven()) && ValueOf(AddTo(AtSeven(), 30.0)) == 34.0 / 9.0
  {
    assert Sound(AtSeven());
    assert AtSeven().heights[4 := 30.0] == Last().heights;
    assert Shifted(AtSeven().positions, 3) == Last().positions && Advanced(AtSeven().desired) == Last().desired;
    LastMove();
    OthersKept(AdjustAt(Last(), 2), 3, 2);
  }

  /** A whole run: the values 0, 1, 2, 3, 4, 10, 20, 30 are estimated at 34/9. */
  lemma {:induction false} KnownEstimate()
    ensures ValueOf(Run([0.0, 1.0, 2.0, 3.0, 4.0, 10.0, 20.0, 30.0])) == 34.0 / 9.0
  {
    assert [0.0, 1.0, 2.0, 3.0, 4.0, 10.0, 20.0, 30.0] == FIVE + [10.0] + [20.0] + [30.0];
    RunAppend(FIVE, 10.0);
    RunAppend(FIVE + [10.0], 20.0);
    RunAppend(FIVE + [10.0] + [20.0], 30.0);
    AfterFive();
    Sixth();
    Seventh();
    Eighth();
  }
}
