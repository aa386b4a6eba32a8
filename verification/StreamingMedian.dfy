/** The constant-memory P² median estimator (Jain and Chlamtac).  `Estimator`, `AddTo`
    and `Run` are its behaviour on values; class `P2Median` is the object that
    updates its lists in place. */
module StreamingMedian {
  import opened Ordering

  datatype Estimator = Estimator(
    initial: seq<real>, heights: seq<real>, positions: seq<int>, desired: seq<real>)

  const INCREMENTS: seq<real> := [0.0, 0.25, 0.5, 0.75, 1.0]

  /** What every reachable estimator satisfies: the markers sit at strictly increasing
      ranks starting at 1, and their heights are sorted. */
  ghost predicate Sound(e: Estimator) {
    && |e.initial| <= 5
    && (|e.initial| < 5 ==> e.heights == [] && e.positions == [] && e.desired == [])
    && (|e.initial| == 5 ==> Marked(e.heights, e.positions) && |e.desired| == 5)
  }

  ghost predicate Marked(heights: seq<real>, positions: seq<int>) {
    && |heights| == |positions| == 5
    && positions[0] == 1
    && positions[0] < positions[1] < positions[2] < positions[3] < positions[4]
    && heights[0] <= heights[1] <= heights[2] <= heights[3] <= heights[4]
  }

  const Empty := Estimator([], [], [], [])

  function AddTo(e: Estimator, value: real): (r: Estimator)
    requires Sound(e)
    ensures Sound(r)
  {
    if |e.initial| < 5 then
      var initial := e.initial + [value];
      if |initial| == 5 then Initialized(Sort(initial)) else e.(initial := initial)
    else
      var (marker, heights) := CellOf(e.heights, e.positions, value);
      var positions := Shifted(e.positions, marker);
      var desired := Advanced(e.desired);
      var e1 := AdjustAt(Estimator(e.initial, heights, positions, desired), 1);
      AdjustAt(AdjustAt(e1, 2), 3)
  }

  function Initialized(sorted: seq<real>): (r: Estimator)
    requires |sorted| == 5 && Ascending(sorted)
    ensures Sound(r)
  {
    Estimator(sorted, sorted, [1, 2, 3, 4, 5], [1.0, 2.0, 3.0, 4.0, 5.0])
  }

  /** The cell a value falls in, with an end marker moved out to a new extreme. */
  function CellOf(heights: seq<real>, positions: seq<int>, value: real): (r: (int, seq<real>))
    requires Marked(heights, positions)
    ensures 0 <= r.0 <= 3 && Marked(r.1, positions)
    ensures r.1[r.0] <= value <= r.1[r.0 + 1]
    ensures r.1[1..4] == heights[1..4]
  {
    if value < heights[0] then (0, heights[0 := value])
    else if value >= heights[4] then (3, heights[4 := value])
    else if value < heights[1] then (0, heights)
    else if value < heights[2] then (1, heights)
    else if value < heights[3] then (2, heights)
    else (3, heights)
  }

  function Shifted(positions: seq<int>, marker: int): (r: seq<int>)
    requires |positions| == 5
    ensures |r| == 5
  {
    seq(5, i requires 0 <= i < 5 => if i > marker then positions[i] + 1 else positions[i])
  }

  function Advanced(desired: seq<real>): (r: seq<real>)
    requires |desired| == 5
    ensures |r| == 5
  {
    seq(5, i requires 0 <= i < 5 => desired[i] + INCREMENTS[i])
  }

  function Direction(delta: real): int {
    if delta >= 1.0 then 1 else if delta <= -1.0 then -1 else 0
  }

  predicate CanMove(positions: seq<int>, idx: int, direction: int)
    requires |positions| == 5 && 1 <= idx <= 3
  {
    || (direction > 0 && positions[idx + 1] - positions[idx] > 1)
    || (direction < 0 && positions[idx - 1] - positions[idx] < -1)
  }

  /** One marker's adjustment; blocked or unneeded moves leave the state alone. */
  function AdjustAt(e: Estimator, idx: int): (r: Estimator)
    requires |e.initial| == 5 && Sound(e) && 1 <= idx <= 3
    ensures |r.initial| == 5 && Sound(r)
  {
    var direction := Direction(e.desired[idx] - e.positions[idx] as real);
    if direction == 0 || !CanMove(e.positions, idx, direction) then e
    else
      LinearStaysBetween(e.heights, e.positions, idx, direction);
      e.(heights := e.heights[idx := NewHeight(e.heights, e.positions, idx, direction)],
         positions := e.positions[idx := e.positions[idx] + direction])
  }

  /** The parabolic height when it stays strictly between the neighbours, else the linear one. */
  function NewHeight(heights: seq<real>, positions: seq<int>, idx: int, direction: int): real
    requires Marked(heights, positions) && 1 <= idx <= 3 && direction in {-1, 1}
  {
    var candidate := ParabolicHeight(heights, positions, idx, direction);
    if heights[idx - 1] < candidate < heights[idx + 1] then candidate
    else LinearHeight(heights, positions, idx, direction)
  }

  function ParabolicHeight(heights: seq<real>, positions: seq<int>, idx: int, direction: int): real
    requires Marked(heights, positions) && 1 <= idx <= 3
  {
    Parabolic(positions[idx - 1] as real, positions[idx] as real, positions[idx + 1] as real, direction as real,
              heights[idx - 1], heights[idx], heights[idx + 1])
  }

  /** The formula, for heights `p`, `q`, `r` at ranks `x`, `y`, `z`. */
  function Parabolic(x: real, y: real, z: real, direction: real, p: real, q: real, r: real): real
    requires x < y < z
  {
    var left := Weighted(y - x + direction, r - q, z - y);
    var right := Weighted(z - y - direction, q - p, y - x);
    q + Weighted(direction, left + right, z - x)
  }

  function Weighted(weight: real, rise: real, span: real): real
    requires span != 0.0
  {
    weight * rise / span
  }

  function LinearHeight(heights: seq<real>, positions: seq<int>, idx: int, direction: int): real
    requires Marked(heights, positions) && 1 <= idx <= 3 && direction in {-1, 1}
  {
    var neighbor := idx + direction;
    Linear(positions[idx] as real, positions[neighbor] as real, direction as real, heights[idx], heights[neighbor])
  }

  /** The formula, for height `q` at rank `y` and height `r` at rank `z`. */
  function Linear(y: real, z: real, direction: real, q: real, r: real): real
    requires y != z
  {
    q + Weighted(direction, r - q, z - y)
  }

  lemma {:induction false} FractionOfGap(gap: real, steps: real)
    requires gap >= 0.0 && steps >= 1.0
    ensures 0.0 <= gap / steps <= gap
  {
    var q := gap / steps;
    assert q * steps == gap;
    assert gap - q == q * (steps - 1.0);
  }

  lemma {:induction false} LinearStaysBetween(heights: seq<real>, positions: seq<int>, idx: int, direction: int)
    requires Marked(heights, positions) && 1 <= idx <= 3 && direction in {-1, 1}
    ensures heights[idx - 1] <= LinearHeight(heights, positions, idx, direction) <= heights[idx + 1]
  {
    var neighbor := idx + direction;
    if direction == 1 {
      FractionOfGap(heights[neighbor] - heights[idx], positions[neighbor] as real - positions[idx] as real);
    } else {
      var gap := heights[idx] - heights[neighbor];
      var steps := positions[idx] as real - positions[neighbor] as real;
      FractionOfGap(gap, steps);
      NegatedFraction(gap, steps);
    }
  }

  lemma {:induction false} NegatedFraction(gap: real, steps: real)
    requires steps >= 1.0
    ensures -1.0 * (-gap) / (-steps) == -(gap / steps)
  {
    var q := gap / steps;
    assert q * steps == gap;
    assert (-q) * (-steps) == gap;
  }

  // ----- whole runs -----

  /** The estimator after a sequence of observations. */
  function Run(observed: seq<real>): (r: Estimator)
    ensures Sound(r)
  {
    if observed == [] then Empty else AddTo(Run(observed[..|observed| - 1]), observed[|observed| - 1])
  }

  ghost predicate Extremes(low: real, high: real, observed: seq<real>) {
    && low in observed && high in observed
    && forall x :: x in observed ==> low <= x <= high
  }

  /** Four times how far marker `idx` lags its desired rank `1 + (n - 1) * idx / 4`. */
  ghost function Lag4(positions: seq<int>, n: int, idx: int): int
    requires |positions| == 5 && 0 <= idx < 5
  {
    4 + (n - 1) * idx - 4 * positions[idx]
  }

  /** The three inner ranks are each less than one from their desired rank.  The one
      exception is a seventh observation that leaves the median marker blocked. */
  ghost predicate Near(a: int, b: int, c: int, n: int) {
    && 1 < a < b < c < n
    && (|| (n == 7 && a == 2 && b == 3 && c == 5)
        || (&& -4 < 4 + (n - 1) - 4 * a < 4
            && -4 < 4 + (n - 1) * 2 - 4 * b < 4
            && -4 < 4 + (n - 1) * 3 - 4 * c < 4))
  }

  ghost predicate OnTrack(positions: seq<int>, n: int) {
    && |positions| == 5 && n >= 5
    && positions[0] == 1 && positions[4] == n
    && Near(positions[1], positions[2], positions[3], n)
  }

  ghost predicate DesiredRanks(desired: seq<real>, n: int) {
    && |desired| == 5
    && desired[0] == 1.0
    && desired[1] == 1.0 + (n - 1) as real * 0.25
    && desired[2] == 1.0 + (n - 1) as real * 0.5
    && desired[3] == 1.0 + (n - 1) as real * 0.75
    && desired[4] == n as real
  }

  /** The rank a marker at `x` moves to, given its neighbours' ranks and its lag. */
  ghost function Moved(below: int, x: int, above: int, lag: int): int {
    if lag >= 4 && above - x > 1 then x + 1
    else if lag <= -4 && below - x < -1 then x - 1
    else x
  }

  /** The marker moves of `AdjustAt`, on ranks alone. */
  ghost function MoveAt(p: seq<int>, n: int, idx: int): seq<int>
    requires |p| == 5 && 1 <= idx <= 3
  {
    p[idx := Moved(p[idx - 1], p[idx], p[idx + 1], Lag4(p, n, idx))]
  }

  lemma {:induction false} AdjustMovesRanks(e: Estimator, n: int, idx: int)
    requires |e.initial| == 5 && Sound(e) && 1 <= idx <= 3 && DesiredRanks(e.desired, n)
    ensures var r := AdjustAt(e, idx);
            r.positions == MoveAt(e.positions, n, idx) && r.desired == e.desired && r.initial == e.initial
  {
    var lag := e.desired[idx] - e.positions[idx] as real;
    assert 4.0 * lag == Lag4(e.positions, n, idx) as real;
  }

  lemma {:induction false} AdjustKeepsEnds(e: Estimator, idx: int)
    requires |e.initial| == 5 && Sound(e) && 1 <= idx <= 3
    ensures AdjustAt(e, idx).heights[0] == e.heights[0]
    ensures AdjustAt(e, idx).heights[4] == e.heights[4]
  {}

  /** A round of moves on the three inner ranks, in the order the loop takes them. */
  ghost function InnerRound(a: int, b: int, c: int, n: int, marker: int): (int, int, int) {
    var a0 := if marker < 1 then a + 1 else a;
    var b0 := if marker < 2 then b + 1 else b;
    var c0 := if marker < 3 then c + 1 else c;
    var a1 := Moved(1, a0, b0, 4 + n - 4 * a0);
    var b1 := Moved(a1, b0, c0, 4 + n * 2 - 4 * b0);
    (a1, b1, Moved(b1, c0, n + 1, 4 + n * 3 - 4 * c0))
  }

  lemma {:induction false} RanksStayNear(a: int, b: int, c: int, n: int, marker: int)
    requires n >= 5 && Near(a, b, c, n) && 0 <= marker <= 3
    ensures var (a1, b1, c1) := InnerRound(a, b, c, n, marker); Near(a1, b1, c1, n + 1)
  {}

  lemma {:induction false} RoundOnInnerRanks(p: seq<int>, n: int, marker: int)
    requires |p| == 5 && p[0] == 1 && p[4] == n && 0 <= marker <= 3
    ensures var (a1, b1, c1) := InnerRound(p[1], p[2], p[3], n, marker);
            MoveAt(MoveAt(MoveAt(Shifted(p, marker), n + 1, 1), n + 1, 2), n + 1, 3)
            == [1, a1, b1, c1, n + 1]
  {
    var p0 := Shifted(p, marker);
    var (a1, b1, c1) := InnerRound(p[1], p[2], p[3], n, marker);
    var p1 := MoveAt(p0, n + 1, 1);
    assert p1 == [1, a1, p0[2], p0[3], n + 1];
    var p2 := MoveAt(p1, n + 1, 2);
    assert p2 == [1, a1, b1, p0[3], n + 1];
  }

  /** One round of moves keeps the markers on track, whichever cell the value fell in. */
  lemma {:induction false} RoundStaysOnTrack(positions: seq<int>, n: int, marker: int)
    requires OnTrack(positions, n) && 0 <= marker <= 3
    ensures var p0 := Shifted(positions, marker);
            OnTrack(MoveAt(MoveAt(MoveAt(p0, n + 1, 1), n + 1, 2), n + 1, 3), n + 1)
  {
    RanksStayNear(positions[1], positions[2], positions[3], n, marker);
    RoundOnInnerRanks(positions, n, marker);
  }

  lemma {:induction false} AddMovesRanks(e: Estimator, value: real, n: int)
    requires Sound(e) && |e.initial| == 5 && DesiredRanks(e.desired, n)
    ensures var marker := CellOf(e.heights, e.positions, value).0;
            var p0 := Shifted(e.positions, marker);
            var r := AddTo(e, value);
            && |r.initial| == 5 && DesiredRanks(r.desired, n + 1)
            && r.positions == MoveAt(MoveAt(MoveAt(p0, n + 1, 1), n + 1, 2), n + 1, 3)
  {
    var (marker, heights) := CellOf(e.heights, e.positions, value);
    var positions := Shifted(e.positions, marker);
    var desired := Advanced(e.desired);
    assert DesiredRanks(desired, n + 1);
    var e0 := Estimator(e.initial, heights, positions, desired);
    AdjustMovesRanks(e0, n + 1, 1);
    AdjustMovesRanks(AdjustAt(e0, 1), n + 1, 2);
    AdjustMovesRanks(AdjustAt(AdjustAt(e0, 1), 2), n + 1, 3);
  }

  lemma {:induction false} AddKeepsExtremes(e: Estimator, value: real, observed: seq<real>)
    requires Sound(e) && |e.initial| == 5 && Extremes(e.heights[0], e.heights[4], observed)
    ensures var r := AddTo(e, value);
            |r.initial| == 5 && Extremes(r.heights[0], r.heights[4], observed + [value])
  {
    var (marker, heights) := CellOf(e.heights, e.positions, value);
    var positions := Shifted(e.positions, marker);
    var desired := Advanced(e.desired);
    var e0 := Estimator(e.initial, heights, positions, desired);
    AdjustKeepsEnds(e0, 1);
    AdjustKeepsEnds(AdjustAt(e0, 1), 2);
    AdjustKeepsEnds(AdjustAt(AdjustAt(e0, 1), 2), 3);
    assert Extremes(heights[0], heights[4], observed + [value]);
  }

  /** While fewer than five values have arrived they are all kept, in order. */
  lemma {:induction false} StartupKeepsAll(observed: seq<real>)
    requires |observed| < 5
    ensures Run(observed).initial == observed
  {
    if observed != [] {
      StartupKeepsAll(observed[..|observed| - 1]);
    }
  }

  /** Safety and drift over every run: from the fifth observation on, ranks run strictly
      from 1 to n, heights are sorted, the end heights are exactly the least and
      greatest value observed, and every marker is within one rank of where it should be. */
  lemma {:induction false} RunInvariant(observed: seq<real>)
    requires |observed| >= 5
    ensures var e := Run(observed);
            && |e.initial| == 5 && Marked(e.heights, e.positions)
            && Extremes(e.heights[0], e.heights[4], observed)
            && DesiredRanks(e.desired, |observed|)
            && OnTrack(e.positions, |observed|)
  {
    var n := |observed| - 1;
    var earlier := observed[..n];
    assert observed == earlier + [observed[n]];
    if n == 4 {
      StartupKeepsAll(earlier);
      var sorted := Sort(observed);
      assert Run(observed) == Initialized(sorted);
      assert forall x :: x in observed <==> x in multiset(sorted);
      assert sorted[0] in multiset(sorted) && sorted[4] in multiset(sorted);
    } else {
      RunInvariant(earlier);
      AddMovesRanks(Run(earlier), observed[n], n);
      RoundStaysOnTrack(Run(earlier).positions, n, CellOf(Run(earlier).heights, Run(earlier).positions, observed[n]).0);
      AddKeepsExtremes(Run(earlier), observed[n], earlier);
    }
  }

  lemma {:induction false} LagsAre(p: seq<int>, n: int)
    requires |p| == 5
    ensures Lag4(p, n, 0) == 4 - 4 * p[0] && Lag4(p, n, 1) == 3 + n - 4 * p[1]
    ensures Lag4(p, n, 2) == 2 + 2 * n - 4 * p[2] && Lag4(p, n, 3) == 1 + 3 * n - 4 * p[3]
    ensures Lag4(p, n, 4) == 4 * n - 4 * p[4]
  {}

  lemma {:induction false} LagBound(p: seq<int>, n: int, idx: int)
    requires OnTrack(p, n) && 0 <= idx <= 4
    ensures -4 < Lag4(p, n, idx) <= 4
    ensures n != 7 || idx != 2 ==> Lag4(p, n, idx) < 4
    ensures n % 4 == 1 ==> Lag4(p, n, idx) == 0
  {
    LagsAre(p, n);
    assert idx == 0 || idx == 1 || idx == 2 || idx == 3 || idx == 4;
  }

  /** Drift bound: marker `idx` stays within one rank of `1 + (n - 1) * idx / 4`, strictly
      so unless exactly seven values have arrived; whenever `n - 1` divides by four every
      marker is exactly there. */
  lemma {:induction false} DriftBound(observed: seq<real>, idx: int)
    requires |observed| >= 5 && 0 <= idx <= 4
    ensures var n := |observed|;
            var p := Run(observed).positions;
            && |p| == 5
            && var drift := p[idx] as real - (1.0 + ((n - 1) * idx) as real / 4.0);
               && -1.0 <= drift < 1.0
               && (n != 7 || idx != 2 ==> -1.0 < drift)
               && (n % 4 == 1 ==> drift == 0.0)
  {
    RunInvariant(observed);
    LagBound(Run(observed).positions, |observed|, idx);
  }

  lemma {:induction false} RunAppend(observed: seq<real>, value: real)
    ensures Run(observed + [value]) == AddTo(Run(observed), value)
  {
    assert (observed + [value])[..|observed|] == observed;
  }

  /** A value at or above the current maximum falls in the last cell. */
  lemma {:induction false} MaximumMovesRanks(e: Estimator, value: real, n: int)
    requires Sound(e) && |e.initial| == 5 && DesiredRanks(e.desired, n)
    requires e.positions[4] == n && value >= e.heights[4]
    ensures var (a, b, c) := InnerRound(e.positions[1], e.positions[2], e.positions[3], n, 3);
            AddTo(e, value).positions == [1, a, b, c, n + 1]
  {
    assert CellOf(e.heights, e.positions, value).0 == 3;
    AddMovesRanks(e, value, n);
    RoundOnInnerRanks(e.positions, n, 3);
  }

  /** The bound is met: five values and then two new maxima leave the median marker at
      rank 3, a whole rank short of its desired rank 4. */
  lemma {:induction false} DriftBoundIsTight(first: seq<real>, sixth: real, seventh: real)
    requires |first| == 5 && (forall x :: x in first ==> x <= sixth) && sixth <= seventh
    ensures Run(first + [sixth] + [seventh]).positions == [1, 2, 3, 5, 7]
  {
    StartupKeepsAll(first[..4]);
    assert first == first[..4] + [first[4]];
    assert Run(first).positions == [1, 2, 3, 4, 5];
    RunInvariant(first);
    MaximumMovesRanks(Run(first), sixth, 5);
    RunAppend(first, sixth);
    RunInvariant(first + [sixth]);
    MaximumMovesRanks(Run(first + [sixth]), seventh, 6);
    RunAppend(first + [sixth], seventh);
  }

  /** `value()`: exact while starting up, then the height of the median marker. */
  function ValueOf(e: Estimator): (r: real)
    requires Sound(e)
  {
    if e.initial == [] then 0.0
    else if |e.initial| < 5 then Percentile(Sort(e.initial), 50.0)
    else e.heights[2]
  }

  /** Up to four observations give their exact median. */
  lemma {:induction false} StartupMedian(observed: seq<real>, sorted: seq<real>)
    requires 1 <= |observed| <= 4 && Ascending(sorted) && multiset(sorted) == multiset(observed)
    ensures |sorted| == |observed|
    ensures ValueOf(Run(observed)) == (sorted[(|sorted| - 1) / 2] + sorted[|sorted| / 2]) / 2.0
  {
    assert |sorted| == |multiset(sorted)| == |observed|;
    StartupKeepsAll(observed);
    AscendingUnique(Sort(observed), sorted);
    MedianMeaning(sorted);
  }

  /** The estimate never leaves the range of the observations. */
  lemma {:induction false} EstimateInRange(observed: seq<real>)
    requires observed != []
    ensures exists low, high :: Extremes(low, high, observed) && low <= ValueOf(Run(observed)) <= high
  {
    if |observed| < 5 {
      StartupKeepsAll(observed);
      var sorted := Sort(observed);
      PercentileInRange(sorted, 50.0);
      assert forall x :: x in observed <==> x in multiset(sorted);
      assert sorted[0] in multiset(sorted) && sorted[|sorted| - 1] in multiset(sorted);
      assert Extremes(sorted[0], sorted[|sorted| - 1], observed);
    } else {
      RunInvariant(observed);
      var e := Run(observed);
      assert Extremes(e.heights[0], e.heights[4], observed);
    }
  }

  /** The estimator object.  `observed` is the ghost record of everything added. */
  class P2Median {
    var initial: seq<real>
    var heights: seq<real>
    var positions: seq<int>
    var desired: seq<real>
    ghost var observed: seq<real>

    ghost function State(): Estimator
      reads this
    {
      Estimator(initial, heights, positions, desired)
    }

    ghost predicate Valid()
      reads this
    {
      State() == Run(observed)
    }

    constructor ()
      ensures Valid() && observed == []
    {
      initial, heights, positions, desired := [], [], [], [];
      observed := [];
    }

    method Add(value: real)
      requires Valid()
      modifies this
      ensures Valid() && observed == old(observed) + [value]
    {
      Absorb(value);
      RunAppend(observed, value);
      observed := observed + [value];
    }

    method Absorb(value: real)
      requires Sound(State())
      modifies this
      ensures State() == AddTo(old(State()), value) && observed == old(observed)
    {
      if |initial| < 5 {
        initial := initial + [value];
        if |initial| == 5 {
          InitializeMarkers();
        }
        return;
      }
      var marker := FindMarker(value);
      ShiftPositions(marker);
      AdvanceDesired();
      AdjustMarkers();
    }

    method ShiftPositions(marker: int)
      requires |positions| == 5 && 0 <= marker <= 3
      modifies this`positions
      ensures positions == Shifted(old(positions), marker)
    {
      for idx := marker + 1 to 5
        invariant |positions| == 5
        invariant forall i :: 0 <= i < 5 ==>
          positions[i] == if marker < i < idx then old(positions[i]) + 1 else old(positions[i])
      {
        positions := positions[idx := positions[idx] + 1];
      }
    }

    method AdvanceDesired()
      requires |desired| == 5
      modifies this`desired
      ensures desired == Advanced(old(desired))
    {
      for idx := 0 to 5
        invariant |desired| == 5
        invariant forall i :: 0 <= i < 5 ==>
          desired[i] == if i < idx then old(desired[i]) + INCREMENTS[i] else old(desired[i])
      {
        desired := desired[idx := desired[idx] + INCREMENTS[idx]];
      }
    }

    method InitializeMarkers()
      requires |initial| == 5
      modifies this
      ensures State() == Initialized(Sort(old(initial))) && observed == old(observed)
    {
      initial := Sort(initial);
      heights := initial;
      positions := [1, 2, 3, 4, 5];
      desired := [1.0, 2.0, 3.0, 4.0, 5.0];
    }

    method FindMarker(value: real) returns (marker: int)
      requires Marked(heights, positions)
      modifies this`heights
      ensures (marker, heights) == CellOf(old(heights), positions, value)
    {
      if value < heights[0] {
        heights := heights[0 := value];
        return 0;
      }
      if value >= heights[4] {
        heights := heights[4 := value];
        return 3;
      }
      for idx := 0 to 4
        invariant heights == old(heights) && heights[idx] <= value
      {
        if heights[idx] <= value < heights[idx + 1] {
          return idx;
        }
      }
      assert false;  // the fall-through `return 3` is never reached
    }

    method AdjustMarkers()
      requires Sound(State()) && |initial| == 5
      modifies this`heights, this`positions
      ensures State() == AdjustAt(AdjustAt(AdjustAt(old(State()), 1), 2), 3)
    {
      for idx := 1 to 4
        invariant Sound(State()) && |initial| == 5
        invariant State() == match idx
                             case 1 => old(State())
                             case 2 => AdjustAt(old(State()), 1)
                             case 3 => AdjustAt(AdjustAt(old(State()), 1), 2)
                             case _ => AdjustAt(AdjustAt(AdjustAt(old(State()), 1), 2), 3)
      {
        Adjust(idx);
      }
    }

    method Adjust(idx: int)
      requires Sound(State()) && |initial| == 5 && 1 <= idx <= 3
      modifies this`heights, this`positions
      ensures State() == AdjustAt(old(State()), idx)
    {
      var direction := Direction(desired[idx] - positions[idx] as real);
      if direction == 0 || !CanMove(positions, idx, direction) {
        return;
      }
      var candidate := ParabolicHeight(heights, positions, idx, direction);
      if heights[idx - 1] < candidate < heights[idx + 1] {
        heights := heights[idx := candidate];
      } else {
        heights := heights[idx := LinearHeight(heights, positions, idx, direction)];
      }
      positions := positions[idx := positions[idx] + direction];
    }

    /** The exact median of up to four values, and later an estimate inside their range. */
    method Value() returns (r: real)
      requires Valid()
      ensures r == ValueOf(Run(observed))
      ensures observed == [] ==> r == 0.0
      ensures 0 < |observed| < 5 ==> r == Percentile(Sort(observed), 50.0)
      ensures observed != [] ==> exists low, high :: Extremes(low, high, observed) && low <= r <= high
    {
      if observed != [] {
        EstimateInRange(observed);
        if |observed| < 5 {
          StartupKeepsAll(observed);
        } else {
          RunInvariant(observed);
        }
      }
      if |initial| == 0 {
        return 0.0;
      }
      if |initial| < 5 {
        return Percentile(Sort(initial), 50.0);
      }
      return heights[2];
    }
  }
}
