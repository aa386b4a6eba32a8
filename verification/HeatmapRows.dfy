/** Which clients a heatmap shows: the classified ones, then representatives of the rest. */
module HeatmapRows {
  import opened LiveRows
  import opened Ordering
  import opened Sums
  import opened Fairness
  import opened SteadyStats
  import opened StableSort

  /** A client of the steady analysis; `place` is its place in `client_sort_key` order. */
  datatype Entry = Entry(client: ClientId, stats: ClientSteady, place: int)

  // ----- evenly spaced representatives -----

  lemma {:induction false} RoundNearest(x: real)
    ensures var r := RoundHalfEven(x);
            && -0.5 <= x - r as real <= 0.5
            && (x - r as real == 0.5 || r as real - x == 0.5 ==> r % 2 == 0)
  {}

  lemma {:induction false} RoundMonotone(x: real, y: real)
    requires x <= y
    ensures RoundHalfEven(x) <= RoundHalfEven(y)
  {
    assert x.Floor <= y.Floor;
  }

  /** Rounding keeps numbers apart at a spacing exactly when the spacing exceeds 1: at 1
      itself, 1.5 and 2.5 both round to 2. */
  lemma {:induction false} SpacingKeptApart(spacing: real)
    ensures (forall x :: RoundHalfEven(x) < RoundHalfEven(x + spacing)) <==> spacing > 1.0
  {
    if spacing > 1.0 {
      forall x
        ensures RoundHalfEven(x) < RoundHalfEven(x + spacing)
      {
        RoundStrict(x, x + spacing);
      }
    } else {
      RoundMonotone(1.5 + spacing, 2.5);
      assert RoundHalfEven(1.5) == 2 && RoundHalfEven(2.5) == 2;
    }
  }

  lemma {:induction false} RoundStrict(x: real, y: real)
    requires y - x > 1.0
    ensures RoundHalfEven(x) < RoundHalfEven(y)
  {
    RoundNearest(x);
    RoundNearest(y);
    var a, b := RoundHalfEven(x), RoundHalfEven(y);
    assert b as real > a as real;
  }

  function IdealIndex(i: nat, last: nat, gaps: nat): real
    requires gaps > 0
  {
    Mul(i as real, last as real) / gaps as real
  }

  lemma {:induction false} IdealSpacing(i: nat, j: nat, last: nat, gaps: nat)
    requires 0 < gaps < last && i < j
    ensures IdealIndex(j, last, gaps) - IdealIndex(i, last, gaps) > 1.0
  {
    Steps(i as real, j as real, last as real);
    Quotients(Mul(i as real, last as real), Mul(j as real, last as real), last as real, gaps as real);
  }

  lemma {:induction false} Steps(i: real, j: real, last: real)
    requires i + 1.0 <= j && last >= 0.0
    ensures Mul(j, last) >= Mul(i, last) + last
  {
    var more := j - i - 1.0;
    Product(more, last);
    assert j * last == i * last + last + more * last;
  }

  lemma {:induction false} Quotients(a: real, b: real, last: real, gaps: real)
    requires b >= a + last && last > gaps > 0.0
    ensures b / gaps - a / gaps > 1.0
  {
    var x, y := a / gaps, b / gaps;
    assert x * gaps == a && y * gaps == b;
    assert Mul(y - x - 1.0, gaps) > 0.0;
    assert (1.0 + x - y) * gaps == -Mul(y - x - 1.0, gaps);
    if y - x - 1.0 <= 0.0 {
      Product(1.0 + x - y, gaps);
    }
  }

  lemma {:induction false} WholeSpan(last: nat, gaps: nat)
    requires gaps > 0
    ensures IdealIndex(gaps, last, gaps) == last as real && IdealIndex(0, last, gaps) == 0.0
  {
    Cancel(gaps as real, last as real);
  }

  lemma {:induction false} Cancel(g: real, x: real)
    requires g > 0.0
    ensures Mul(g, x) / g == x && Mul(0.0, x) / g == 0.0
  {
    assert g * x / g == x;
  }

  /** The index of the `i`-th of `gaps + 1` representatives of `last + 1` values. */
  function Index(i: nat, last: nat, gaps: nat): (r: nat)
    requires 0 < gaps < last && i <= gaps
    ensures r <= last
    ensures i == 0 ==> r == 0
    ensures i == gaps ==> r == last
  {
    IndexInRange(i, last, gaps);
    RoundHalfEven(IdealIndex(i, last, gaps))
  }

  lemma {:induction false} IndexInRange(i: nat, last: nat, gaps: nat)
    requires 0 < gaps < last && i <= gaps
    ensures 0 <= RoundHalfEven(IdealIndex(i, last, gaps)) <= last
    ensures i == 0 ==> RoundHalfEven(IdealIndex(i, last, gaps)) == 0
    ensures i == gaps ==> RoundHalfEven(IdealIndex(i, last, gaps)) == last
  {
    WholeSpan(last, gaps);
    if 0 < i {
      IdealSpacing(0, i, last, gaps);
      RoundStrict(0.0, IdealIndex(i, last, gaps));
    }
    if i < gaps {
      IdealSpacing(i, gaps, last, gaps);
      RoundStrict(IdealIndex(i, last, gaps), last as real);
    }
  }

  /** No representative is taken twice. */
  lemma {:induction false} IndexIncreases(i: nat, j: nat, last: nat, gaps: nat)
    requires 0 < gaps < last && i < j <= gaps
    ensures Index(i, last, gaps) < Index(j, last, gaps)
  {
    IdealSpacing(i, j, last, gaps);
    RoundStrict(IdealIndex(i, last, gaps), IdealIndex(j, last, gaps));
  }

  /** `_representative_values`. */
  function Representatives<T>(values: seq<T>, limit: int): (r: seq<T>) {
    if limit <= 0 || values == [] then []
    else if |values| <= limit then values
    else if limit == 1 then [values[|values| / 2]]
    else seq(limit, i requires 0 <= i < limit => values[Index(i, |values| - 1, limit - 1)])
  }

  function Smaller(a: int, b: int): int {
    if a <= b then a else b
  }

  function AtLeastZero(a: int): nat {
    if a <= 0 then 0 else a
  }

  /** As many values as fit, none twice, in their order, and both ends when two fit. */
  lemma {:induction false} RepresentativesSpread<T>(values: seq<T>, limit: int)
    requires Distinct(values)
    ensures var r := Representatives(values, limit);
            && |r| == Smaller(AtLeastZero(limit), |values|)
            && Distinct(r)
            && Within(r, values)
            && (limit >= 2 && |values| >= 2 ==> r[0] == values[0] && r[|r| - 1] == values[|values| - 1])
  {
    if 2 <= limit < |values| {
      SpreadDistinct(values, limit);
    }
  }

  lemma {:induction false} SpreadDistinct<T>(values: seq<T>, limit: int)
    requires Distinct(values) && 2 <= limit < |values|
    ensures Distinct(Representatives(values, limit)) && Within(Representatives(values, limit), values)
  {
    var r := Representatives(values, limit);
    forall i, j | 0 <= i < j < |r|
      ensures r[i] != r[j]
    {
      IndexIncreases(i, j, |values| - 1, limit - 1);
    }
  }

  // ----- choosing -----

  /** `_ratio_key` then client order: None last. */
  predicate KeyLe(a: Option<real>, aPlace: int, b: Option<real>, bPlace: int) {
    if a.None? then b.None? && aPlace <= bPlace
    else b.None? || a.value < b.value || (a.value == b.value && aPlace <= bPlace)
  }

  function BySteadyRatio(): (Entry, Entry) -> bool {
    (a: Entry, b: Entry) => KeyLe(a.stats.steadyRatio, a.place, b.stats.steadyRatio, b.place)
  }

  function ByWorstWindow(): (Entry, Entry) -> bool {
    (a: Entry, b: Entry) => KeyLe(a.stats.five.worst, a.place, b.stats.five.worst, b.place)
  }

  lemma {:induction false} OrdersArePreorders()
    ensures Preorder(BySteadyRatio()) && Preorder(ByWorstWindow())
  {}

  function Those(all: seq<Entry>, class_: Class): seq<Entry> {
    if all == [] then []
    else
      Those(all[..|all| - 1], class_)
      + if all[|all| - 1].stats.classification == Some(class_) then [all[|all| - 1]] else []
  }

  lemma {:induction false} ThoseMeaning(all: seq<Entry>, class_: Class)
    requires Distinct(all)
    ensures Distinct(Those(all, class_))
    ensures forall e :: e in Those(all, class_) <==> e in all && e.stats.classification == Some(class_)
  {
    if all != [] {
      var n := |all| - 1;
      ThoseMeaning(all[..n], class_);
      assert all == all[..n] + [all[n]];
      assert all[n] !in all[..n];
    }
  }

  /** Who is shown first: the persistent by steady ratio, then the transient by worst window. */
  function Ranking(all: seq<Entry>): seq<Entry> {
    SortBy(Those(all, Persistent), BySteadyRatio()) + SortBy(Those(all, Transient), ByWorstWindow())
  }

  predicate IsClassified(e: Entry) {
    e.stats.classification == Some(Persistent) || e.stats.classification == Some(Transient)
  }

  lemma {:induction false} RankingMeaning(all: seq<Entry>)
    requires Distinct(all)
    ensures Distinct(Ranking(all))
    ensures forall e :: e in Ranking(all) <==> e in all && IsClassified(e)
  {
    ThoseMeaning(all, Persistent);
    ThoseMeaning(all, Transient);
    SortDistinct(Those(all, Persistent), BySteadyRatio());
    SortDistinct(Those(all, Transient), ByWorstWindow());
    var a := SortBy(Those(all, Persistent), BySteadyRatio());
    var b := SortBy(Those(all, Transient), ByWorstWindow());
    forall i, j | 0 <= i < |a| && 0 <= j < |b|
      ensures a[i] != b[j]
    {
      assert a[i] in a && b[j] in b;
    }
  }

  /** `classified_clients`. */
  function ClassifiedClients(all: seq<Entry>, limit: int): seq<Entry> {
    if limit <= 0 then [] else Ranking(all)[..Smaller(limit, |Ranking(all)|)]
  }

  function Without(all: seq<Entry>, chosen: seq<Entry>): seq<Entry> {
    if all == [] then []
    else
      Without(all[..|all| - 1], chosen)
      + if all[|all| - 1] in chosen then [] else [all[|all| - 1]]
  }

  lemma {:induction false} WithoutMeaning(all: seq<Entry>, chosen: seq<Entry>)
    requires Distinct(all)
    ensures Distinct(Without(all, chosen))
    ensures forall e :: e in Without(all, chosen) <==> e in all && e !in chosen
  {
    if all != [] {
      var n := |all| - 1;
      WithoutMeaning(all[..n], chosen);
      assert all == all[..n] + [all[n]];
      assert all[n] !in all[..n];
    }
  }

  lemma {:induction false} DistinctSize(s: seq<Entry>)
    requires Distinct(s)
    ensures |set e | e in s| == |s|
  {
    if s != [] {
      var n := |s| - 1;
      DistinctSize(s[..n]);
      assert s == s[..n] + [s[n]];
      assert s[n] !in s[..n];
      assert (set e | e in s) == (set e | e in s[..n]) + {s[n]};
    }
  }

  lemma {:induction false} WithoutSize(all: seq<Entry>, chosen: seq<Entry>)
    requires Distinct(all) && Distinct(chosen) && forall e :: e in chosen ==> e in all
    ensures |Without(all, chosen)| == |all| - |chosen|
  {
    WithoutMeaning(all, chosen);
    DistinctSize(all);
    DistinctSize(chosen);
    DistinctSize(Without(all, chosen));
    var a, c := set e | e in all, set e | e in chosen;
    assert c <= a;
    assert (set e | e in Without(all, chosen)) == a - c;
  }

  /** Representatives of those not chosen yet. */
  function Others(all: seq<Entry>, chosen: seq<Entry>, room: int): seq<Entry> {
    Representatives(SortBy(Without(all, chosen), BySteadyRatio()), room)
  }

  /** `select_heatmap_rows`. */
  function SelectHeatmapRows(all: seq<Entry>, limit: int): seq<Entry> {
    if limit <= 0 then []
    else
      Supplemented(all, ClassifiedClients(all, limit), limit)
  }

  /** The chosen entries and as many others as there is room for, by steady ratio. */
  function Supplemented(all: seq<Entry>, chosen: seq<Entry>, limit: int): seq<Entry> {
    SortBy(chosen + Others(all, chosen, limit - |chosen|), BySteadyRatio())
  }

  ghost predicate Apart(s: seq<Entry>, t: seq<Entry>) {
    forall e :: e in s ==> e !in t
  }

  lemma {:induction false} OthersMeaning(all: seq<Entry>, chosen: seq<Entry>, room: nat)
    requires Distinct(all) && Distinct(chosen) && Within(chosen, all)
    ensures var others := Others(all, chosen, room);
            && |others| == Smaller(room, |all| - |chosen|)
            && Distinct(others) && Within(others, all) && Apart(others, chosen)
  {
    var rest := Without(all, chosen);
    var sorted := SortBy(rest, BySteadyRatio());
    WithoutMeaning(all, chosen);
    WithoutSize(all, chosen);
    SortDistinct(rest, BySteadyRatio());
    RepresentativesSpread(sorted, room);
    Chain(Representatives(sorted, room), sorted, rest);
    assert Apart(rest, chosen) && Within(rest, all);
  }

  lemma {:induction false} Chain(a: seq<Entry>, b: seq<Entry>, c: seq<Entry>)
    requires Within(a, b) && Within(b, c)
    ensures Within(a, c)
  {}

  lemma {:induction false} Joined(chosen: seq<Entry>, more: seq<Entry>, all: seq<Entry>)
    requires Distinct(chosen) && Distinct(more) && Apart(more, chosen)
    requires Within(chosen, all) && Within(more, all)
    ensures Distinct(chosen + more) && Within(chosen + more, all) && Within(chosen, chosen + more)
  {
    forall i, j | 0 <= i < |chosen| && 0 <= j < |more|
      ensures chosen[i] != more[j]
    {
      assert more[j] in more;
    }
  }

  lemma {:induction false} ChosenMeaning(all: seq<Entry>, limit: int)
    requires Distinct(all) && limit > 0
    ensures var chosen := ClassifiedClients(all, limit);
            Distinct(chosen) && Within(chosen, all) && |chosen| == Smaller(limit, |Ranking(all)|)
  {
    RankingMeaning(all);
    var ranking := Ranking(all);
    assert Within(ranking, all);
    Chain(ClassifiedClients(all, limit), ranking, all);
  }

  ghost predicate DistinctClients(s: seq<Entry>) {
    forall i, j :: 0 <= i < j < |s| ==> s[i].client != s[j].client
  }

  /** `rows` are `min(limit, |all|)` different clients of `all`, in steady-ratio order. */
  ghost predicate Shows(rows: seq<Entry>, all: seq<Entry>, limit: nat) {
    && |rows| == Smaller(limit, |all|)
    && DistinctClients(rows) && Within(rows, all) && Ordered(rows, BySteadyRatio())
  }

  lemma {:induction false} ClientsStayDistinct(all: seq<Entry>, rows: seq<Entry>)
    requires DistinctClients(all) && Distinct(rows) && Within(rows, all)
    ensures DistinctClients(rows)
  {
    forall i, j | 0 <= i < j < |rows|
      ensures rows[i].client != rows[j].client
    {
      assert rows[i] in all && rows[j] in all;
      var k :| 0 <= k < |all| && all[k] == rows[i];
      var l :| 0 <= l < |all| && all[l] == rows[j];
      assert k != l;
    }
  }

  lemma {:induction false} SortedRows(all: seq<Entry>, picked: seq<Entry>)
    requires DistinctClients(all) && Distinct(picked) && Within(picked, all)
    ensures var rows := SortBy(picked, BySteadyRatio());
            && |rows| == |picked| && DistinctClients(rows) && Within(rows, all)
            && Ordered(rows, BySteadyRatio()) && Within(picked, rows) && Within(rows, picked)
  {
    SortDistinct(picked, BySteadyRatio());
    Chain(SortBy(picked, BySteadyRatio()), picked, all);
    OrdersArePreorders();
    SortOrders(picked, BySteadyRatio());
    ClientsStayDistinct(all, SortBy(picked, BySteadyRatio()));
  }

  /** What the chosen clients and their supplement come to. */
  lemma {:induction false} Picked(all: seq<Entry>, chosen: seq<Entry>, limit: nat)
    requires DistinctClients(all) && Distinct(chosen) && Within(chosen, all) && |chosen| <= limit
    ensures var picked := chosen + Others(all, chosen, limit - |chosen|);
            && |picked| == Smaller(limit, |all|) && Distinct(picked) && Within(picked, all)
            && Within(chosen, picked) && (|chosen| == limit ==> picked == chosen)
  {
    assert Distinct(all);
    OthersMeaning(all, chosen, limit - |chosen|);
    WithoutSize(all, chosen);
    Joined(chosen, Others(all, chosen, limit - |chosen|), all);
  }

  lemma {:induction false} SupplementedShows(all: seq<Entry>, chosen: seq<Entry>, limit: nat)
    requires DistinctClients(all) && Distinct(chosen) && Within(chosen, all) && |chosen| <= limit
    ensures Shows(Supplemented(all, chosen, limit), all, limit)
    ensures Within(chosen, Supplemented(all, chosen, limit))
    ensures Within(Others(all, chosen, limit - |chosen|), Supplemented(all, chosen, limit))
    ensures |chosen| == limit ==> Within(Supplemented(all, chosen, limit), chosen)
  {
    Picked(all, chosen, limit);
    var others := Others(all, chosen, limit - |chosen|);
    var picked := chosen + others;
    SortedRows(all, picked);
    Chain(chosen, picked, SortBy(picked, BySteadyRatio()));
    SecondPart(chosen, others);
    Chain(others, picked, SortBy(picked, BySteadyRatio()));
  }

  lemma {:induction false} SecondPart(a: seq<Entry>, b: seq<Entry>)
    ensures Within(b, a + b)
  {}

  /** The clients outside the ranking, by steady ratio. */
  function Rest(all: seq<Entry>): seq<Entry> {
    SortBy(Without(all, Ranking(all)), BySteadyRatio())
  }

  /** Free slots go to representatives of the rest: both ends of it when two are free, everyone
      when there is room. */
  lemma {:induction false} FreeSlots(all: seq<Entry>, limit: nat)
    requires DistinctClients(all) && |Ranking(all)| <= limit && limit > 0
    ensures var rest, rows := Rest(all), SelectHeatmapRows(all, limit);
            && |rest| == |all| - |Ranking(all)|
            && (|rest| >= 2 && limit - |Ranking(all)| >= 2 ==> rest[0] in rows && rest[|rest| - 1] in rows)
            && (|all| <= limit ==> Within(rest, rows))
  {
    var ranking, rest := Ranking(all), Rest(all);
    var others := Others(all, ranking, limit - |ranking|);
    ChosenMeaning(all, limit);
    assert ClassifiedClients(all, limit) == ranking;
    SupplementedShows(all, ranking, limit);
    RestSize(all, ranking);
    RepresentativesSpread(rest, limit - |ranking|);
    if |rest| >= 2 && limit - |ranking| >= 2 {
      assert others[0] in others && others[|others| - 1] in others;
    }
  }

  lemma {:induction false} RestSize(all: seq<Entry>, ranking: seq<Entry>)
    requires DistinctClients(all) && Distinct(ranking) && Within(ranking, all)
    ensures var rest := SortBy(Without(all, ranking), BySteadyRatio());
            |rest| == |all| - |ranking| && Distinct(rest)
  {
    assert Distinct(all);
    WithoutMeaning(all, ranking);
    WithoutSize(all, ranking);
    SortDistinct(Without(all, ranking), BySteadyRatio());
  }

  /** Exactly `min(limit, clients)` distinct clients of the analysis, by steady ratio.  Every
      classified client is shown when they fit, and the ends of the rest if two more fit;
      otherwise the first `limit` of the ranking are, and nothing else. */
  lemma {:induction false} RowsSelected(all: seq<Entry>, limit: int) returns (rows: seq<Entry>)
    requires DistinctClients(all)
    ensures rows == SelectHeatmapRows(all, limit) && Shows(rows, all, AtLeastZero(limit))
    ensures |Ranking(all)| <= limit ==> Within(Ranking(all), rows)
    ensures 0 <= limit <= |Ranking(all)| ==> Within(rows, Ranking(all)[..limit]) && Within(Ranking(all)[..limit], rows)
    ensures var rest := Rest(all);
            |rest| >= 2 && limit - |Ranking(all)| >= 2 ==> rest[0] in rows && rest[|rest| - 1] in rows
  {
    rows := SelectHeatmapRows(all, limit);
    if limit > 0 {
      ClassifiedFirst(all, limit);
      if |Ranking(all)| <= limit {
        FreeSlots(all, limit);
      }
    }
  }

  lemma {:induction false} ClassifiedFirst(all: seq<Entry>, limit: nat)
    requires DistinctClients(all) && limit > 0
    ensures var rows := SelectHeatmapRows(all, limit);
            && Shows(rows, all, limit)
            && (|Ranking(all)| <= limit ==> Within(Ranking(all), rows))
            && (limit <= |Ranking(all)| ==> Within(rows, Ranking(all)[..limit]) && Within(Ranking(all)[..limit], rows))
  {
    var chosen := ClassifiedClients(all, limit);
    ChosenMeaning(all, limit);
    SupplementedShows(all, chosen, limit);
    assert |Ranking(all)| <= limit ==> chosen == Ranking(all);
  }
}
