/** Who is cut from a heatmap when not everyone fits, in what order the rows stand, and where the
    representatives lie. */
module HeatmapPriority {
  import opened LiveRows
  import opened Ordering
  import opened Sums
  import opened Fairness
  import opened SteadyStats
  import opened StableSort
  import opened HeatmapRows

  // ----- the order of rows -----

  /** A client without a ratio never stands before one with a ratio, a larger ratio never before a
      smaller one, and equal ratios stand in client order. */
  ghost predicate NotAfter(a: Option<real>, aPlace: int, b: Option<real>, bPlace: int) {
    && (b.Some? ==> a.Some? && a.value <= b.value)
    && (a == b ==> aPlace <= bPlace)
  }

  lemma {:induction false} KeyMeaning(a: Option<real>, aPlace: int, b: Option<real>, bPlace: int)
    ensures KeyLe(a, aPlace, b, bPlace) <==> NotAfter(a, aPlace, b, bPlace)
  {}

  ghost predicate SteadyNotAfter(a: Entry, b: Entry) {
    NotAfter(a.stats.steadyRatio, a.place, b.stats.steadyRatio, b.place)
  }

  ghost predicate WorstNotAfter(a: Entry, b: Entry) {
    NotAfter(a.stats.five.worst, a.place, b.stats.five.worst, b.place)
  }

  lemma {:induction false} BySteadyAt(s: seq<Entry>, i: int, j: int)
    requires |SortBy(s, BySteadyRatio())| == |s| && 0 <= i < j < |s|
    ensures SteadyNotAfter(SortBy(s, BySteadyRatio())[i], SortBy(s, BySteadyRatio())[j])
  {
    var r := SortBy(s, BySteadyRatio());
    OrdersArePreorders();
    SortOrders(s, BySteadyRatio());
    assert BySteadyRatio()(r[i], r[j]);
    KeyMeaning(r[i].stats.steadyRatio, r[i].place, r[j].stats.steadyRatio, r[j].place);
  }

  lemma {:induction false} ByWorstAt(s: seq<Entry>, i: int, j: int)
    requires |SortBy(s, ByWorstWindow())| == |s| && 0 <= i < j < |s|
    ensures WorstNotAfter(SortBy(s, ByWorstWindow())[i], SortBy(s, ByWorstWindow())[j])
  {
    var r := SortBy(s, ByWorstWindow());
    OrdersArePreorders();
    SortOrders(s, ByWorstWindow());
    assert ByWorstWindow()(r[i], r[j]);
    KeyMeaning(r[i].stats.five.worst, r[i].place, r[j].stats.five.worst, r[j].place);
  }

  /** The rows stand in ascending steady ratio, those without one last, ties in client order. */
  lemma {:induction false} RowOrder(all: seq<Entry>, limit: int, i: int, j: int)
    requires DistinctClients(all) && 0 <= i < j < |SelectHeatmapRows(all, limit)|
    ensures SteadyNotAfter(SelectHeatmapRows(all, limit)[i], SelectHeatmapRows(all, limit)[j])
  {
    var rows := RowsSelected(all, limit);
    assert BySteadyRatio()(rows[i], rows[j]);
    KeyMeaning(rows[i].stats.steadyRatio, rows[i].place, rows[j].stats.steadyRatio, rows[j].place);
  }

  // ----- who is cut -----

  ghost predicate HasClass(e: Entry, class_: Class) {
    e.stats.classification == Some(class_)
  }

  /** `a` is shown rather than `b`, a classified client: it is classified too, it is persistent if `b`
      is, and its ratio over the steady window is no larger; two transient clients go by their
      worst 5 s window. */
  ghost predicate ShownRather(a: Entry, b: Entry) {
    && (HasClass(a, Persistent) || HasClass(a, Transient))
    && (HasClass(b, Persistent) ==> HasClass(a, Persistent) && SteadyNotAfter(a, b))
    && (HasClass(b, Transient) && HasClass(a, Transient) ==> WorstNotAfter(a, b))
  }

  lemma {:induction false} PartOf(all: seq<Entry>, class_: Class, le: (Entry, Entry) -> bool)
    requires Distinct(all)
    ensures var r := SortBy(Those(all, class_), le);
            |r| == |Those(all, class_)| && forall i :: 0 <= i < |r| ==> HasClass(r[i], class_)
  {
    ThoseMeaning(all, class_);
    SortDistinct(Those(all, class_), le);
    var r := SortBy(Those(all, class_), le);
    forall i | 0 <= i < |r|
      ensures HasClass(r[i], class_)
    {
      assert r[i] in r;
    }
  }

  lemma {:induction false} RankedRather(all: seq<Entry>, i: int, j: int)
    requires Distinct(all) && 0 <= i < j < |Ranking(all)|
    ensures ShownRather(Ranking(all)[i], Ranking(all)[j])
  {
    PartOf(all, Persistent, BySteadyRatio());
    PartOf(all, Transient, ByWorstWindow());
    var n := |Those(all, Persistent)|;
    if j < n {
      BySteadyAt(Those(all, Persistent), i, j);
    } else if n <= i {
      ByWorstAt(Those(all, Transient), i - n, j - n);
    }
  }

  lemma {:induction false} Beyond(s: seq<Entry>, n: nat, e: Entry) returns (j: nat)
    requires e in s && n <= |s| && e !in s[..n]
    ensures n <= j < |s| && s[j] == e
  {
    assert s == s[..n] + s[n..];
    var i :| 0 <= i < |s[n..]| && s[n..][i] == e;
    j := n + i;
  }

  /** No one is cut before his time: if a classified client is not among the rows, every row is of a
      classified client, no transient one is shown while a persistent one is left out, and within
      each class the worse are shown. */
  lemma {:induction false} CutLast(all: seq<Entry>, limit: int, shown: Entry, cut: Entry)
    requires DistinctClients(all) && shown in SelectHeatmapRows(all, limit)
    requires cut in all && cut !in SelectHeatmapRows(all, limit)
    requires HasClass(cut, Persistent) || HasClass(cut, Transient)
    ensures ShownRather(shown, cut)
  {
    var rows := RowsSelected(all, limit);
    var ranking := Ranking(all);
    assert Distinct(all);
    RankingMeaning(all);
    assert cut in ranking && 0 < limit < |ranking|;
    var i :| 0 <= i < limit && ranking[..limit][i] == shown;
    var j := Beyond(ranking, limit, cut);
    RankedRather(all, i, j);
  }

  // ----- representatives -----

  lemma {:induction false} RestMeaning(all: seq<Entry>)
    requires DistinctClients(all)
    ensures forall e :: e in Rest(all) <==> e in all && !HasClass(e, Persistent) && !HasClass(e, Transient)
    ensures forall i, j :: 0 <= i < j < |Rest(all)| ==> SteadyNotAfter(Rest(all)[i], Rest(all)[j])
  {
    assert Distinct(all);
    var rest := Without(all, Ranking(all));
    RankingMeaning(all);
    WithoutMeaning(all, Ranking(all));
    SortDistinct(rest, BySteadyRatio());
    forall i, j | 0 <= i < j < |Rest(all)|
      ensures SteadyNotAfter(Rest(all)[i], Rest(all)[j])
    {
      BySteadyAt(rest, i, j);
    }
  }

  /** The `k`-th of `gaps + 1` evenly spaced places of `last + 1`, to the nearest. */
  lemma {:induction false} IndexMeaning(i: nat, last: nat, gaps: nat)
    requires 0 < gaps < last && i <= gaps
    ensures 2 * (Index(i, last, gaps) * gaps - i * last) <= gaps
    ensures 2 * (i * last - Index(i, last, gaps) * gaps) <= gaps
  {
    var k, x := Index(i, last, gaps), IdealIndex(i, last, gaps);
    RoundNearest(x);
    assert Mul(x, gaps as real) == Mul(i as real, last as real);
    Product(0.5 - (x - k as real), gaps as real);
    Product(0.5 + (x - k as real), gaps as real);
    NearestPlace(k, i, last, gaps);
  }

  lemma {:induction false} NearestPlace(k: int, i: int, last: int, gaps: int)
    requires -(gaps as real) <= 2.0 * (Mul(k as real, gaps as real) - Mul(i as real, last as real)) <= gaps as real
    ensures 2 * (k * gaps - i * last) <= gaps && 2 * (i * last - k * gaps) <= gaps
  {
    var a, b := k * gaps, i * last;
    assert Mul(k as real, gaps as real) == a as real && Mul(i as real, last as real) == b as real;
    assert 2 * (a - b) <= gaps && 2 * (b - a) <= gaps;
  }

  /** Of more values than fit, the middle one if one fits, otherwise those nearest to an even
      spacing from the first to the last. */
  lemma {:induction false} RepresentativeAt<T>(values: seq<T>, limit: int, i: nat) returns (k: nat)
    requires 0 <= i < limit < |values|
    ensures k < |values| && |Representatives(values, limit)| == limit && Representatives(values, limit)[i] == values[k]
    ensures limit == 1 ==> k == |values| / 2
    ensures limit > 1 ==>
              && 2 * (k * (limit - 1) - i * (|values| - 1)) <= limit - 1
              && 2 * (i * (|values| - 1) - k * (limit - 1)) <= limit - 1
  {
    if limit == 1 {
      k := |values| / 2;
    } else {
      k := Index(i, |values| - 1, limit - 1);
      IndexMeaning(i, |values| - 1, limit - 1);
    }
  }

  lemma {:induction false} RowsArePicked(all: seq<Entry>, chosen: seq<Entry>, limit: nat, e: Entry)
    requires DistinctClients(all) && Distinct(chosen) && Within(chosen, all) && |chosen| <= limit
    ensures e in Supplemented(all, chosen, limit) <==> e in chosen || e in Others(all, chosen, limit - |chosen|)
  {
    assert Distinct(all);
    Picked(all, chosen, limit);
    SortedRows(all, chosen + Others(all, chosen, limit - |chosen|));
  }

  lemma {:induction false} AllFit(all: seq<Entry>, limit: int)
    requires |Ranking(all)| <= limit && limit > 0
    ensures SelectHeatmapRows(all, limit) == Supplemented(all, Ranking(all), limit)
  {
    assert ClassifiedClients(all, limit) == Ranking(all);
  }

  lemma {:induction false} RankedExactly(all: seq<Entry>, e: Entry)
    requires DistinctClients(all)
    ensures e in Ranking(all) <==> e in all && (HasClass(e, Persistent) || HasClass(e, Transient))
  {
    assert Distinct(all);
    RankingMeaning(all);
  }

  lemma {:induction false} RowsAreRanked(all: seq<Entry>, limit: int, e: Entry)
    requires DistinctClients(all) && |Ranking(all)| <= limit
    ensures e in Supplemented(all, Ranking(all), limit) <==> e in Ranking(all) || e in Extra(all, limit)
  {
    assert Distinct(all);
    RankingMeaning(all);
    RowsArePicked(all, Ranking(all), limit, e);
  }

  /** When the classified clients fit, the rows are theirs and those of the representatives of the
      rest, for whom the other slots are. */
  lemma {:induction false} RowsFilled(all: seq<Entry>, limit: int, e: Entry)
    requires DistinctClients(all) && |Ranking(all)| <= limit && limit > 0
    ensures e in SelectHeatmapRows(all, limit)
            <==> (e in all && (HasClass(e, Persistent) || HasClass(e, Transient))) || e in Extra(all, limit)
  {
    RankedExactly(all, e);
    RowsAreRanked(all, limit, e);
    AllFit(all, limit);
  }

  /** The representatives that take the slots the classified clients leave. */
  ghost function Extra(all: seq<Entry>, limit: int): seq<Entry> {
    Representatives(Rest(all), limit - |Ranking(all)|)
  }
}
