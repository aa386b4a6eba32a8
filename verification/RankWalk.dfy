/** Average ranks with ties, as Spearman's correlation needs them. */
module RankWalk {
  import opened Ordering

  // ----- the meaning of a rank -----

  function CountLess(s: seq<real>, x: real): nat {
    if s == [] then 0 else CountLess(s[..|s| - 1], x) + if s[|s| - 1] < x then 1 else 0
  }

  function CountEqual(s: seq<real>, x: real): nat {
    if s == [] then 0 else CountEqual(s[..|s| - 1], x) + if s[|s| - 1] == x then 1 else 0
  }

  function CountGreater(s: seq<real>, x: real): nat {
    if s == [] then 0 else CountGreater(s[..|s| - 1], x) + if s[|s| - 1] > x then 1 else 0
  }

  /** 1-based rank by counting: those smaller, and half of those equal. */
  function Rank(s: seq<real>, x: real): real {
    CountLess(s, x) as real + (CountEqual(s, x) + 1) as real / 2.0
  }

  // ----- sorting indices -----

  ghost predicate Indices(order: seq<nat>, n: nat) {
    forall k :: 0 <= k < |order| ==> order[k] < n
  }

  ghost function At(values: seq<real>, order: seq<nat>): (r: seq<real>)
    requires Indices(order, |values|)
    ensures |r| == |order|
  {
    seq(|order|, k requires 0 <= k < |order| => values[order[k]])
  }

  ghost predicate Permutes(order: seq<nat>, n: nat) {
    && |order| == n && Indices(order, n)
    && (forall i, j :: 0 <= i < j < n ==> order[i] != order[j])
    && (forall i: nat :: i < n ==> i in order)
  }

  ghost predicate SameCounts(s: seq<real>, t: seq<real>) {
    forall x :: CountLess(s, x) == CountLess(t, x) && CountEqual(s, x) == CountEqual(t, x)
  }

  /** Every index once, values ascending: `sorted(range(n), key=...)`. */
  ghost predicate Sorts(order: seq<nat>, values: seq<real>, n: nat)
    requires n <= |values|
  {
    Permutes(order, n) && Ascending(At(values, order)) && SameCounts(At(values, order), values[..n])
  }

  lemma {:induction false} CountInserted(a: seq<real>, b: seq<real>, y: real, x: real)
    ensures CountLess(a + [y] + b, x) == CountLess(a + b, x) + if y < x then 1 else 0
    ensures CountEqual(a + [y] + b, x) == CountEqual(a + b, x) + if y == x then 1 else 0
  {
    if b == [] {
      assert (a + [y] + b)[..|a|] == a && a + b == a;
    } else {
      var n := |b| - 1;
      CountInserted(a, b[..n], y, x);
      assert (a + [y] + b)[..|a| + 1 + n] == a + [y] + b[..n];
      assert (a + b)[..|a| + n] == a + b[..n];
    }
  }

  method SortIndices(values: seq<real>) returns (order: seq<nat>)
    ensures Sorts(order, values, |values|)
  {
    order := [];
    for n := 0 to |values|
      invariant Sorts(order, values, n)
    {
      var k := n;
      while k > 0 && values[order[k - 1]] > values[n]
        invariant 0 <= k <= n
        invariant forall j :: k <= j < n ==> values[order[j]] > values[n]
      {
        k := k - 1;
      }
      InsertIndex(values, order, n, k);
      order := order[..k] + [n] + order[k..];
    }
    assert values[..|values|] == values;
  }

  lemma {:induction false} InsertIndex(values: seq<real>, order: seq<nat>, n: nat, k: nat)
    requires n < |values| && Sorts(order, values, n) && k <= n
    requires forall j :: k <= j < n ==> values[order[j]] > values[n]
    requires k > 0 ==> values[order[k - 1]] <= values[n]
    ensures Sorts(order[..k] + [n] + order[k..], values, n + 1)
  {
    var s := At(values, order);
    InsertPermutes(order, n, k);
    InsertAt(values, order, n, k);
    InsertAscending(s, values[n], k);
    InsertCounts(s, values, n, k);
  }

  lemma {:induction false} InsertAt(values: seq<real>, order: seq<nat>, n: nat, k: nat)
    requires n < |values| && Indices(order, |values|) && k <= |order|
    ensures Indices(order[..k] + [n] + order[k..], |values|)
    ensures At(values, order[..k] + [n] + order[k..])
            == At(values, order)[..k] + [values[n]] + At(values, order)[k..]
  {}

  lemma {:induction false} InsertCounts(s: seq<real>, values: seq<real>, n: nat, k: nat)
    requires n < |values| && SameCounts(s, values[..n]) && k <= |s|
    ensures SameCounts(s[..k] + [values[n]] + s[k..], values[..n + 1])
  {
    forall x
      ensures CountLess(s[..k] + [values[n]] + s[k..], x) == CountLess(values[..n + 1], x)
      ensures CountEqual(s[..k] + [values[n]] + s[k..], x) == CountEqual(values[..n + 1], x)
    {
      CountInserted(s[..k], s[k..], values[n], x);
      assert s == s[..k] + s[k..];
      assert values[..n + 1][..n] == values[..n];
    }
  }

  lemma {:induction false} InsertAscending(s: seq<real>, y: real, k: nat)
    requires Ascending(s) && k <= |s|
    requires forall j :: k <= j < |s| ==> s[j] > y
    requires k > 0 ==> s[k - 1] <= y
    ensures Ascending(s[..k] + [y] + s[k..])
  {}

  lemma {:induction false} InsertPermutes(order: seq<nat>, n: nat, k: nat)
    requires Permutes(order, n) && k <= n
    ensures Permutes(order[..k] + [n] + order[k..], n + 1)
  {
    var more := order[..k] + [n] + order[k..];
    forall i: nat | i < n + 1
      ensures i in more
    {
      if i == n {
        assert more[k] == n;
      } else {
        assert i in order;
        var j: nat :| j < n && order[j] == i;
        assert more[if j < k then j else j + 1] == i;
      }
    }
  }

  // ----- the walk -----

  /** In an ascending sequence, the run of values equal to `s[p]` is counted by its ends. */
  lemma {:induction false} RunCounts(s: seq<real>, x: real, p: nat, q: nat)
    requires Ascending(s) && p <= q <= |s|
    requires forall k :: 0 <= k < p ==> s[k] < x
    requires forall k :: p <= k < q ==> s[k] == x
    requires forall k :: q <= k < |s| ==> s[k] > x
    ensures CountLess(s, x) == p && CountEqual(s, x) == q - p
  {
    if s != [] {
      var n := |s| - 1;
      if q == |s| {
        if p == q {
          RunCounts(s[..n], x, p - 1, q - 1);
        } else {
          RunCounts(s[..n], x, p, q - 1);
        }
      } else {
        RunCounts(s[..n], x, p, q);
      }
    }
  }

  /** The first `done` positions of the order have their ranks. */
  ghost predicate Ranked(cells: seq<real>, order: seq<nat>, values: seq<real>, done: nat)
    requires |cells| == |values| && Indices(order, |values|)
  {
    forall k :: 0 <= k < |order| && k < done ==> cells[order[k]] == Rank(values, values[order[k]])
  }

  lemma {:induction false} RankOne(cells: seq<real>, order: seq<nat>, values: seq<real>, k: nat)
    requires |cells| == |values| && Permutes(order, |values|) && k < |values|
    requires Ranked(cells, order, values, k)
    ensures Ranked(cells[order[k] := Rank(values, values[order[k]])], order, values, k + 1)
  {}

  lemma {:induction false} RankedAll(cells: seq<real>, order: seq<nat>, values: seq<real>, i: nat)
    requires |cells| == |values| && Permutes(order, |values|) && i < |values|
    requires Ranked(cells, order, values, |values|)
    ensures cells[i] == Rank(values, values[i])
  {
    assert i in order;
    var k: nat :| k < |values| && order[k] == i;
  }

  /** The last position of the run of ties that starts at `position`. */
  method TieEnd(s: seq<real>, order: seq<nat>, position: nat) returns (tieEnd: nat)
    requires Indices(order, |s|) && position < |order|
    ensures position <= tieEnd < |order|
    ensures forall k :: position <= k <= tieEnd ==> At(s, order)[k] == At(s, order)[position]
    ensures tieEnd + 1 < |order| ==> At(s, order)[tieEnd + 1] != At(s, order)[position]
  {
    tieEnd := position;
    while tieEnd + 1 < |order| && s[order[tieEnd + 1]] == s[order[position]]
      invariant position <= tieEnd < |order|
      invariant forall k :: position <= k <= tieEnd ==> At(s, order)[k] == At(s, order)[position]
    {
      tieEnd := tieEnd + 1;
    }
  }

  /** `_average_ranks`: the nested walk over runs of ties gives every value its rank. */
  method AverageRanks(values: seq<real>) returns (ranks: seq<real>)
    ensures |ranks| == |values|
    ensures forall i :: 0 <= i < |values| ==> ranks[i] == Rank(values, values[i])
  {
    var order := SortIndices(values);
    assert values[..|values|] == values;
    ghost var s := At(values, order);
    ranks := seq(|values|, _ => 0.0);
    var position := 0;
    while position < |values|
      invariant 0 <= position <= |values| == |ranks|
      invariant 0 < position < |values| ==> s[position - 1] < s[position]
      invariant Ranked(ranks, order, values, position)
    {
      var tieEnd := TieEnd(values, order, position);
      var average := (position + tieEnd) as real / 2.0 + 1.0;
      RunRank(s, values, position, tieEnd, average);
      for k := position to tieEnd + 1
        invariant |ranks| == |values| && Ranked(ranks, order, values, k)
      {
        assert values[order[k]] == s[k];
        RankOne(ranks, order, values, k);
        ranks := ranks[order[k] := average];
      }
      position := tieEnd + 1;
    }
    forall i | 0 <= i < |values|
      ensures ranks[i] == Rank(values, values[i])
    {
      RankedAll(ranks, order, values, i);
    }
  }

  lemma {:induction false} RunRank(s: seq<real>, values: seq<real>, position: nat, tieEnd: nat, average: real)
    requires Ascending(s) && position <= tieEnd < |s|
    requires position == 0 || s[position - 1] < s[position]
    requires forall k :: position <= k <= tieEnd ==> s[k] == s[position]
    requires tieEnd + 1 < |s| ==> s[tieEnd + 1] != s[position]
    requires SameCounts(s, values)
    requires average == (position + tieEnd) as real / 2.0 + 1.0
    ensures Rank(values, s[position]) == average
  {
    var x := s[position];
    RunCounts(s, x, position, tieEnd + 1);
    assert CountLess(values, x) == position && CountEqual(values, x) == tieEnd + 1 - position;
  }

  // ----- laws of the ranks -----

  lemma {:induction false} CountAll(s: seq<real>, x: real)
    ensures CountLess(s, x) + CountEqual(s, x) + CountGreater(s, x) == |s|
  {
    if s != [] {
      CountAll(s[..|s| - 1], x);
    }
  }

  ghost function RankSum(s: seq<real>, over: seq<real>): real {
    if over == [] then 0.0 else RankSum(s, over[..|over| - 1]) + Rank(s, over[|over| - 1])
  }

  /** One more value lifts the ranks of the greater by one and of the equal by a half. */
  lemma {:induction false} RankSumGrows(s: seq<real>, x: real, over: seq<real>)
    ensures RankSum(s + [x], over)
            == RankSum(s, over) + CountGreater(over, x) as real + CountEqual(over, x) as real / 2.0
  {
    if over != [] {
      RankSumGrows(s, x, over[..|over| - 1]);
      assert (s + [x])[..|s|] == s;
    }
  }

  /** The ranks of all values add up to `n(n + 1)/2`, ties or not. */
  lemma {:induction false} RanksSum(s: seq<real>)
    ensures RankSum(s, s) == (|s| * (|s| + 1)) as real / 2.0
  {
    if s != [] {
      var n := |s| - 1;
      var front, x := s[..n], s[n];
      assert s == front + [x];
      RanksSum(front);
      RankSumGrows(front, x, front);
      CountAll(front, x);
      assert RankSum(s, s) == RankSum(s, front) + Rank(s, x);
      assert |s| * (|s| + 1) == n * (n + 1) + 2 * (n + 1);
    }
  }

  lemma {:induction false} LessIncludesEqual(s: seq<real>, x: real, y: real)
    requires x < y
    ensures CountLess(s, x) + CountEqual(s, x) <= CountLess(s, y)
  {
    if s != [] {
      LessIncludesEqual(s[..|s| - 1], x, y);
    }
  }

  lemma {:induction false} EqualCounted(s: seq<real>, i: nat)
    requires i < |s|
    ensures CountEqual(s, s[i]) >= 1
  {
    if i < |s| - 1 {
      EqualCounted(s[..|s| - 1], i);
    }
  }

  /** Ranks preserve strict order, and equal values share a rank. */
  lemma {:induction false} RanksPreserveOrder(s: seq<real>, i: nat, j: nat)
    requires i < |s| && j < |s|
    ensures s[i] < s[j] <==> Rank(s, s[i]) < Rank(s, s[j])
  {
    EqualCounted(s, i);
    EqualCounted(s, j);
    if s[i] < s[j] {
      LessIncludesEqual(s, s[i], s[j]);
    } else if s[j] < s[i] {
      LessIncludesEqual(s, s[j], s[i]);
    }
  }
}
