/** Greedy grouping of IO sizes into clusters within one order of magnitude. */
module SizeClusters {
  import opened StableSort

  /** An IO size with its byte value; an unreadable size counts as 0 bytes. */
  datatype Size = Size(text: string, bytes: nat)

  /** `iosize_sorter`: by bytes, then by the length of the text. */
  predicate AtMost(a: Size, b: Size) {
    a.bytes < b.bytes || (a.bytes == b.bytes && |a.text| <= |b.text|)
  }

  function BySize(): (Size, Size) -> bool {
    (a: Size, b: Size) => AtMost(a, b)
  }

  lemma {:induction false} BySizeIsPreorder()
    ensures Preorder(BySize())
  {}

  /** Largest at most ten times smallest. */
  ghost predicate Close(group: seq<Size>) {
    forall i, j :: 0 <= i < |group| && 0 <= j < |group| ==> group[i].bytes <= 10 * group[j].bytes
  }

  function Flatten(groups: seq<seq<Size>>): seq<Size> {
    if groups == [] then [] else Flatten(groups[..|groups| - 1]) + groups[|groups| - 1]
  }

  /** Groups that together hold exactly the given sizes, each within the ratio bound. */
  ghost predicate Partitions(groups: seq<seq<Size>>, sizes: multiset<Size>) {
    && multiset(Flatten(groups)) == sizes
    && AllClose(groups)
  }

  /** Each cluster opens with a size more than ten times the one before it opened with. */
  ghost predicate FarApart(clusters: seq<seq<Size>>) {
    && (forall k :: 0 <= k < |clusters| ==> clusters[k] != [])
    && forall j, k :: 0 <= j < k < |clusters| ==> clusters[k][0].bytes > 10 * clusters[j][0].bytes
  }

  /** `categorize_sizes`: the sorted sizes cut into close clusters, in order. */
  method CategorizeSizes(sizes: seq<Size>) returns (clusters: seq<seq<Size>>)
    ensures Flatten(clusters) == SortBy(sizes, BySize())
    ensures var s := Flatten(clusters);
            forall i, j :: 0 <= i < j < |s| ==>
              s[i].bytes < s[j].bytes || (s[i].bytes == s[j].bytes && |s[i].text| <= |s[j].text|)
    ensures FarApart(clusters) && Partitions(clusters, multiset(sizes))
  {
    clusters := [];
    if |sizes| == 0 {
      return;
    }
    var sorted := SortBy(sizes, BySize());
    BySizeIsPreorder();
    SortOrders(sizes, BySize());
    SortPermutes(sizes, BySize());
    clusters := ClusterSorted(sorted);
  }

  method ClusterSorted(sorted: seq<Size>) returns (clusters: seq<seq<Size>>)
    requires sorted != [] && Ordered(sorted, BySize())
    ensures Flatten(clusters) == sorted && FarApart(clusters) && AllClose(clusters)
  {
    clusters := [];
    var current := [sorted[0]];
    var currentMin := sorted[0].bytes;
    StartClusters(sorted);
    for i := 1 to |sorted|
      invariant Clustering(clusters, current, currentMin, sorted[..i])
    {
      var size := sorted[i];
      assert sorted[..i + 1] == sorted[..i] + [size];
      MinIsSmaller(sorted, i, clusters, current, currentMin);
      if size.bytes > currentMin * 10 {
        OpenCluster(clusters, current, currentMin, sorted[..i], size);
        clusters := clusters + [current];
        current := [size];
        currentMin := size.bytes;
      } else {
        GrowCluster(clusters, current, currentMin, sorted[..i], size);
        current := current + [size];
      }
    }
    assert sorted[..|sorted|] == sorted;
    FlattenAppend(clusters, current);
    RangeIsClose(current, currentMin);
    AppendClose(clusters, current);
    clusters := clusters + [current];
  }

  /** The closed clusters and the open one hold the sizes read so far. */
  ghost predicate Clustering(clusters: seq<seq<Size>>, current: seq<Size>, low: nat, read: seq<Size>) {
    && current != [] && low == current[0].bytes
    && Flatten(clusters) + current == read
    && FarApart(clusters + [current])
    && AllClose(clusters)
    && InRange(current, low)
  }

  lemma {:induction false} StartClusters(sorted: seq<Size>)
    requires sorted != []
    ensures Clustering([], [sorted[0]], sorted[0].bytes, sorted[..1])
  {}

  lemma {:induction false} OpenCluster(clusters: seq<seq<Size>>, current: seq<Size>, low: nat, read: seq<Size>,
                                       size: Size)
    requires Clustering(clusters, current, low, read) && size.bytes > 10 * low
    ensures Clustering(clusters + [current], [size], size.bytes, read + [size])
  {
    FlattenAppend(clusters, current);
    RangeIsClose(current, low);
    AppendClose(clusters, current);
    NextIsFar(clusters, current, size);
  }

  lemma {:induction false} GrowCluster(clusters: seq<seq<Size>>, current: seq<Size>, low: nat, read: seq<Size>,
                                       size: Size)
    requires Clustering(clusters, current, low, read) && low <= size.bytes <= 10 * low
    ensures Clustering(clusters, current + [size], low, read + [size])
  {
    GrownIsFar(clusters, current, size);
    assert Flatten(clusters) + (current + [size]) == Flatten(clusters) + current + [size];
  }

  lemma {:induction false} AppendClose(groups: seq<seq<Size>>, group: seq<Size>)
    requires AllClose(groups) && Close(group)
    ensures AllClose(groups + [group])
  {}

  ghost predicate AllClose(groups: seq<seq<Size>>) {
    forall k :: 0 <= k < |groups| ==> Close(groups[k])
  }

  ghost predicate InRange(group: seq<Size>, low: nat) {
    forall i :: 0 <= i < |group| ==> low <= group[i].bytes <= 10 * low
  }

  lemma {:induction false} RangeIsClose(group: seq<Size>, low: nat)
    requires InRange(group, low)
    ensures Close(group)
  {}

  lemma {:induction false} MinIsSmaller(sorted: seq<Size>, i: nat, clusters: seq<seq<Size>>, current: seq<Size>,
                                        low: nat)
    requires i < |sorted| && Ordered(sorted, BySize()) && Clustering(clusters, current, low, sorted[..i])
    ensures low <= sorted[i].bytes
  {
    var k := |Flatten(clusters)|;
    assert current[0] == (Flatten(clusters) + current)[k] == sorted[k];
    assert AtMost(sorted[k], sorted[i]);
  }

  lemma {:induction false} NextIsFar(clusters: seq<seq<Size>>, current: seq<Size>, size: Size)
    requires current != [] && FarApart(clusters + [current]) && size.bytes > 10 * current[0].bytes
    ensures FarApart(clusters + [current] + [[size]])
  {
    var all: seq<seq<Size>> := clusters + [current];
    forall k | 0 <= k < |all|
      ensures all[k][0].bytes <= current[0].bytes
    {
      assert all[|clusters|] == current;
    }
  }

  lemma {:induction false} GrownIsFar(clusters: seq<seq<Size>>, current: seq<Size>, size: Size)
    requires FarApart(clusters + [current])
    ensures FarApart(clusters + [current + [size]])
  {
    var before, after := clusters + [current], clusters + [current + [size]];
    assert before[|clusters|] == current && current != [];
    forall k | 0 <= k < |after|
      ensures after[k] != [] && after[k][0] == before[k][0]
    {
      if k < |clusters| {
        assert after[k] == before[k] && before[k] != [];
      }
    }
  }

  lemma {:induction false} FlattenAppend(groups: seq<seq<Size>>, last: seq<Size>)
    ensures Flatten(groups + [last]) == Flatten(groups) + last
  {
    assert (groups + [last])[..|groups|] == groups;
  }

  lemma {:induction false} FlattenMember(groups: seq<seq<Size>>, x: Size) returns (g: nat)
    requires x in Flatten(groups)
    ensures g < |groups| && x in groups[g]
  {
    var n := |groups| - 1;
    if x in groups[n] {
      g := n;
    } else {
      g := FlattenMember(groups[..n], x);
    }
  }

  lemma {:induction false} GroupMember(groups: seq<seq<Size>>, g: nat, x: Size)
    requires g < |groups| && x in groups[g]
    ensures x in Flatten(groups)
  {
    if g < |groups| - 1 {
      GroupMember(groups[..|groups| - 1], g, x);
    }
  }

  lemma {:induction false} Pigeonhole(f: seq<nat>, m: nat)
    requires forall i :: 0 <= i < |f| ==> f[i] < m
    requires forall i, j :: 0 <= i < j < |f| ==> f[i] != f[j]
    ensures |f| <= m
  {
    var used := set i | 0 <= i < |f| :: f[i];
    Images(f);
    SubsetCount(used, UpTo(m));
  }

  ghost function UpTo(m: nat): (r: set<nat>)
    ensures |r| == m && forall x: nat :: x in r <==> x < m
  {
    if m == 0 then {} else UpTo(m - 1) + {m - 1}
  }

  lemma {:induction false} Images(f: seq<nat>)
    requires forall i, j :: 0 <= i < j < |f| ==> f[i] != f[j]
    ensures |set i | 0 <= i < |f| :: f[i]| == |f|
  {
    var used := set i | 0 <= i < |f| :: f[i];
    if f == [] {
      assert used == {};
    } else {
      var n := |f| - 1;
      Images(f[..n]);
      var before := set i | 0 <= i < n :: f[..n][i];
      assert used == before + {f[n]};
    }
  }

  lemma {:induction false} SubsetCount(a: set<nat>, b: set<nat>)
    requires a <= b
    ensures |a| <= |b|
  {
    assert b == a + (b - a);
  }

  /** Minimality: no way of grouping the sizes within the ratio bound, contiguous or not, uses
      fewer groups than clusters this far apart. */
  lemma {:induction false} GreedyIsMinimal(clusters: seq<seq<Size>>, sizes: multiset<Size>, groups: seq<seq<Size>>)
    requires FarApart(clusters) && Partitions(clusters, sizes) && Partitions(groups, sizes)
    ensures |clusters| <= |groups|
  {
    var homes: seq<nat> := [];
    while |homes| < |clusters|
      invariant |homes| <= |clusters|
      invariant forall k :: 0 <= k < |homes| ==> homes[k] < |groups| && clusters[k][0] in groups[homes[k]]
    {
      var leader := clusters[|homes|][0];
      GroupMember(clusters, |homes|, leader);
      assert leader in multiset(Flatten(clusters)) && leader in multiset(Flatten(groups));
      var g := FlattenMember(groups, leader);
      homes := homes + [g];
    }
    forall j, k | 0 <= j < k < |homes|
      ensures homes[j] != homes[k]
    {
      LeadersApart(groups, homes[j], homes[k], clusters[j][0], clusters[k][0]);
    }
    Pigeonhole(homes, |groups|);
  }

  lemma {:induction false} LeadersApart(groups: seq<seq<Size>>, g1: nat, g2: nat, x: Size, y: Size)
    requires g1 < |groups| && g2 < |groups| && x in groups[g1] && y in groups[g2]
    requires AllClose(groups) && y.bytes > 10 * x.bytes
    ensures g1 != g2
  {
    assert Close(groups[g1]);
  }
}
