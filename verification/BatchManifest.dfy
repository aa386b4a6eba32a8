/** Committed membership of a batch: which manifests validate, and what that means. */
module BatchManifest {
  import opened LiveRows
  import opened Numerals

  /** `intact` stands for the checks on files: paths, digests, exported fields. */
  datatype Group = Group(groupId: string, kind: string, intact: bool)

  datatype Execution = Execution(executionId: string, groupId: string, definition: string, intact: bool)

  const MaxExecutions: nat := 9999

  /** The identifier of the group or execution at index `i`. */
  function Id(i: nat): string {
    Padded(i + 1)
  }

  // ----- what a valid manifest is -----

  ghost predicate GroupsNumbered(groups: seq<Group>) {
    forall i :: 0 <= i < |groups| ==> GroupSound(groups[i], i)
  }

  ghost predicate GroupSound(group: Group, i: nat) {
    group.groupId == Id(i) && (group.kind == "io" || group.kind == "mdtest") && group.intact
  }

  ghost predicate ExecutionsNumbered(executions: seq<Execution>) {
    && |executions| <= 9999
    && forall i :: 0 <= i < |executions| ==> executions[i].executionId == Id(i) && executions[i].intact
  }

  /** `b` gives the group number of each execution: from group 0 to group `m - 1`, staying or
      moving on by one, so that every group is one non-empty block, in order. */
  ghost predicate Blocks(b: seq<nat>, m: nat) {
    && |b| > 0 && b[0] == 0 && b[|b| - 1] == m - 1
    && forall i :: 0 < i < |b| ==> b[i] == b[i - 1] || b[i] == b[i - 1] + 1
  }

  ghost predicate InGroups(executions: seq<Execution>, b: seq<nat>) {
    |b| == |executions| && forall i :: 0 <= i < |b| ==> executions[i].groupId == Id(b[i])
  }

  /** Eight digits, a Z and six digits. */
  predicate IsDatestamp(s: string) {
    |s| == 15 && s[8] == 'Z' && forall i :: 0 <= i < 15 && i != 8 ==> IsDigit(s[i])
  }

  lemma {:induction false} DatestampMeaning(s: string)
    ensures IsDatestamp(s) <==>
              exists day, time ::
                s == day + "Z" + time && |day| == 8 && |time| == 6 && AllDigits(day) && AllDigits(time)
  {
    if IsDatestamp(s) {
      assert s == s[..8] + "Z" + s[9..];
    }
  }

  /** The three headers: version 1, the group count as revision, and a datestamp. */
  ghost predicate HeadersSound(headers: map<string, string>, count: nat) {
    && headers.Keys == {"version", "revision", "datestamp"} && headers["version"] == "1"
    && count >= 1 && headers["revision"] == Decimal(count)
    && IsDatestamp(headers["datestamp"])
  }

  ghost predicate Committed(headers: map<string, string>, groups: seq<Group>, executions: seq<Execution>) {
    && HeadersSound(headers, |groups|)
    && GroupsNumbered(groups) && ExecutionsNumbered(executions)
    && exists b :: InGroups(executions, b) && Blocks(b, |groups|)
  }

  // ----- what the loops check -----

  function GroupIds(groups: seq<Group>): set<string> {
    if groups == [] then {} else GroupIds(groups[..|groups| - 1]) + {groups[|groups| - 1].groupId}
  }

  ghost function Memberships(executions: seq<Execution>): set<string> {
    if executions == [] then {}
    else Memberships(executions[..|executions| - 1]) + {executions[|executions| - 1].groupId}
  }

  ghost predicate Unordered(executions: seq<Execution>, i: nat)
    requires i < |executions|
  {
    i > 0 && Before(executions[i].groupId, executions[i - 1].groupId)
  }

  ghost predicate Fine(executions: seq<Execution>, ids: set<string>, i: nat)
    requires i < |executions|
  {
    && executions[i].executionId == Id(i) && executions[i].intact
    && executions[i].groupId in ids && !Unordered(executions, i)
  }

  ghost predicate Checked(executions: seq<Execution>, ids: set<string>, n: nat)
    requires n <= |executions|
  {
    n <= MaxExecutions && forall i :: 0 <= i < n ==> Fine(executions, ids, i)
  }

  /** `_validate_groups`. */
  method ValidateGroups(groups: seq<Group>) returns (ok: bool)
    ensures ok <==> GroupsNumbered(groups)
  {
    for i := 0 to |groups|
      invariant GroupsNumbered(groups[..i])
    {
      var group := groups[i];
      if group.groupId != Padded(i + 1) || group.kind !in {"io", "mdtest"} || !group.intact {
        return false;
      }
    }
    return true;
  }

  lemma {:induction false} MembershipsAppend(executions: seq<Execution>, n: nat)
    requires n < |executions|
    ensures Memberships(executions[..n + 1]) == Memberships(executions[..n]) + {executions[n].groupId}
  {
    assert executions[..n + 1][..n] == executions[..n];
  }

  /** `_validate_executions`. */
  method ValidateExecutions(groups: seq<Group>, executions: seq<Execution>) returns (ok: bool)
    ensures ok <==> Checked(executions, GroupIds(groups), |executions|) && Memberships(executions) == GroupIds(groups)
  {
    var ids := GroupIds(groups);
    var fine, membership := CheckInOrder(executions, ids);
    return fine && membership == ids;
  }

  /** The loop: identifiers, known groups, order; the groups met are collected. */
  method CheckInOrder(executions: seq<Execution>, ids: set<string>) returns (ok: bool, membership: set<string>)
    ensures ok <==> Checked(executions, ids, |executions|)
    ensures ok ==> membership == Memberships(executions)
  {
    membership := {};
    var previousGroup := "";
    for i := 0 to |executions|
      invariant Checked(executions, ids, i) && Collected(executions, i, membership, previousGroup)
    {
      var sound := IsFine(executions, ids, i, previousGroup);
      if !sound {
        NotChecked(executions, ids, i);
        return false, membership;
      }
      CheckedOneMore(executions, ids, i, membership, previousGroup);
      previousGroup := executions[i].groupId;
      membership := membership + {executions[i].groupId};
    }
    assert executions[..|executions|] == executions;
    return true, membership;
  }

  /** What the loop's variables hold after `n` executions. */
  ghost predicate Collected(executions: seq<Execution>, n: nat, membership: set<string>, previousGroup: string)
    requires n <= |executions|
  {
    && membership == Memberships(executions[..n])
    && previousGroup == if n == 0 then "" else executions[n - 1].groupId
  }

  lemma {:induction false} CheckedOneMore(executions: seq<Execution>, ids: set<string>, i: nat,
                                          membership: set<string>, previousGroup: string)
    requires i < |executions| && i < MaxExecutions && Fine(executions, ids, i)
    requires Checked(executions, ids, i) && Collected(executions, i, membership, previousGroup)
    ensures Checked(executions, ids, i + 1)
    ensures Collected(executions, i + 1, membership + {executions[i].groupId}, executions[i].groupId)
  {
    MembershipsAppend(executions, i);
  }

  lemma {:induction false} NotChecked(executions: seq<Execution>, ids: set<string>, i: nat)
    requires i < |executions| && !(i < MaxExecutions && Fine(executions, ids, i))
    ensures !Checked(executions, ids, |executions|)
  {}

  /** The checks on one execution. */
  method IsFine(executions: seq<Execution>, ids: set<string>, i: nat, previousGroup: string) returns (ok: bool)
    requires i < |executions| && previousGroup == if i == 0 then "" else executions[i - 1].groupId
    ensures ok <==> i < MaxExecutions && Fine(executions, ids, i)
  {
    var execution := executions[i];
    if i + 1 > MaxExecutions || execution.executionId != Padded(i + 1) {
      return false;
    }
    if execution.groupId !in ids || Before(execution.groupId, previousGroup) {
      return false;
    }
    return execution.intact;
  }

  /** The revision header: a positive decimal numeral equal to the number of groups. */
  method ValidateRevision(revision: string, count: nat) returns (ok: bool)
    ensures ok <==> count >= 1 && revision == Decimal(count)
  {
    DecimalMeaning(count);
    if revision == "" || revision[0] == '0' {
      return false;
    }
    for i := 0 to |revision|
      invariant AllDigits(revision[..i])
    {
      if !IsDigit(revision[i]) {
        return false;
      }
    }
    assert revision[..|revision|] == revision;
    DecimalUnique(revision);
    return Value(revision) == count;
  }

  /** `_validate_headers`. */
  method ValidateHeaders(headers: map<string, string>, count: nat) returns (ok: bool)
    ensures ok <==> HeadersSound(headers, count)
  {
    if headers.Keys != {"version", "revision", "datestamp"} || headers["version"] != "1" {
      return false;
    }
    ok := ValidateRevision(headers["revision"], count);
    if ok {
      ok := IsDatestamp(headers["datestamp"]);
    }
  }

  /** `read_batch_manifest` accepts exactly the committed manifests whose seal, if there is one,
      is the manifest's digest. */
  method ReadManifest(headers: map<string, string>, groups: seq<Group>, executions: seq<Execution>, digest: string,
                      seal: Option<string>)
    returns (ok: bool)
    ensures ok <==> Committed(headers, groups, executions) && (seal.Some? ==> seal.value == digest)
  {
    ok := ValidateHeaders(headers, |groups|);
    if ok {
      ok := ValidateGroups(groups);
      if ok {
        ok := ValidateExecutions(groups, executions);
        ChecksAreExact(groups, executions);
        if ok && seal.Some? {
          ok := seal.value == digest;
        }
      }
    }
  }

  // ----- the checks mean blocks -----

  lemma {:induction false} FewMemberships(executions: seq<Execution>)
    ensures |Memberships(executions)| <= |executions|
  {
    if executions != [] {
      FewMemberships(executions[..|executions| - 1]);
    }
  }

  lemma {:induction false} MemberAt(executions: seq<Execution>, id: string) returns (i: nat)
    requires id in Memberships(executions)
    ensures i < |executions| && executions[i].groupId == id
  {
    if executions[|executions| - 1].groupId == id {
      i := |executions| - 1;
    } else {
      i := MemberAt(executions[..|executions| - 1], id);
    }
  }

  lemma {:induction false} IsMember(executions: seq<Execution>, i: nat)
    requires i < |executions|
    ensures executions[i].groupId in Memberships(executions)
  {
    if i < |executions| - 1 {
      IsMember(executions[..|executions| - 1], i);
    }
  }

  /** A group identifier is one of the numbers below the group count. */
  lemma {:induction false} NumberOf(groups: seq<Group>, id: string) returns (g: nat)
    requires GroupsNumbered(groups) && id in GroupIds(groups)
    ensures g < |groups| && id == Id(g)
  {
    var n := |groups| - 1;
    assert GroupSound(groups[n], n);
    if groups[n].groupId == id {
      g := n;
    } else {
      g := NumberOf(groups[..n], id);
    }
  }

  lemma {:induction false} IdIsGroup(groups: seq<Group>, g: nat)
    requires GroupsNumbered(groups) && g < |groups|
    ensures Id(g) in GroupIds(groups)
  {
    var n := |groups| - 1;
    assert GroupSound(groups[n], n);
    if g < n {
      IdIsGroup(groups[..n], g);
    }
  }

  lemma {:induction false} GroupIdsCount(groups: seq<Group>)
    requires GroupsNumbered(groups)
    ensures |GroupIds(groups)| == |groups|
  {
    if groups != [] {
      var n := |groups| - 1;
      GroupIdsCount(groups[..n]);
      assert GroupSound(groups[n], n);
      NewId(groups[..n], n);
    }
  }

  lemma {:induction false} NewId(groups: seq<Group>, n: nat)
    requires GroupsNumbered(groups) && n == |groups|
    ensures Id(n) !in GroupIds(groups)
  {
    if Id(n) in GroupIds(groups) {
      var g := NumberOf(groups, Id(n));
      PaddedInjective(g + 1, n + 1);
    }
  }

  /** The group number an identifier spells. */
  ghost function NumbersOf(executions: seq<Execution>): seq<nat> {
    seq(|executions|, i requires 0 <= i < |executions| =>
      if Value(executions[i].groupId) > 0 then Value(executions[i].groupId) - 1 else 0)
  }

  ghost predicate Rises(b: seq<nat>) {
    forall i, j :: 0 <= i < j < |b| ==> b[i] <= b[j]
  }

  ghost predicate Covers(b: seq<nat>, m: nat) {
    && (forall i :: 0 <= i < |b| ==> b[i] < m)
    && (forall v: nat :: v < m ==> v in b)
  }

  /** Rising through every number below `m` is going up in blocks. */
  lemma {:induction false} RisingCoverIsBlocks(b: seq<nat>, m: nat)
    requires Rises(b) && Covers(b, m) && m >= 1
    ensures Blocks(b, m)
  {
    var zero: nat, top: nat := 0, m - 1;
    assert zero in b && top in b;
    forall i | 0 < i < |b|
      ensures b[i] == b[i - 1] || b[i] == b[i - 1] + 1
    {
      NoGap(b, m, i);
    }
  }

  lemma {:induction false} NoGap(b: seq<nat>, m: nat, i: nat)
    requires Rises(b) && Covers(b, m) && 0 < i < |b|
    ensures b[i - 1] <= b[i] <= b[i - 1] + 1
  {
    var v: nat := b[i - 1] + 1;
    if v < m {
      assert v in b;
      var k: nat :| k < |b| && b[k] == v;
    }
  }

  lemma {:induction false} BlocksStepUp(b: seq<nat>, m: nat, i: nat, j: nat)
    requires Blocks(b, m) && i <= j < |b|
    ensures b[i] <= b[j] && b[j] <= j
  {
    if i < j {
      BlocksStepUp(b, m, i, j - 1);
    } else if 0 < i {
      BlocksStepUp(b, m, i - 1, i - 1);
    }
  }

  lemma {:induction false} BlocksReach(b: seq<nat>, m: nat, j: nat, v: nat)
    requires Blocks(b, m) && j < |b| && v <= b[j]
    ensures v in b
  {
    if v < b[j] {
      BlocksReach(b, m, j - 1, v);
    }
  }

  lemma {:induction false} BlocksCover(b: seq<nat>, m: nat)
    requires Blocks(b, m)
    ensures Rises(b) && Covers(b, m) && 1 <= m <= |b|
  {
    forall i, j | 0 <= i < j < |b|
      ensures b[i] <= b[j]
    {
      BlocksStepUp(b, m, i, j);
    }
    BlocksStepUp(b, m, 0, |b| - 1);
    forall v: nat | v < m
      ensures v in b
    {
      BlocksReach(b, m, |b| - 1, v);
    }
  }

  lemma {:induction false} InGroupsIsNumbers(executions: seq<Execution>, b: seq<nat>)
    requires InGroups(executions, b)
    ensures b == NumbersOf(executions)
  {
    forall i | 0 <= i < |b|
      ensures b[i] == NumbersOf(executions)[i]
    {
      PaddedMeaning(b[i] + 1);
    }
  }

  lemma {:induction false} NumbersInGroups(groups: seq<Group>, executions: seq<Execution>)
    requires GroupsNumbered(groups) && Checked(executions, GroupIds(groups), |executions|)
    ensures InGroups(executions, NumbersOf(executions))
    ensures forall i :: 0 <= i < |executions| ==> NumbersOf(executions)[i] < |groups|
  {
    var b := NumbersOf(executions);
    forall i: nat | i < |b|
      ensures executions[i].groupId == Id(b[i]) && b[i] < |groups|
    {
      assert Fine(executions, GroupIds(groups), i);
      var g := NumberOf(groups, executions[i].groupId);
      PaddedMeaning(g + 1);
    }
  }

  lemma {:induction false} NumbersCover(groups: seq<Group>, executions: seq<Execution>, b: seq<nat>, v: nat)
    requires GroupsNumbered(groups) && InGroups(executions, b) && v < |groups|
    requires Memberships(executions) == GroupIds(groups)
    ensures v in b
  {
    IdIsGroup(groups, v);
    var i := MemberAt(executions, Id(v));
    PaddedInjective(v + 1, b[i] + 1);
    assert b[i] == v;
  }

  lemma {:induction false} ChecksGiveBlocks(groups: seq<Group>, executions: seq<Execution>)
    requires GroupsNumbered(groups) && |groups| >= 1 && Checked(executions, GroupIds(groups), |executions|)
    requires Memberships(executions) == GroupIds(groups)
    ensures InGroups(executions, NumbersOf(executions)) && Blocks(NumbersOf(executions), |groups|)
    ensures ExecutionsNumbered(executions)
  {
    var b, m := NumbersOf(executions), |groups|;
    GroupIdsCount(groups);
    FewMemberships(executions);
    NumbersInGroups(groups, executions);
    forall i | 0 <= i < |executions|
      ensures !Unordered(executions, i) && executions[i].executionId == Id(i) && executions[i].intact
    {
      assert Fine(executions, GroupIds(groups), i);
    }
    forall v: nat | v < m
      ensures v in b
    {
      NumbersCover(groups, executions, b, v);
    }
    NumbersRise(executions, b, m);
    RisingCoverIsBlocks(b, m);
  }

  lemma {:induction false} RisesStep(b: seq<nat>)
    requires forall i :: 0 < i < |b| ==> b[i - 1] <= b[i]
    ensures Rises(b)
  {
    if b != [] {
      var n := |b| - 1;
      RisesStep(b[..n]);
      forall i | 0 <= i < n
        ensures b[i] <= b[n]
      {
        assert b[..n][i] <= b[..n][n - 1];
      }
    }
  }

  lemma {:induction false} NumbersRise(executions: seq<Execution>, b: seq<nat>, m: nat)
    requires InGroups(executions, b) && m <= MaxExecutions && forall i :: 0 <= i < |b| ==> b[i] < m
    requires forall i :: 0 <= i < |executions| ==> !Unordered(executions, i)
    ensures Rises(b)
  {
    forall i | 0 < i < |b|
      ensures b[i - 1] <= b[i]
    {
      OrderedNumbers(executions, b[i - 1], b[i], i);
    }
    RisesStep(b);
  }

  lemma {:induction false} OrderedNumbers(executions: seq<Execution>, before: nat, after: nat, i: nat)
    requires 0 < i < |executions| && before < MaxExecutions && after < MaxExecutions
    requires executions[i - 1].groupId == Id(before) && executions[i].groupId == Id(after)
    requires !Unordered(executions, i)
    ensures before <= after
  {
    PaddedOrder(after + 1, before + 1);
  }

  lemma {:induction false} BlocksAreFine(groups: seq<Group>, executions: seq<Execution>, b: seq<nat>, i: nat)
    requires GroupsNumbered(groups) && ExecutionsNumbered(executions) && i < |executions|
    requires InGroups(executions, b) && Rises(b) && Covers(b, |groups|) && |groups| <= MaxExecutions
    ensures Fine(executions, GroupIds(groups), i)
  {
    IdIsGroup(groups, b[i]);
    if i > 0 {
      assert b[i - 1] <= b[i];
      PaddedOrder(b[i] + 1, b[i - 1] + 1);
    }
  }

  lemma {:induction false} CoveredMemberships(groups: seq<Group>, executions: seq<Execution>, b: seq<nat>)
    requires GroupsNumbered(groups) && InGroups(executions, b) && Covers(b, |groups|)
    ensures Memberships(executions) == GroupIds(groups)
  {
    forall id | id in GroupIds(groups)
      ensures id in Memberships(executions)
    {
      var g := NumberOf(groups, id);
      assert g in b;
      var i: nat :| i < |b| && b[i] == g;
      IsMember(executions, i);
    }
    forall id | id in Memberships(executions)
      ensures id in GroupIds(groups)
    {
      var i := MemberAt(executions, id);
      IdIsGroup(groups, b[i]);
    }
  }

  lemma {:induction false} BlocksPassChecks(groups: seq<Group>, executions: seq<Execution>, b: seq<nat>)
    requires GroupsNumbered(groups) && ExecutionsNumbered(executions)
    requires InGroups(executions, b) && Blocks(b, |groups|)
    ensures Checked(executions, GroupIds(groups), |executions|) && Memberships(executions) == GroupIds(groups)
  {
    BlocksCover(b, |groups|);
    CoveredMemberships(groups, executions, b);
    forall i: nat | i < |executions|
      ensures Fine(executions, GroupIds(groups), i)
    {
      BlocksAreFine(groups, executions, b, i);
    }
  }

  lemma {:induction false} ChecksAreExact(groups: seq<Group>, executions: seq<Execution>)
    requires GroupsNumbered(groups) && |groups| >= 1
    ensures Checked(executions, GroupIds(groups), |executions|) && Memberships(executions) == GroupIds(groups)
            <==> ExecutionsNumbered(executions) && exists b :: InGroups(executions, b) && Blocks(b, |groups|)
  {
    if Checked(executions, GroupIds(groups), |executions|) && Memberships(executions) == GroupIds(groups) {
      ChecksGiveBlocks(groups, executions);
    }
    if ExecutionsNumbered(executions) && exists b :: InGroups(executions, b) && Blocks(b, |groups|) {
      var b :| InGroups(executions, b) && Blocks(b, |groups|);
      BlocksPassChecks(groups, executions, b);
    }
  }

  /** A valid manifest never has more groups than executions, hence at most 9999. */
  lemma {:induction false} GroupsBounded(headers: map<string, string>, groups: seq<Group>, executions: seq<Execution>)
    requires Committed(headers, groups, executions)
    ensures 1 <= |groups| <= |executions| <= MaxExecutions
  {
    var b :| InGroups(executions, b) && Blocks(b, |groups|);
    BlocksCover(b, |groups|);
  }

  // ----- one group's executions -----

  /** `BatchManifest.group_executions`. */
  function GroupExecutions(executions: seq<Execution>, groupId: string): seq<Execution> {
    if executions == [] then []
    else
      var n := |executions| - 1;
      GroupExecutions(executions[..n], groupId)
      + if executions[n].groupId == groupId then [executions[n]] else []
  }

  /** Executions of the first `m` groups, group by group. */
  ghost function ByGroup(executions: seq<Execution>, groups: seq<Group>, m: nat): seq<Execution>
    requires m <= |groups|
  {
    if m == 0 then []
    else ByGroup(executions, groups, m - 1) + GroupExecutions(executions, groups[m - 1].groupId)
  }

  lemma {:induction false} BlockSlice(executions: seq<Execution>, groupId: string, p: nat, q: nat)
    requires p <= q <= |executions|
    requires forall i :: 0 <= i < |executions| ==> (executions[i].groupId == groupId <==> p <= i < q)
    ensures GroupExecutions(executions, groupId) == executions[p..q]
  {
    if executions != [] {
      var n := |executions| - 1;
      if q == |executions| && p < q {
        BlockSlice(executions[..n], groupId, p, n);
        assert executions[..n][p..n] + [executions[n]] == executions[p..q];
      } else if q == |executions| {
        BlockSlice(executions[..n], groupId, n, n);
      } else {
        BlockSlice(executions[..n], groupId, p, q);
      }
    }
  }

  /** Where group `v` starts: the first execution of a group not before it. */
  ghost function Start(b: seq<nat>, v: nat): (p: nat)
    ensures p <= |b|
  {
    if b == [] || b[0] >= v then 0 else 1 + Start(b[1..], v)
  }

  lemma {:induction false} StartMeaning(b: seq<nat>, v: nat)
    requires Rises(b)
    ensures forall i :: 0 <= i < |b| ==> (b[i] < v <==> i < Start(b, v))
  {
    if b != [] && b[0] < v {
      StartMeaning(b[1..], v);
      forall i | 0 <= i < |b|
        ensures b[i] < v <==> i < Start(b, v)
      {
        assert i > 0 ==> b[i] == b[1..][i - 1];
      }
    }
  }

  lemma {:induction false} StartsRise(b: seq<nat>, v: nat)
    ensures Start(b, v) <= Start(b, v + 1)
  {
    if b != [] && b[0] < v {
      StartsRise(b[1..], v);
    }
  }

  /** The executions of group `v` are one block. */
  lemma {:induction false} OneBlock(executions: seq<Execution>, b: seq<nat>, v: nat)
    requires InGroups(executions, b) && Rises(b)
    ensures Start(b, v) <= Start(b, v + 1) <= |executions|
    ensures GroupExecutions(executions, Id(v)) == executions[Start(b, v)..Start(b, v + 1)]
  {
    StartMeaning(b, v);
    StartMeaning(b, v + 1);
    StartsRise(b, v);
    var p, q := Start(b, v), Start(b, v + 1);
    forall i | 0 <= i < |executions|
      ensures executions[i].groupId == Id(v) <==> p <= i < q
    {
      PaddedInjective(b[i] + 1, v + 1);
      assert b[i] == v <==> !(b[i] < v) && b[i] < v + 1;
    }
    BlockSlice(executions, Id(v), p, q);
  }

  lemma {:induction false} ByGroupIsPrefix(executions: seq<Execution>, groups: seq<Group>, b: seq<nat>, m: nat)
    requires GroupsNumbered(groups) && m <= |groups| && InGroups(executions, b) && Rises(b)
    ensures ByGroup(executions, groups, m) == executions[..Start(b, m)]
  {
    if m == 0 {
      StartMeaning(b, 0);
      assert |b| > 0 ==> b[0] >= 0;
    } else {
      ByGroupIsPrefix(executions, groups, b, m - 1);
      OneBlock(executions, b, m - 1);
      assert GroupSound(groups[m - 1], m - 1);
      Glue(executions, Start(b, m - 1), Start(b, m));
    }
  }

  lemma {:induction false} Glue(s: seq<Execution>, p: nat, q: nat)
    requires p <= q <= |s|
    ensures s[..p] + s[p..q] == s[..q]
  {}

  lemma {:induction false} BlockNonEmpty(executions: seq<Execution>, groups: seq<Group>, b: seq<nat>, g: nat)
    requires GroupsNumbered(groups) && g < |groups| && InGroups(executions, b) && Rises(b) && g in b
    ensures GroupExecutions(executions, groups[g].groupId) != []
  {
    var i: nat :| i < |b| && b[i] == g;
    OneBlock(executions, b, g);
    StartMeaning(b, g);
    StartMeaning(b, g + 1);
    assert GroupSound(groups[g], g);
    assert Start(b, g) <= i < Start(b, g + 1);
  }

  lemma {:induction false} StartPastEnd(b: seq<nat>, m: nat)
    requires forall i :: 0 <= i < |b| ==> b[i] < m
    ensures Start(b, m) == |b|
  {
    if b != [] {
      StartPastEnd(b[1..], m);
    }
  }

  /** Group by group, the committed executions come in their committed order, all of them, and
      no group is empty. */
  lemma {:induction false} GroupsPartition(headers: map<string, string>, groups: seq<Group>,
                                           executions: seq<Execution>)
    requires Committed(headers, groups, executions)
    ensures ByGroup(executions, groups, |groups|) == executions
    ensures forall g :: 0 <= g < |groups| ==> GroupExecutions(executions, groups[g].groupId) != []
  {
    var b :| InGroups(executions, b) && Blocks(b, |groups|);
    BlocksCover(b, |groups|);
    ByGroupIsPrefix(executions, groups, b, |groups|);
    StartPastEnd(b, |groups|);
    assert executions[..|executions|] == executions;
    forall g: nat | g < |groups|
      ensures GroupExecutions(executions, groups[g].groupId) != []
    {
      assert g in b;
      BlockNonEmpty(executions, groups, b, g);
    }
  }
}
