/** Assembling a batch document: every group's ledger merged with what its report produced. */
module BatchDocument {
  import opened LiveRows
  import opened Numerals
  import opened StableSort
  import opened BatchManifest

  const LedgerStates: seq<string> :=
    ["success", "failed", "pending", "running", "cancelled", "interrupted", "unknown"]

  const ResultStates: seq<string> :=
    ["complete", "partial", "missing", "unparseable", "not_run", "not_reported"]

  /** A committed execution as the ledger has it.  `coordinate` is the place of its coordinate
      key in natural order. */
  datatype Ledger = Ledger(executionId: Option<string>, definition: Option<string>, state: string, coordinate: int)

  /** What a group's report says of one execution; without an identifier it matched none. */
  datatype Entry = Entry(executionId: Option<string>, resultState: string, results: Option<string>, coordinate: int)
  {
    predicate Matched() {
      executionId.Some? && executionId.value != ""
    }
  }

  /** A group's report: its entries and its own diagnostics. */
  datatype Fragment = Fragment(entries: seq<Entry>, diagnostics: seq<string>)

  datatype GroupSpec = GroupSpec(groupId: string, kind: string, ledger: seq<Ledger>, fragment: Option<Fragment>,
                                 selected: bool, reportFailed: bool, hasLedger: bool)

  /** `reportFailed` stands for the problem that the group's report failed. */
  datatype Record = Record(executionId: Option<string>, groupId: string, kind: string, definition: Option<string>,
                           ledgerState: string, resultState: string, reportFailed: bool, coordinate: int,
                           results: Option<string>)

  /** A diagnostic of the document, with the group it is about. */
  datatype Note =
    | FromReport(groupId: string, text: string)
    | NoExecutionLedger(groupId: string)
    | ExecutionUnmatched(groupId: string, entry: Entry)

  // ----- merging one group -----

  /** `_absent_state`. */
  function AbsentState(spec: GroupSpec, ledger: Ledger): string {
    if !spec.selected then "not_reported"
    else if ledger.state != "success" then "not_run"
    else "missing"
  }

  /** `_merge_execution`. */
  function MergeExecution(spec: GroupSpec, ledger: Ledger, entry: Option<Entry>): Record {
    match entry
    case None =>
      Record(ledger.executionId, spec.groupId, spec.kind, ledger.definition, ledger.state,
             AbsentState(spec, ledger), AbsentState(spec, ledger) == "missing" && spec.reportFailed,
             ledger.coordinate, None)
    case Some(e) =>
      var ran := ledger.state == "success" || ledger.state == "unknown";
      Record(ledger.executionId, spec.groupId, spec.kind, ledger.definition, ledger.state,
             if ran then e.resultState else "not_run", false, e.coordinate, if ran then e.results else None)
  }

  /** The entry a dictionary by identifier ends up with: the last one. */
  function LastWith(entries: seq<Entry>, id: Option<string>): Option<Entry> {
    if entries == [] || id.None? || id.value == "" then None
    else if entries[|entries| - 1].executionId == id then Some(entries[|entries| - 1])
    else LastWith(entries[..|entries| - 1], id)
  }

  function Unmatched(entries: seq<Entry>): seq<Entry> {
    if entries == [] then []
    else
      Unmatched(entries[..|entries| - 1])
      + if entries[|entries| - 1].Matched() then [] else [entries[|entries| - 1]]
  }

  function Entries(spec: GroupSpec): seq<Entry> {
    if spec.fragment.Some? then spec.fragment.value.entries else []
  }

  const NoLedger := Ledger(None, None, "unknown", 0)

  function Merged(spec: GroupSpec, ledger: seq<Ledger>): (r: seq<Record>)
    ensures |r| == |ledger|
  {
    seq(|ledger|, i requires 0 <= i < |ledger| =>
      MergeExecution(spec, ledger[i], LastWith(Entries(spec), ledger[i].executionId)))
  }

  function Strays(spec: GroupSpec, entries: seq<Entry>): (r: seq<Record>)
    ensures |r| == |entries|
  {
    seq(|entries|, i requires 0 <= i < |entries| => MergeExecution(spec, NoLedger, Some(entries[i])))
  }

  /** One record per ledger entry, then one per unmatched entry where there is no ledger. */
  function GroupRecords(spec: GroupSpec): seq<Record> {
    Merged(spec, spec.ledger) + if spec.hasLedger then [] else Strays(spec, Unmatched(Entries(spec)))
  }

  function ReportNotes(groupId: string, texts: seq<string>): (r: seq<Note>)
    ensures |r| == |texts|
  {
    seq(|texts|, i requires 0 <= i < |texts| => FromReport(groupId, texts[i]))
  }

  function UnmatchedNotes(groupId: string, entries: seq<Entry>): (r: seq<Note>)
    ensures |r| == |entries|
  {
    seq(|entries|, i requires 0 <= i < |entries| => ExecutionUnmatched(groupId, entries[i]))
  }

  function Texts(spec: GroupSpec): seq<string> {
    if spec.fragment.Some? then spec.fragment.value.diagnostics else []
  }

  /** The report's own diagnostics, then the missing ledger or every unmatched entry. */
  function GroupNotes(spec: GroupSpec): seq<Note> {
    ReportNotes(spec.groupId, Texts(spec))
    + if spec.hasLedger then UnmatchedNotes(spec.groupId, Unmatched(Entries(spec)))
      else [NoExecutionLedger(spec.groupId)]
  }

  /** An entry without an identifier always shows: as a record where there is no ledger, as a
      diagnostic beside one. */
  lemma {:induction false} UnmatchedShown(spec: GroupSpec, e: Entry)
    requires spec.fragment.Some? && e in spec.fragment.value.entries
    requires e.executionId == None || e.executionId == Some("")
    ensures if spec.hasLedger then ExecutionUnmatched(spec.groupId, e) in GroupNotes(spec)
            else Record(None, spec.groupId, spec.kind, None, "unknown", e.resultState, false, e.coordinate, e.results)
                 in GroupRecords(spec)
  {
    var unmatched := Unmatched(Entries(spec));
    UnmatchedKeeps(Entries(spec), e);
    var i :| 0 <= i < |unmatched| && unmatched[i] == e;
    if spec.hasLedger {
      assert UnmatchedNotes(spec.groupId, unmatched)[i] in GroupNotes(spec);
    } else {
      assert Strays(spec, unmatched)[i] in GroupRecords(spec);
    }
  }

  /** The diagnostics of a group: every one its report gives, in order and under the group's name, and
      then that there is no ledger, or one for every unmatched entry. */
  lemma {:induction false} NotesMeaning(spec: GroupSpec, i: nat)
    ensures var notes := GroupNotes(spec);
            var texts := if spec.fragment.Some? then spec.fragment.value.diagnostics else [];
            && |notes| == |texts| + (if spec.hasLedger then |Unmatched(Entries(spec))| else 1)
            && (i < |texts| ==> notes[i] == FromReport(spec.groupId, texts[i]))
            && (|texts| <= i < |notes| && !spec.hasLedger ==> notes[i] == NoExecutionLedger(spec.groupId))
            && (|texts| <= i < |notes| && spec.hasLedger ==>
                  notes[i] == ExecutionUnmatched(spec.groupId, Unmatched(Entries(spec))[i - |texts|]))
  {
    var texts := Texts(spec);
    if i < |texts| {
      assert GroupNotes(spec)[i] == ReportNotes(spec.groupId, texts)[i];
    }
  }

  lemma {:induction false} UnmatchedKeeps(entries: seq<Entry>, e: Entry)
    ensures e in Unmatched(entries) <==> e in entries && !e.Matched()
  {
    if entries != [] {
      UnmatchedKeeps(entries[..|entries| - 1], e);
      assert entries == entries[..|entries| - 1] + [entries[|entries| - 1]];
    }
  }

  /** The `k`-th entry of the report is the one looked up for the `i`-th item of the ledger. */
  ghost predicate Answers(spec: GroupSpec, k: nat, i: nat)
    requires k < |Entries(spec)| && i < |spec.ledger|
  {
    LastAt(Entries(spec), spec.ledger[i].executionId) == Some(k)
  }

  /** Place of the entry a dictionary by identifier ends up with. */
  ghost function LastAt(entries: seq<Entry>, id: Option<string>): Option<nat> {
    if entries == [] || id.None? || id.value == "" then None
    else if entries[|entries| - 1].executionId == id then Some(|entries| - 1)
    else LastAt(entries[..|entries| - 1], id)
  }

  lemma {:induction false} LastAtMeaning(entries: seq<Entry>, id: Option<string>)
    ensures match LastAt(entries, id)
            case None =>
              && LastWith(entries, id) == None
              && (id.None? || id.value == "" || forall j :: 0 <= j < |entries| ==> entries[j].executionId != id)
            case Some(k) =>
              && k < |entries| && LastWith(entries, id) == Some(entries[k]) && entries[k].executionId == id
              && id.Some? && id.value != ""
              && forall j :: k < j < |entries| ==> entries[j].executionId != id
  {
    if entries != [] && id.Some? && id.value != "" && entries[|entries| - 1].executionId != id {
      LastAtMeaning(entries[..|entries| - 1], id);
      assert entries == entries[..|entries| - 1] + [entries[|entries| - 1]];
    }
  }

  /** An entry with an identifier reaches a record exactly when the ledger has that identifier and
      no later entry has it; otherwise nothing in the document tells of it. */
  lemma {:induction false} MatchedReaches(spec: GroupSpec, k: nat)
    requires k < |Entries(spec)| && Entries(spec)[k].Matched()
    ensures (exists i :: 0 <= i < |spec.ledger| && Answers(spec, k, i))
            <==> && (exists i :: 0 <= i < |spec.ledger| && spec.ledger[i].executionId == Entries(spec)[k].executionId)
                 && (forall j :: k < j < |Entries(spec)| ==>
                       Entries(spec)[j].executionId != Entries(spec)[k].executionId)
    ensures forall i :: 0 <= i < |spec.ledger| && Answers(spec, k, i) ==>
      GroupRecords(spec)[i] == MergeExecution(spec, spec.ledger[i], Some(Entries(spec)[k]))
  {
    var entries := Entries(spec);
    forall i | 0 <= i < |spec.ledger|
      ensures Answers(spec, k, i) <==>
              && spec.ledger[i].executionId == entries[k].executionId
              && forall j :: k < j < |entries| ==> entries[j].executionId != entries[k].executionId
      ensures Answers(spec, k, i) ==>
              GroupRecords(spec)[i] == MergeExecution(spec, spec.ledger[i], Some(entries[k]))
    {
      AnswersMeaning(spec, k, i);
    }
  }

  lemma {:induction false} AnswersMeaning(spec: GroupSpec, k: nat, i: nat)
    requires k < |Entries(spec)| && Entries(spec)[k].Matched() && i < |spec.ledger|
    ensures Answers(spec, k, i) <==>
            && spec.ledger[i].executionId == Entries(spec)[k].executionId
            && forall j :: k < j < |Entries(spec)| ==> Entries(spec)[j].executionId != Entries(spec)[k].executionId
    ensures Answers(spec, k, i) ==>
            GroupRecords(spec)[i] == MergeExecution(spec, spec.ledger[i], Some(Entries(spec)[k]))
  {
    LastAtMeaning(Entries(spec), spec.ledger[i].executionId);
  }

  /** So a report's entry can be lost without a word: one entry with an identifier and an empty
      ledger give no record and no diagnostic. */
  lemma {:induction false} MatchedCanVanish(e: Entry)
    requires e.Matched()
    ensures var spec := GroupSpec("0001", "io", [], Some(Fragment([e], [])), true, false, true);
            GroupRecords(spec) == [] && GroupNotes(spec) == []
  {
    assert [e][..0] == [];
    assert Unmatched([e]) == [];
  }

  ghost predicate Indexes(byId: map<string, Entry>, entries: seq<Entry>) {
    forall id :: LastWith(entries, Some(id)) == if id in byId then Some(byId[id]) else None
  }

  lemma {:induction false} IndexOne(byId: map<string, Entry>, entries: seq<Entry>, e: Entry)
    requires Indexes(byId, entries)
    ensures Indexes(if e.Matched() then byId[e.executionId.value := e] else byId, entries + [e])
  {
    assert (entries + [e])[..|entries|] == entries;
    forall id
      ensures LastWith(entries + [e], Some(id))
              == if e.executionId == Some(id) && id != "" then Some(e) else LastWith(entries, Some(id))
    {}
    assert LastWith(entries, Some("")) == None;
  }

  /** The dictionary by identifier, and the entries without one. */
  method IndexEntries(entries: seq<Entry>) returns (byId: map<string, Entry>, unmatched: seq<Entry>)
    ensures Indexes(byId, entries) && unmatched == Unmatched(entries)
  {
    byId, unmatched := map[], [];
    for i := 0 to |entries|
      invariant Indexes(byId, entries[..i]) && unmatched == Unmatched(entries[..i])
    {
      IndexOne(byId, entries[..i], entries[i]);
      assert entries[..i + 1] == entries[..i] + [entries[i]];
      if entries[i].Matched() {
        byId := byId[entries[i].executionId.value := entries[i]];
      } else {
        unmatched := unmatched + [entries[i]];
      }
    }
    assert entries[..|entries|] == entries;
  }

  /** The records of the ledger's entries, looked up in the dictionary. */
  method MergeLedger(spec: GroupSpec, byId: map<string, Entry>) returns (executions: seq<Record>)
    requires Indexes(byId, Entries(spec))
    ensures executions == Merged(spec, spec.ledger)
  {
    executions := [];
    for i := 0 to |spec.ledger|
      invariant executions == Merged(spec, spec.ledger)[..i]
    {
      var id := spec.ledger[i].executionId;
      var entry := if id.Some? && id.value in byId then Some(byId[id.value]) else None;
      assert entry == LastWith(Entries(spec), id);
      executions := executions + [MergeExecution(spec, spec.ledger[i], entry)];
    }
  }

  method MergeStrays(spec: GroupSpec, unmatched: seq<Entry>) returns (executions: seq<Record>)
    ensures executions == Strays(spec, unmatched)
  {
    executions := [];
    for i := 0 to |unmatched|
      invariant executions == Strays(spec, unmatched)[..i]
    {
      executions := executions + [MergeExecution(spec, NoLedger, Some(unmatched[i]))];
    }
  }

  /** `_merge_group`. */
  method MergeGroup(spec: GroupSpec) returns (executions: seq<Record>, diagnostics: seq<Note>)
    ensures executions == GroupRecords(spec) && diagnostics == GroupNotes(spec)
  {
    var byId, unmatched := IndexEntries(Entries(spec));
    executions := MergeLedger(spec, byId);
    diagnostics := ReportNotes(spec.groupId, Texts(spec));
    if !spec.hasLedger {
      diagnostics := diagnostics + [NoExecutionLedger(spec.groupId)];
      var strays := MergeStrays(spec, unmatched);
      executions := executions + strays;
    } else {
      diagnostics := diagnostics + UnmatchedNotes(spec.groupId, unmatched);
    }
  }

  // ----- the whole document -----

  /** `_execution_sort_key`, compared. */
  predicate KeyLe(a: Record, b: Record) {
    || Before(a.groupId, b.groupId)
    || (a.groupId == b.groupId && IdLe(a, b))
  }

  function IdText(r: Record): string {
    if r.executionId.Some? then r.executionId.value else ""
  }

  predicate IdLe(a: Record, b: Record) {
    if a.executionId.None? != b.executionId.None? then a.executionId.Some?
    else Before(IdText(a), IdText(b)) || (IdText(a) == IdText(b) && a.coordinate <= b.coordinate)
  }

  /** Records stand by group, then by identifier with those without one last, then by coordinate. */
  ghost predicate InDocumentOrder(a: Record, b: Record) {
    && (a.groupId != b.groupId ==> Before(a.groupId, b.groupId))
    && (a.groupId == b.groupId && b.executionId.Some? ==> a.executionId.Some?)
    && (a.groupId == b.groupId && a.executionId.Some? && b.executionId.Some? && a.executionId != b.executionId ==>
          Before(a.executionId.value, b.executionId.value))
    && (a.groupId == b.groupId && a.executionId == b.executionId ==> a.coordinate <= b.coordinate)
  }

  lemma {:induction false} KeyMeaning(a: Record, b: Record)
    ensures KeyLe(a, b) <==> InDocumentOrder(a, b)
  {
    BeforeTotal(a.groupId, b.groupId);
    BeforeTotal(IdText(a), IdText(b));
  }

  function ByKey(): (Record, Record) -> bool {
    (a: Record, b: Record) => KeyLe(a, b)
  }

  lemma {:induction false} IdLeTotal(a: Record, b: Record)
    ensures IdLe(a, b) || IdLe(b, a)
  {
    BeforeTotal(IdText(a), IdText(b));
  }

  lemma {:induction false} IdLeTransitive(a: Record, b: Record, c: Record)
    requires IdLe(a, b) && IdLe(b, c)
    ensures IdLe(a, c)
  {
    if Before(IdText(a), IdText(b)) && Before(IdText(b), IdText(c)) {
      BeforeTransitive(IdText(a), IdText(b), IdText(c));
    }
  }

  lemma {:induction false} KeyLeTransitive(a: Record, b: Record, c: Record)
    requires KeyLe(a, b) && KeyLe(b, c)
    ensures KeyLe(a, c)
  {
    if Before(a.groupId, b.groupId) && Before(b.groupId, c.groupId) {
      BeforeTransitive(a.groupId, b.groupId, c.groupId);
    } else if a.groupId == b.groupId == c.groupId {
      BeforeTotal(a.groupId, a.groupId);
      IdLeTransitive(a, b, c);
    }
  }

  lemma {:induction false} ByKeyIsPreorder()
    ensures Preorder(ByKey())
  {
    forall a, b
      ensures KeyLe(a, b) || KeyLe(b, a)
    {
      BeforeTotal(a.groupId, b.groupId);
      IdLeTotal(a, b);
    }
    forall a, b, c | KeyLe(a, b) && KeyLe(b, c)
      ensures KeyLe(a, c)
    {
      KeyLeTransitive(a, b, c);
    }
  }

  function AllRecords(specs: seq<GroupSpec>): seq<Record> {
    if specs == [] then [] else AllRecords(specs[..|specs| - 1]) + GroupRecords(specs[|specs| - 1])
  }

  function AllNotes(specs: seq<GroupSpec>): seq<Note> {
    if specs == [] then [] else AllNotes(specs[..|specs| - 1]) + GroupNotes(specs[|specs| - 1])
  }

  /** The executions and diagnostics of the document `_compose` builds. */
  method Compose(specs: seq<GroupSpec>) returns (executions: seq<Record>, diagnostics: seq<Note>)
    ensures multiset(executions) == multiset(AllRecords(specs)) && Ordered(executions, ByKey())
    ensures executions == SortBy(AllRecords(specs), ByKey()) && diagnostics == AllNotes(specs)
    ensures forall i, j :: 0 <= i < j < |executions| ==> InDocumentOrder(executions[i], executions[j])
  {
    executions, diagnostics := MergeAll(specs);
    ByKeyIsPreorder();
    SortOrders(executions, ByKey());
    SortPermutes(executions, ByKey());
    executions := SortBy(executions, ByKey());
    forall i, j | 0 <= i < j < |executions|
      ensures InDocumentOrder(executions[i], executions[j])
    {
      assert ByKey()(executions[i], executions[j]);
      KeyMeaning(executions[i], executions[j]);
    }
  }

  /** The loop over the groups. */
  method MergeAll(specs: seq<GroupSpec>) returns (executions: seq<Record>, diagnostics: seq<Note>)
    ensures executions == AllRecords(specs) && diagnostics == AllNotes(specs)
  {
    executions, diagnostics := [], [];
    for i := 0 to |specs|
      invariant executions == AllRecords(specs[..i]) && diagnostics == AllNotes(specs[..i])
    {
      var merged, notes := MergeGroup(specs[i]);
      AllAppend(specs, i);
      executions := executions + merged;
      diagnostics := diagnostics + notes;
    }
    assert specs[..|specs|] == specs;
  }

  lemma {:induction false} AllAppend(specs: seq<GroupSpec>, i: nat)
    requires i < |specs|
    ensures AllRecords(specs[..i + 1]) == AllRecords(specs[..i]) + GroupRecords(specs[i])
    ensures AllNotes(specs[..i + 1]) == AllNotes(specs[..i]) + GroupNotes(specs[i])
  {
    assert specs[..i + 1][..i] == specs[..i];
  }

  // ----- a prepared batch -----

  /** What assembly reads besides the manifest: status files, the groups selected, what their
      reports left, which reports failed, and coordinate places from the definitions. */
  datatype Inputs = Inputs(statuses: map<string, string>, selected: set<string>,
                           fragments: map<string, Option<Fragment>>, reportFailed: set<string>,
                           coordinates: map<string, int>)

  /** `execution_status(...).lower()`: anything unexpected is unknown. */
  function StatusOf(inputs: Inputs, executionId: string): (r: string)
    ensures r in LedgerStates
  {
    var raw := if executionId in inputs.statuses then inputs.statuses[executionId] else "";
    if raw == "PENDING" then LedgerStates[2]
    else if raw == "RUNNING" then LedgerStates[3]
    else if raw == "SUCCESS" then LedgerStates[0]
    else if raw == "FAILED" then LedgerStates[1]
    else if raw == "CANCELLED" then LedgerStates[4]
    else if raw == "INTERRUPTED" then LedgerStates[5]
    else LedgerStates[6]
  }

  /** The state of an execution is that of its status file; it is unknown without one, and for any
      other content. */
  lemma {:induction false} StatusMeaning(inputs: Inputs, executionId: string)
    ensures var state, statuses := StatusOf(inputs, executionId), inputs.statuses;
            && (state == "pending" <==> executionId in statuses && statuses[executionId] == "PENDING")
            && (state == "running" <==> executionId in statuses && statuses[executionId] == "RUNNING")
            && (state == "success" <==> executionId in statuses && statuses[executionId] == "SUCCESS")
            && (state == "failed" <==> executionId in statuses && statuses[executionId] == "FAILED")
            && (state == "cancelled" <==> executionId in statuses && statuses[executionId] == "CANCELLED")
            && (state == "interrupted" <==> executionId in statuses && statuses[executionId] == "INTERRUPTED")
            && (state == "unknown" <==>
                  executionId !in statuses
                  || statuses[executionId] !in ["PENDING", "RUNNING", "SUCCESS", "FAILED", "CANCELLED", "INTERRUPTED"])
  {
    assert forall i, j :: 0 <= i < j < 7 ==> LedgerStates[i] != LedgerStates[j];
  }

  function LedgerOf(inputs: Inputs, x: Execution): Ledger {
    Ledger(Some(x.executionId), Some(x.definition), StatusOf(inputs, x.executionId),
           if x.executionId in inputs.coordinates then inputs.coordinates[x.executionId] else 0)
  }

  function Ledgers(inputs: Inputs, executions: seq<Execution>): (r: seq<Ledger>)
    ensures |r| == |executions|
  {
    seq(|executions|, i requires 0 <= i < |executions| => LedgerOf(inputs, executions[i]))
  }

  function FragmentOf(inputs: Inputs, groupId: string): Option<Fragment> {
    if groupId in inputs.fragments then inputs.fragments[groupId] else None
  }

  function SpecOf(group: Group, executions: seq<Execution>, inputs: Inputs): GroupSpec {
    GroupSpec(group.groupId, group.kind, Ledgers(inputs, GroupExecutions(executions, group.groupId)),
              FragmentOf(inputs, group.groupId), group.groupId in inputs.selected,
              group.groupId in inputs.reportFailed, true)
  }

  function Specs(groups: seq<Group>, executions: seq<Execution>, inputs: Inputs): (r: seq<GroupSpec>)
    ensures |r| == |groups|
  {
    seq(|groups|, g requires 0 <= g < |groups| => SpecOf(groups[g], executions, inputs))
  }

  /** Record `r` reports the committed execution `x` as its group's report does: with the results it
      gives for an execution that succeeded or whose status is unknown, and "complete" only where
      the report says so. */
  ghost predicate Reports(r: Record, x: Execution, inputs: Inputs) {
    && r.executionId == Some(x.executionId) && r.groupId == x.groupId && r.definition == Some(x.definition)
    && r.ledgerState == StatusOf(inputs, x.executionId)
    && ResultExplained(r, x, inputs)
  }

  ghost predicate ResultExplained(r: Record, x: Execution, inputs: Inputs) {
    var fragment := if x.groupId in inputs.fragments then inputs.fragments[x.groupId] else None;
    var entry := if fragment.None? then None else LastWith(fragment.value.entries, Some(x.executionId));
    var ran := r.ledgerState == "success" || r.ledgerState == "unknown";
    && r.results == (if entry.Some? && ran then entry.value.results else None)
    && (entry.Some? && ran ==> r.resultState == entry.value.resultState)
    && (entry.Some? && !ran ==> r.resultState == "not_run")
    && (entry.Some? ==> r.coordinate == entry.value.coordinate)
    && (entry.None? && x.executionId in inputs.coordinates ==> r.coordinate == inputs.coordinates[x.executionId])
    && (r.reportFailed <==>
          entry.None? && x.groupId in inputs.selected && r.ledgerState == "success" && x.groupId in inputs.reportFailed)
    && (entry.None? && x.groupId !in inputs.selected ==> r.resultState == "not_reported")
    && (entry.None? && x.groupId in inputs.selected ==>
          r.resultState == if r.ledgerState == "success" then "missing" else "not_run")
  }

  ghost predicate ReportsAll(records: seq<Record>, executions: seq<Execution>, inputs: Inputs) {
    |records| == |executions| && forall i :: 0 <= i < |records| ==> Reports(records[i], executions[i], inputs)
  }

  lemma {:induction false} ReportsJoin(a: seq<Record>, b: seq<Record>, x: seq<Execution>, y: seq<Execution>,
                                       inputs: Inputs)
    requires ReportsAll(a, x, inputs) && ReportsAll(b, y, inputs)
    ensures ReportsAll(a + b, x + y, inputs)
  {}

  lemma {:induction false} InItsGroup(executions: seq<Execution>, groupId: string)
    ensures forall x :: x in GroupExecutions(executions, groupId) ==> x.groupId == groupId
  {
    if executions != [] {
      InItsGroup(executions[..|executions| - 1], groupId);
    }
  }

  lemma {:induction false} GroupReports(group: Group, executions: seq<Execution>, inputs: Inputs)
    ensures ReportsAll(GroupRecords(SpecOf(group, executions, inputs)),
                       GroupExecutions(executions, group.groupId), inputs)
  {
    var own := GroupExecutions(executions, group.groupId);
    var spec := SpecOf(group, executions, inputs);
    InItsGroup(executions, group.groupId);
    forall i | 0 <= i < |own|
      ensures Reports(GroupRecords(spec)[i], own[i], inputs)
    {
      assert own[i] in own;
      MergeReports(spec, own[i], inputs);
    }
  }

  lemma {:induction false} MergeReports(spec: GroupSpec, x: Execution, inputs: Inputs)
    requires spec.groupId == x.groupId && spec.fragment == FragmentOf(inputs, x.groupId)
    requires spec.selected <==> x.groupId in inputs.selected
    requires spec.reportFailed <==> x.groupId in inputs.reportFailed
    ensures var ledger := LedgerOf(inputs, x);
            Reports(MergeExecution(spec, ledger, LastWith(Entries(spec), ledger.executionId)), x, inputs)
  {}

  lemma {:induction false} SpecReports(groups: seq<Group>, executions: seq<Execution>, inputs: Inputs, g: nat)
    requires g < |groups|
    ensures ReportsAll(GroupRecords(Specs(groups, executions, inputs)[g]),
                       GroupExecutions(executions, groups[g].groupId), inputs)
  {
    GroupReports(groups[g], executions, inputs);
  }

  /** What holds of the first `m` groups. */
  ghost predicate ReportsFirst(specs: seq<GroupSpec>, executions: seq<Execution>, groups: seq<Group>, inputs: Inputs,
                               m: nat)
    requires m <= |groups| && m <= |specs|
  {
    ReportsAll(AllRecords(specs[..m]), ByGroup(executions, groups, m), inputs)
  }

  lemma {:induction false} ReportsNext(specs: seq<GroupSpec>, executions: seq<Execution>, groups: seq<Group>,
                                       inputs: Inputs, m: nat)
    requires m < |groups| && m < |specs| && ReportsFirst(specs, executions, groups, inputs, m)
    requires ReportsAll(GroupRecords(specs[m]), GroupExecutions(executions, groups[m].groupId), inputs)
    ensures ReportsFirst(specs, executions, groups, inputs, m + 1)
  {
    AllAppend(specs, m);
    ReportsJoin(AllRecords(specs[..m]), GroupRecords(specs[m]), ByGroup(executions, groups, m),
                GroupExecutions(executions, groups[m].groupId), inputs);
  }

  lemma {:induction false} BatchRecords(groups: seq<Group>, executions: seq<Execution>, inputs: Inputs, m: nat)
    requires m <= |groups|
    ensures ReportsFirst(Specs(groups, executions, inputs), executions, groups, inputs, m)
  {
    if m > 0 {
      BatchRecords(groups, executions, inputs, m - 1);
      SpecReports(groups, executions, inputs, m - 1);
      ReportsNext(Specs(groups, executions, inputs), executions, groups, inputs, m - 1);
    }
  }

  lemma {:induction false} IdsInOrder(a: Record, b: Record, g: nat, h: nat, i: nat, j: nat)
    requires a.groupId == Id(g) && b.groupId == Id(h) && g <= h < MaxExecutions
    requires a.executionId == Some(Id(i)) && b.executionId == Some(Id(j)) && i < j < MaxExecutions
    ensures KeyLe(a, b)
  {
    PaddedOrder(g + 1, h + 1);
    PaddedOrder(i + 1, j + 1);
  }

  /** Records of committed executions are already in document order. */
  lemma {:induction false} CommittedOrder(headers: map<string, string>, groups: seq<Group>,
                                          executions: seq<Execution>, records: seq<Record>, inputs: Inputs, i: nat,
                                          j: nat)
    requires Committed(headers, groups, executions) && ReportsAll(records, executions, inputs)
    requires i < j < |records|
    ensures KeyLe(records[i], records[j])
  {
    var b :| InGroups(executions, b) && Blocks(b, |groups|);
    BlocksCover(b, |groups|);
    assert Reports(records[i], executions[i], inputs) && Reports(records[j], executions[j], inputs);
    IdsInOrder(records[i], records[j], b[i], b[j], i, j);
  }

  lemma {:induction false} GroupRecordKind(spec: GroupSpec, i: nat)
    requires i < |GroupRecords(spec)|
    ensures GroupRecords(spec)[i].groupId == spec.groupId && GroupRecords(spec)[i].kind == spec.kind
  {
    var n := |spec.ledger|;
    if i < n {
      assert GroupRecords(spec)[i] == Merged(spec, spec.ledger)[i];
    } else {
      assert GroupRecords(spec)[i] == Strays(spec, Unmatched(Entries(spec)))[i - n];
    }
  }

  /** Every record is of one of the groups, and of its kind. */
  lemma {:induction false} RecordKind(specs: seq<GroupSpec>, i: nat) returns (g: nat)
    requires i < |AllRecords(specs)|
    ensures g < |specs| && AllRecords(specs)[i].groupId == specs[g].groupId
    ensures AllRecords(specs)[i].kind == specs[g].kind
  {
    var n := |specs| - 1;
    var front := AllRecords(specs[..n]);
    if i < |front| {
      g := RecordKind(specs[..n], i);
    } else {
      g := n;
      GroupRecordKind(specs[n], i - |front|);
    }
  }

  ghost predicate KindsAgree(records: seq<Record>, groups: seq<Group>) {
    forall i, g :: 0 <= i < |records| && 0 <= g < |groups| && records[i].groupId == groups[g].groupId ==>
      records[i].kind == groups[g].kind
  }

  lemma {:induction false} SameGroup(groups: seq<Group>, g: nat, h: nat)
    requires GroupsNumbered(groups) && g < |groups| && h < |groups| && groups[g].groupId == groups[h].groupId
    ensures g == h
  {
    assert GroupSound(groups[g], g) && GroupSound(groups[h], h);
    PaddedInjective(g + 1, h + 1);
  }

  lemma {:induction false} BatchKinds(headers: map<string, string>, groups: seq<Group>, executions: seq<Execution>,
                                      inputs: Inputs)
    requires Committed(headers, groups, executions)
    ensures KindsAgree(AllRecords(Specs(groups, executions, inputs)), groups)
  {
    var specs := Specs(groups, executions, inputs);
    var records := AllRecords(specs);
    forall i, g | 0 <= i < |records| && 0 <= g < |groups| && records[i].groupId == groups[g].groupId
      ensures records[i].kind == groups[g].kind
    {
      var h := RecordKind(specs, i);
      SameGroup(groups, g, h);
    }
  }

  /** `assemble_batch_document`: whichever groups were selected, failed or reported, the document
      has exactly one record per committed execution, in committed order. */
  method AssembleBatch(headers: map<string, string>, groups: seq<Group>, executions: seq<Execution>, inputs: Inputs)
      returns (records: seq<Record>, diagnostics: seq<Note>)
    requires Committed(headers, groups, executions)
    ensures ReportsAll(records, executions, inputs) && KindsAgree(records, groups)
    ensures diagnostics == AllNotes(Specs(groups, executions, inputs))
  {
    records, diagnostics := Compose(Specs(groups, executions, inputs));
    BatchKinds(headers, groups, executions, inputs);
    BatchReports(headers, groups, executions, inputs);
    BatchInOrder(headers, groups, executions, inputs, AllRecords(Specs(groups, executions, inputs)));
  }

  lemma {:induction false} BatchReports(headers: map<string, string>, groups: seq<Group>, executions: seq<Execution>,
                                        inputs: Inputs)
    requires Committed(headers, groups, executions)
    ensures ReportsAll(AllRecords(Specs(groups, executions, inputs)), executions, inputs)
  {
    BatchRecords(groups, executions, inputs, |groups|);
    GroupsPartition(headers, groups, executions);
    var specs := Specs(groups, executions, inputs);
    assert specs[..|groups|] == specs;
  }

  lemma {:induction false} BatchInOrder(headers: map<string, string>, groups: seq<Group>, executions: seq<Execution>,
                                        inputs: Inputs, records: seq<Record>)
    requires Committed(headers, groups, executions) && ReportsAll(records, executions, inputs)
    ensures SortBy(records, ByKey()) == records
  {
    forall i, j | 0 <= i < j < |records|
      ensures ByKey()(records[i], records[j])
    {
      CommittedOrder(headers, groups, executions, records, inputs, i, j);
    }
    SortKeepsOrdered(records, ByKey());
  }

  // ----- outcome -----

  datatype Outcome = Outcome(complete: bool, total: nat, ledger: seq<nat>, results: seq<nat>,
                             groupsReported: seq<string>, groupsNotReported: seq<string>)

  ghost predicate Sorted(ids: seq<string>) {
    forall i, j :: 0 <= i < j < |ids| ==> !Before(ids[j], ids[i])
  }

  function ByText(): (string, string) -> bool {
    (a: string, b: string) => a == b || Before(a, b)
  }

  lemma {:induction false} ByTextIsPreorder()
    ensures Preorder(ByText())
  {
    forall a: string, b: string
      ensures ByText()(a, b) || ByText()(b, a)
    {
      BeforeTotal(a, b);
    }
    forall a: string, b: string, c: string | ByText()(a, b) && ByText()(b, c)
      ensures ByText()(a, c)
    {
      if Before(a, b) && Before(b, c) {
        BeforeTransitive(a, b, c);
      }
    }
  }

  /** Identifiers of the groups with a report, or of those without. */
  function IdsWhere(specs: seq<GroupSpec>, reported: bool): seq<string> {
    if specs == [] then []
    else
      IdsWhere(specs[..|specs| - 1], reported)
      + if specs[|specs| - 1].fragment.Some? == reported then [specs[|specs| - 1].groupId] else []
  }

  function GroupIdsOf(specs: seq<GroupSpec>): seq<string> {
    if specs == [] then [] else GroupIdsOf(specs[..|specs| - 1]) + [specs[|specs| - 1].groupId]
  }

  /** Every group is in exactly one of the two lists. */
  lemma {:induction false} GroupsSplit(specs: seq<GroupSpec>)
    ensures multiset(IdsWhere(specs, true)) + multiset(IdsWhere(specs, false)) == multiset(GroupIdsOf(specs))
  {
    if specs != [] {
      var front, last := specs[..|specs| - 1], specs[|specs| - 1];
      GroupsSplit(front);
      if last.fragment.Some? {
        assert IdsWhere(specs, false) == IdsWhere(front, false);
      } else {
        assert IdsWhere(specs, true) == IdsWhere(front, true);
      }
    }
  }

  /** The second list is empty exactly when every group has a report. */
  lemma {:induction false} AllReported(specs: seq<GroupSpec>)
    ensures IdsWhere(specs, false) == [] <==> forall g :: 0 <= g < |specs| ==> specs[g].fragment.Some?
  {
    if specs != [] {
      var front, last := specs[..|specs| - 1], specs[|specs| - 1];
      AllReported(front);
      assert specs == front + [last];
    }
  }

  method CollectIds(specs: seq<GroupSpec>, reported: bool) returns (ids: seq<string>)
    ensures ids == IdsWhere(specs, reported)
  {
    ids := [];
    for g := 0 to |specs|
      invariant ids == IdsWhere(specs[..g], reported)
    {
      if specs[g].fragment.Some? == reported {
        ids := ids + [specs[g].groupId];
      }
      assert specs[..g + 1][..g] == specs[..g];
    }
    assert specs[..|specs|] == specs;
  }

  function Count(states: seq<string>, state: string): nat {
    if states == [] then 0
    else Count(states[..|states| - 1], state) + if states[|states| - 1] == state then 1 else 0
  }

  function LedgerStatesOf(records: seq<Record>): (r: seq<string>)
    ensures |r| == |records|
  {
    seq(|records|, i requires 0 <= i < |records| => records[i].ledgerState)
  }

  function ResultStatesOf(records: seq<Record>): (r: seq<string>)
    ensures |r| == |records|
  {
    seq(|records|, i requires 0 <= i < |records| => records[i].resultState)
  }

  ghost function Total(counts: seq<nat>): nat {
    if counts == [] then 0 else Total(counts[..|counts| - 1]) + counts[|counts| - 1]
  }

  function Counts(states: seq<string>, names: seq<string>): (r: seq<nat>)
    ensures |r| == |names|
  {
    seq(|names|, k requires 0 <= k < |names| => Count(states, names[k]))
  }

  method CountStates(states: seq<string>, names: seq<string>) returns (counts: seq<nat>)
    ensures counts == Counts(states, names)
  {
    counts := seq(|names|, _ => 0);
    for i := 0 to |states|
      invariant counts == Counts(states[..i], names)
    {
      var bumped := seq(|names|, k requires 0 <= k < |names| =>
        counts[k] + if states[i] == names[k] then 1 else 0);
      assert states[..i + 1][..i] == states[..i];
      counts := bumped;
    }
    assert states[..|states|] == states;
  }

  /** How many of the records are in each state. */
  ghost predicate Counted(counts: seq<nat>, states: seq<string>, names: seq<string>) {
    && |counts| == |names|
    && forall k :: 0 <= k < |names| ==> counts[k] == |set i | 0 <= i < |states| && states[i] == names[k]|
  }

  lemma {:induction false} CountMeaning(states: seq<string>, name: string)
    ensures Count(states, name) == |set i | 0 <= i < |states| && states[i] == name|
  {
    if states != [] {
      var n := |states| - 1;
      CountMeaning(states[..n], name);
      var before, after := set i | 0 <= i < n && states[..n][i] == name, set i | 0 <= i < |states| && states[i] == name;
      assert after == before + if states[n] == name then {n} else {};
    }
  }

  lemma {:induction false} CountsMeaning(states: seq<string>, names: seq<string>)
    ensures Counted(Counts(states, names), states, names)
  {
    forall k | 0 <= k < |names|
      ensures Counts(states, names)[k] == |set i | 0 <= i < |states| && states[i] == names[k]|
    {
      CountMeaning(states, names[k]);
    }
  }

  method AllComplete(records: seq<Record>) returns (complete: bool)
    ensures complete <==> records != [] && forall i :: 0 <= i < |records| ==>
              records[i].ledgerState == "success" && records[i].resultState == "complete"
  {
    complete := records != [];
    for i := 0 to |records|
      invariant complete <==> records != [] && forall k :: 0 <= k < i ==>
                  records[k].ledgerState == "success" && records[k].resultState == "complete"
    {
      complete := complete && records[i].ledgerState == "success" && records[i].resultState == "complete";
    }
  }

  /** `_batch_outcome`. */
  method BatchOutcome(records: seq<Record>, specs: seq<GroupSpec>) returns (o: Outcome)
    ensures o.total == |records|
    ensures o.ledger == Counts(LedgerStatesOf(records), LedgerStates)
    ensures o.results == Counts(ResultStatesOf(records), ResultStates)
    ensures Counted(o.ledger, seq(|records|, i requires 0 <= i < |records| => records[i].ledgerState), LedgerStates)
    ensures Counted(o.results, seq(|records|, i requires 0 <= i < |records| => records[i].resultState), ResultStates)
    ensures o.complete <==> records != [] && forall i :: 0 <= i < |records| ==>
              records[i].ledgerState == "success" && records[i].resultState == "complete"
    ensures multiset(o.groupsReported) == multiset(IdsWhere(specs, true)) && Sorted(o.groupsReported)
    ensures multiset(o.groupsNotReported) == multiset(IdsWhere(specs, false)) && Sorted(o.groupsNotReported)
    ensures multiset(o.groupsReported) + multiset(o.groupsNotReported) == multiset(GroupIdsOf(specs))
  {
    var ledger := CountStates(LedgerStatesOf(records), LedgerStates);
    var results := CountStates(ResultStatesOf(records), ResultStates);
    var complete := AllComplete(records);
    var reported := SortedIds(specs, true);
    var notReported := SortedIds(specs, false);
    GroupsSplit(specs);
    CountsMeaning(LedgerStatesOf(records), LedgerStates);
    CountsMeaning(ResultStatesOf(records), ResultStates);
    return Outcome(complete, |records|, ledger, results, reported, notReported);
  }

  method SortedIds(specs: seq<GroupSpec>, reported: bool) returns (ids: seq<string>)
    ensures multiset(ids) == multiset(IdsWhere(specs, reported)) && Sorted(ids)
  {
    var some := CollectIds(specs, reported);
    ByTextIsPreorder();
    SortOrders(some, ByText());
    SortPermutes(some, ByText());
    ids := SortBy(some, ByText());
    forall i, j | 0 <= i < j < |ids|
      ensures !Before(ids[j], ids[i])
    {
      assert ByText()(ids[i], ids[j]);
      BeforeTotal(ids[i], ids[j]);
    }
  }

  lemma {:induction false} TotalStep(states: seq<string>, x: string, names: seq<string>)
    requires Distinct(names)
    ensures Total(Counts(states + [x], names)) == Total(Counts(states, names)) + if x in names then 1 else 0
  {
    if names != [] {
      var n := |names| - 1;
      TotalStep(states, x, names[..n]);
      assert Counts(states, names)[..n] == Counts(states, names[..n]);
      assert Counts(states + [x], names)[..n] == Counts(states + [x], names[..n]);
      assert (states + [x])[..|states|] == states;
      assert names == names[..n] + [names[n]] && names[n] !in names[..n];
    }
  }

  lemma {:induction false} TotalOfNone(names: seq<string>)
    ensures Total(Counts([], names)) == 0
  {
    if names != [] {
      TotalOfNone(names[..|names| - 1]);
      assert Counts([], names)[..|names| - 1] == Counts([], names[..|names| - 1]);
    }
  }

  /** The counts add up to the total exactly when every state is one of the counted ones. */
  lemma {:induction false} CountsAddUp(states: seq<string>, names: seq<string>)
    requires Distinct(names)
    ensures Total(Counts(states, names)) <= |states|
    ensures Total(Counts(states, names)) == |states| <==> forall i :: 0 <= i < |states| ==> states[i] in names
  {
    if states == [] {
      TotalOfNone(names);
    } else {
      var n := |states| - 1;
      CountsAddUp(states[..n], names);
      assert states == states[..n] + [states[n]];
      TotalStep(states[..n], states[n], names);
    }
  }

  lemma {:induction false} StatesDistinct()
    ensures Distinct(LedgerStates) && Distinct(ResultStates)
  {}

  /** The result states a report may give. */
  ghost predicate KnownResults(inputs: Inputs) {
    forall g, i ::
      g in inputs.fragments && inputs.fragments[g].Some? && 0 <= i < |inputs.fragments[g].value.entries| ==>
      inputs.fragments[g].value.entries[i].resultState in ResultStates
  }

  lemma {:induction false} LastIsEntry(entries: seq<Entry>, id: Option<string>)
    requires LastWith(entries, id).Some?
    ensures LastWith(entries, id).value in entries
  {
    if entries[|entries| - 1].executionId != id {
      LastIsEntry(entries[..|entries| - 1], id);
    }
  }

  lemma {:induction false} KnownRecord(r: Record, x: Execution, inputs: Inputs)
    requires Reports(r, x, inputs) && KnownResults(inputs)
    ensures r.ledgerState in LedgerStates && r.resultState in ResultStates
  {
    assert ResultStates[4] == "not_run" && ResultStates[2] == "missing" && ResultStates[5] == "not_reported";
    var fragment := FragmentOf(inputs, x.groupId);
    if fragment.Some? && LastWith(fragment.value.entries, Some(x.executionId)).Some? {
      LastIsEntry(fragment.value.entries, Some(x.executionId));
    }
  }

  /** Both sets of counts of a batch document add up to its executions. */
  lemma {:induction false} OutcomeConserved(records: seq<Record>, executions: seq<Execution>, inputs: Inputs)
    requires ReportsAll(records, executions, inputs) && KnownResults(inputs)
    ensures Total(Counts(LedgerStatesOf(records), LedgerStates)) == |executions|
    ensures Total(Counts(ResultStatesOf(records), ResultStates)) == |executions|
  {
    StatesDistinct();
    CountsAddUp(LedgerStatesOf(records), LedgerStates);
    CountsAddUp(ResultStatesOf(records), ResultStates);
    forall i | 0 <= i < |records|
      ensures records[i].ledgerState in LedgerStates && records[i].resultState in ResultStates
    {
      KnownRecord(records[i], executions[i], inputs);
    }
  }

  /** The group's report has an entry for the execution, and it is complete. */
  ghost predicate ReportedComplete(x: Execution, inputs: Inputs) {
    var fragment := FragmentOf(inputs, x.groupId);
    && fragment.Some? && LastWith(fragment.value.entries, Some(x.executionId)).Some?
    && LastWith(fragment.value.entries, Some(x.executionId)).value.resultState == "complete"
  }

  lemma {:induction false} CompleteMeansReported(r: Record, x: Execution, inputs: Inputs)
    requires Reports(r, x, inputs) && r.ledgerState == "success" && r.resultState == "complete"
    ensures StatusOf(inputs, x.executionId) == "success" && ReportedComplete(x, inputs)
  {}

  /** A complete document means that every committed execution succeeded and that its group's
      report has a complete entry for it; in particular every group was reported. */
  lemma {:induction false} CompleteMeansAll(headers: map<string, string>, groups: seq<Group>,
                                            executions: seq<Execution>, records: seq<Record>, inputs: Inputs)
    requires Committed(headers, groups, executions) && ReportsAll(records, executions, inputs)
    requires forall i :: 0 <= i < |records| ==>
               records[i].ledgerState == "success" && records[i].resultState == "complete"
    ensures forall i :: 0 <= i < |executions| ==>
      StatusOf(inputs, executions[i].executionId) == "success" && ReportedComplete(executions[i], inputs)
    ensures IdsWhere(Specs(groups, executions, inputs), false) == []
  {
    forall i | 0 <= i < |executions|
      ensures StatusOf(inputs, executions[i].executionId) == "success" && ReportedComplete(executions[i], inputs)
    {
      CompleteMeansReported(records[i], executions[i], inputs);
    }
    GroupsPartition(headers, groups, executions);
    EveryGroupReported(groups, executions, inputs);
  }

  lemma {:induction false} EveryGroupReported(groups: seq<Group>, executions: seq<Execution>, inputs: Inputs)
    requires forall i :: 0 <= i < |executions| ==> ReportedComplete(executions[i], inputs)
    requires forall g :: 0 <= g < |groups| ==> GroupExecutions(executions, groups[g].groupId) != []
    ensures IdsWhere(Specs(groups, executions, inputs), false) == []
  {
    var specs := Specs(groups, executions, inputs);
    forall g | 0 <= g < |specs|
      ensures specs[g].fragment.Some?
    {
      var own := GroupExecutions(executions, groups[g].groupId);
      InItsGroup(executions, groups[g].groupId);
      OwnAreCommitted(executions, groups[g].groupId);
      assert own[0] in own;
      assert own[0] in executions;
    }
    AllReported(specs);
  }

  lemma {:induction false} OwnAreCommitted(executions: seq<Execution>, groupId: string)
    ensures Within(GroupExecutions(executions, groupId), executions)
  {
    if executions != [] {
      OwnAreCommitted(executions[..|executions| - 1], groupId);
    }
  }
}
