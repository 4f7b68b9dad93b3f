/**
 * Agent runs and their store: internal/agents/types.go and
 * internal/storage/metadata/agents/store.go. The file store appends a snapshot
 * an Upsert and recovers a run by folding pickLatest over the log.
 */
module AgentStore {
  import opened Wrappers
  import opened Sorting
  import opened Text
  import opened Times

  datatype RunStatus = Pending | Running | AwaitingApproval | Completed | Failed | OtherStatus(text: string)

  datatype StepStatus =
    | StepPending | StepRunning | StepBlocked | StepCompleted | StepFailed | OtherStepStatus(text: string)

  datatype EvidenceRef = EvidenceRef(kind: string, id: string, source: string, summary: string, uri: string,
                                     score: real)

  datatype Step = Step(
    id: string,
    kind: string,
    summary: string,
    toolName: string,
    status: StepStatus,
    evidence: seq<EvidenceRef>,
    startedAt: Time,
    completedAt: Option<Time>)

  datatype Run = Run(
    id: string,
    tenantId: string,
    caseId: string,
    sessionId: string,
    goal: string,
    status: RunStatus,
    runtimeName: string,
    plannerName: string,
    startedAt: Time,
    updatedAt: Time,
    completedAt: Option<Time>)

  datatype Record = Record(run: Run, steps: seq<Step>)

  // ---------------------------------------------------------------- normalisation and validation

  predicate EvidenceLe(a: EvidenceRef, b: EvidenceRef) {
    a.score > b.score || (a.score == b.score && StringLe(a.id, b.id))
  }

  lemma EvidenceOrder()
    ensures TotalPreorder(EvidenceLe)
  {
    forall a: EvidenceRef, b: EvidenceRef
      ensures EvidenceLe(a, b) || EvidenceLe(b, a)
    {
      StringLeTotal(a.id, b.id);
    }
    forall a: EvidenceRef, b: EvidenceRef, c: EvidenceRef | EvidenceLe(a, b) && EvidenceLe(b, c)
      ensures EvidenceLe(a, c)
    {
      if a.score == b.score == c.score {
        StringLeTransitive(a.id, b.id, c.id);
      }
    }
  }

  /** The stable sort makes this a function. */
  function CloneEvidence(evidence: seq<EvidenceRef>): seq<EvidenceRef> {
    Sort(EvidenceLe, evidence)
  }

  function NormalizeStep(step: Step): Step {
    Step(TrimSpace(step.id), TrimSpace(step.kind), TrimSpace(step.summary), TrimSpace(step.toolName),
         step.status, CloneEvidence(step.evidence), step.startedAt, step.completedAt)
  }

  function NormalizeSteps(steps: seq<Step>): (r: seq<Step>)
    ensures |r| == |steps| && forall k: nat | k < |steps| :: r[k] == NormalizeStep(steps[k])
  {
    if steps == [] then [] else NormalizeSteps(steps[..|steps| - 1]) + [NormalizeStep(steps[|steps| - 1])]
  }

  function NormalizeRun(run: Run): Run {
    Run(TrimSpace(run.id), TrimSpace(run.tenantId), TrimSpace(run.caseId), TrimSpace(run.sessionId),
        TrimSpace(run.goal), run.status, TrimSpace(run.runtimeName), TrimSpace(run.plannerName),
        run.startedAt, run.updatedAt, run.completedAt)
  }

  function NormalizeRecord(record: Record): Record {
    Record(NormalizeRun(record.run), NormalizeSteps(record.steps))
  }

  predicate ValidStep(step: Step) {
    && !Blank(step.id) && !Blank(step.kind) && !Blank(step.summary)
    && !step.status.OtherStepStatus? && step.startedAt != ZERO_TIME
  }

  predicate ValidRun(run: Run) {
    && !Blank(run.id) && !Blank(run.tenantId) && !Blank(run.sessionId) && !Blank(run.goal)
    && !run.status.OtherStatus? && run.startedAt != ZERO_TIME && run.updatedAt != ZERO_TIME
  }

  predicate ValidRecord(record: Record) {
    ValidRun(record.run) && forall k: nat | k < |record.steps| :: ValidStep(record.steps[k])
  }

  lemma NormalizeStepTwice(step: Step)
    ensures NormalizeStep(NormalizeStep(step)) == NormalizeStep(step)
  {
    TrimTrim(IsSpace, step.id);
    TrimTrim(IsSpace, step.kind);
    TrimTrim(IsSpace, step.summary);
    TrimTrim(IsSpace, step.toolName);
    EvidenceOrder();
    SortIsSort(EvidenceLe, step.evidence);
    SortFixed(EvidenceLe, CloneEvidence(step.evidence));
  }

  lemma NormalizeRunTwice(run: Run)
    ensures NormalizeRun(NormalizeRun(run)) == NormalizeRun(run)
  {
    TrimTrim(IsSpace, run.id);
    TrimTrim(IsSpace, run.tenantId);
    TrimTrim(IsSpace, run.caseId);
    TrimTrim(IsSpace, run.sessionId);
    TrimTrim(IsSpace, run.goal);
    TrimTrim(IsSpace, run.runtimeName);
    TrimTrim(IsSpace, run.plannerName);
  }

  /** Each read of the file normalises again; it changes nothing. */
  lemma NormalizeRecordTwice(record: Record)
    ensures NormalizeRecord(NormalizeRecord(record)) == NormalizeRecord(record)
  {
    NormalizeRunTwice(record.run);
    var once := NormalizeSteps(record.steps);
    var twice := NormalizeSteps(once);
    forall k: nat | k < |once|
      ensures twice[k] == once[k]
    {
      NormalizeStepTwice(record.steps[k]);
    }
  }

  /** Validation looks only at trimmed text, so normalising does not change the verdict. */
  lemma ValidityIgnoresSpaces(record: Record)
    ensures ValidRecord(NormalizeRecord(record)) <==> ValidRecord(record)
  {
    TrimNotBlank(record.run.id);
    TrimNotBlank(record.run.tenantId);
    TrimNotBlank(record.run.sessionId);
    TrimNotBlank(record.run.goal);
    var steps := NormalizeRecord(record).steps;
    forall k: nat | k < |steps|
      ensures ValidStep(steps[k]) <==> ValidStep(record.steps[k])
    {
      TrimNotBlank(record.steps[k].id);
      TrimNotBlank(record.steps[k].kind);
      TrimNotBlank(record.steps[k].summary);
    }
  }

  // ---------------------------------------------------------------- what is stored of a record

  /** A stored step: the same status, times and evidence, best score first, and the texts without outer spaces. */
  predicate StoredStep(step: Step, stored: Step) {
    && stored.status == step.status && stored.startedAt == step.startedAt && stored.completedAt == step.completedAt
    && stored.id == TrimSpace(step.id) && stored.kind == TrimSpace(step.kind)
    && stored.summary == TrimSpace(step.summary) && stored.toolName == TrimSpace(step.toolName)
    && multiset(stored.evidence) == multiset(step.evidence) && BestFirst(stored.evidence)
  }

  /** By falling score, then by rising id. */
  predicate BestFirst(evidence: seq<EvidenceRef>) {
    forall i: nat, j: nat | i < j < |evidence| ::
      && evidence[i].score >= evidence[j].score
      && (evidence[i].score == evidence[j].score ==> StringLe(evidence[i].id, evidence[j].id))
  }

  predicate StoredRun(run: Run, stored: Run) {
    && stored.status == run.status && stored.startedAt == run.startedAt
    && stored.updatedAt == run.updatedAt && stored.completedAt == run.completedAt
    && stored.id == TrimSpace(run.id) && stored.tenantId == TrimSpace(run.tenantId)
    && stored.caseId == TrimSpace(run.caseId) && stored.sessionId == TrimSpace(run.sessionId)
    && stored.goal == TrimSpace(run.goal) && stored.runtimeName == TrimSpace(run.runtimeName)
    && stored.plannerName == TrimSpace(run.plannerName)
  }

  /** What the store keeps of a record: everything but outer spaces and the order of evidence. */
  predicate StoredAs(record: Record, stored: Record) {
    && StoredRun(record.run, stored.run) && |stored.steps| == |record.steps|
    && forall k: nat | k < |record.steps| :: StoredStep(record.steps[k], stored.steps[k])
  }

  lemma NormalizeStores(record: Record)
    ensures StoredAs(record, NormalizeRecord(record))
  {
    hide EvidenceLe, TrimSpace;
    EvidenceOrder();
    forall k: nat | k < |record.steps|
      ensures StoredStep(record.steps[k], NormalizeRecord(record).steps[k])
    {
      var evidence := record.steps[k].evidence;
      SortIsSort(EvidenceLe, evidence);
      SortedIsBestFirst(Sort(EvidenceLe, evidence));
    }
  }

  lemma SortedIsBestFirst(evidence: seq<EvidenceRef>)
    ensures Sorted(EvidenceLe, evidence) <==> BestFirst(evidence)
  {
  }

  /** A record whose texts end in no spaces and whose evidence is in order is stored as it is. */
  predicate Plain(record: Record) {
    && (forall text | text in RunTexts(record.run) :: BareEnds(IsSpace, text))
    && forall step | step in record.steps ::
         BestFirst(step.evidence) && forall text | text in StepTexts(step) :: BareEnds(IsSpace, text)
  }

  function RunTexts(run: Run): seq<string> {
    [run.id, run.tenantId, run.caseId, run.sessionId, run.goal, run.runtimeName, run.plannerName]
  }

  function StepTexts(step: Step): seq<string> {
    [step.id, step.kind, step.summary, step.toolName]
  }

  lemma BareTextStays(text: string)
    ensures BareEnds(IsSpace, text) <==> TrimSpace(text) == text
  {
    if BareEnds(IsSpace, text) {
      TrimBare(IsSpace, text);
    }
    var lo, hi := TrimCut(IsSpace, text);
  }

  lemma PlainStepStays(step: Step)
    requires BestFirst(step.evidence) && forall text | text in StepTexts(step) :: BareEnds(IsSpace, text)
    ensures NormalizeStep(step) == step
  {
    hide TrimSpace, BareEnds;
    SortedIsBestFirst(step.evidence);
    SortFixed(EvidenceLe, step.evidence);
    var texts := StepTexts(step);
    BareTextStays(texts[0]);
    BareTextStays(texts[1]);
    BareTextStays(texts[2]);
    BareTextStays(texts[3]);
  }

  lemma PlainRunStays(run: Run)
    requires forall text | text in RunTexts(run) :: BareEnds(IsSpace, text)
    ensures NormalizeRun(run) == run
  {
    hide TrimSpace, BareEnds;
    var texts := RunTexts(run);
    forall k: nat | k < |texts|
      ensures TrimSpace(texts[k]) == texts[k]
    {
      BareTextStays(texts[k]);
    }
    assert TrimSpace(texts[0]) == texts[0] && TrimSpace(texts[1]) == texts[1] && TrimSpace(texts[2]) == texts[2];
    assert TrimSpace(texts[3]) == texts[3] && TrimSpace(texts[4]) == texts[4] && TrimSpace(texts[5]) == texts[5];
    assert TrimSpace(texts[6]) == texts[6];
  }

  lemma PlainRecordStays(record: Record)
    requires Plain(record)
    ensures NormalizeRecord(record) == record
  {
    hide NormalizeStep, NormalizeRun, BestFirst;
    PlainRunStays(record.run);
    forall k: nat | k < |record.steps|
      ensures NormalizeStep(record.steps[k]) == record.steps[k]
    {
      PlainStepStays(record.steps[k]);
    }
  }

  /** Exactly when Upsert takes a record: which texts, times and statuses it asks for. */
  lemma ValidExactly(record: Record)
    ensures ValidRecord(record) <==>
              && (forall text | text in [record.run.id, record.run.tenantId, record.run.sessionId, record.run.goal] ::
                    TrimSpace(text) != "")
              && record.run.status in {Pending, Running, AwaitingApproval, Completed, Failed}
              && record.run.startedAt != 0 && record.run.updatedAt != 0
              && forall k: nat | k < |record.steps| :: StorableStep(record.steps[k])
  {
    hide TrimSpace, Blank;
    var texts := [record.run.id, record.run.tenantId, record.run.sessionId, record.run.goal];
    forall k: nat | k < 4
      ensures Blank(texts[k]) <==> TrimSpace(texts[k]) == ""
    {
      BlankTrims(texts[k]);
    }
    assert texts[0] in texts && texts[1] in texts && texts[2] in texts && texts[3] in texts;
    forall k: nat | k < |record.steps|
      ensures ValidStep(record.steps[k]) <==> StorableStep(record.steps[k])
    {
      BlankTrims(record.steps[k].id);
      BlankTrims(record.steps[k].kind);
      BlankTrims(record.steps[k].summary);
    }
  }

  predicate StorableStep(step: Step) {
    && TrimSpace(step.id) != "" && TrimSpace(step.kind) != "" && TrimSpace(step.summary) != ""
    && step.status in {StepPending, StepRunning, StepBlocked, StepCompleted, StepFailed} && step.startedAt != 0
  }

  // ---------------------------------------------------------------- pickLatest

  /** candidate replaces existing: later UpdatedAt, or the same and a later CompletedAt, nil lowest. */
  predicate Outranks(candidate: Record, existing: Record) {
    candidate.run.updatedAt > existing.run.updatedAt ||
    (candidate.run.updatedAt == existing.run.updatedAt && candidate.run.completedAt.Some? &&
      (existing.run.completedAt.None? || candidate.run.completedAt.value > existing.run.completedAt.value))
  }

  function PickLatest(existing: Record, candidate: Record): Record {
    if candidate.run.updatedAt > existing.run.updatedAt then candidate
    else if candidate.run.updatedAt == existing.run.updatedAt then
      if candidate.run.completedAt.Some? && existing.run.completedAt.None? then candidate
      else if candidate.run.completedAt.Some? && existing.run.completedAt.Some?
              && candidate.run.completedAt.value > existing.run.completedAt.value then candidate
      else existing
    else existing
  }

  function PickOption(a: Option<Record>, b: Option<Record>): Option<Record> {
    if a.None? then b else if b.None? then a else Some(PickLatest(a.value, b.value))
  }

  /** The fold of FileStore.Get over the log, in file order. */
  function Latest(log: seq<Record>, id: string): Option<Record> {
    if log == [] then None
    else
      var before := Latest(log[..|log| - 1], id);
      var record := log[|log| - 1];
      if record.run.id != id then before
      else if before.None? then Some(record)
      else Some(PickLatest(before.value, record))
  }

  /** The fold finds the first of the greatest records of the run. */
  ghost predicate IsFirstGreatest(log: seq<Record>, id: string, i: nat) {
    && i < |log| && log[i].run.id == id
    && (forall j: nat | j < |log| && log[j].run.id == id :: !Outranks(log[j], log[i]))
    && (forall j: nat | j < i && log[j].run.id == id :: Outranks(log[i], log[j]))
  }

  lemma {:induction false} LatestIsFirstGreatest(log: seq<Record>, id: string) returns (i: nat)
    ensures Latest(log, id).None? <==> forall j: nat | j < |log| :: log[j].run.id != id
    ensures Latest(log, id).Some? ==> IsFirstGreatest(log, id, i) && Latest(log, id).value == log[i]
  {
    i := 0;
    if log != [] {
      var n := |log| - 1;
      var before := log[..n];
      assert forall j: nat | j < n :: before[j] == log[j];
      i := LatestIsFirstGreatest(before, id);
      if log[n].run.id == id && (Latest(before, id).None? || Outranks(log[n], Latest(before, id).value)) {
        i := n;
      }
    }
  }

  lemma OnlyOneFirstGreatest(log: seq<Record>, id: string, i: nat, j: nat)
    requires IsFirstGreatest(log, id, i) && IsFirstGreatest(log, id, j)
    ensures i == j
  {
    var a, b := log[i], log[j];
    assert i >= j || Outranks(b, a);
  }

  /** The fold returns a record exactly when it is the first of the greatest. */
  lemma LatestExactly(log: seq<Record>, id: string, i: nat)
    requires i < |log| && log[i].run.id == id
    ensures IsFirstGreatest(log, id, i) ==> Latest(log, id) == Some(log[i])
    ensures Latest(log, id) == Some(log[i]) ==> exists k: nat :: IsFirstGreatest(log, id, k) && log[k] == log[i]
  {
    hide Outranks;
    var k := LatestIsFirstGreatest(log, id);
    if IsFirstGreatest(log, id, i) {
      OnlyOneFirstGreatest(log, id, i, k);
    }
  }

  lemma PickAssociative(a: Option<Record>, b: Option<Record>, c: Option<Record>)
    ensures PickOption(PickOption(a, b), c) == PickOption(a, PickOption(b, c))
  {
  }

  /** Folding a log in two parts and combining gives the fold of the whole. */
  lemma {:induction false} LatestSplits(a: seq<Record>, b: seq<Record>, id: string)
    ensures Latest(a + b, id) == PickOption(Latest(a, id), Latest(b, id))
    decreases |b|
  {
    if b == [] {
      assert a + b == a;
    } else {
      var n := |b| - 1;
      LatestSplits(a, b[..n], id);
      assert (a + b)[..|a + b| - 1] == a + b[..n];
      PickAssociative(Latest(a, id), Latest(b[..n], id), Some(b[n]));
    }
  }

  // ---------------------------------------------------------------- the stores

  datatype StoreError = Invalid | RunIdRequired | NotFound

  /** What a log may hold: normalised, valid records. */
  predicate Settled(record: Record) {
    NormalizeRecord(record) == record && ValidRecord(record)
  }

  predicate AllSettled(log: seq<Record>) {
    forall k: nat | k < |log| :: Settled(log[k])
  }

  lemma SettledRecord(record: Record)
    requires ValidRecord(NormalizeRecord(record))
    ensures Settled(NormalizeRecord(record))
  {
    NormalizeRecordTwice(record);
  }

  lemma AppendSettled(log: seq<Record>, record: Record)
    requires AllSettled(log) && Settled(record)
    ensures AllSettled(log + [record])
  {
  }

  class FileStore {
    var log: seq<Record>

    predicate Valid()
      reads this
    {
      AllSettled(log)
    }

    constructor ()
      ensures Valid() && log == []
    {
      log := [];
    }

    method Upsert(record: Record) returns (result: Result<(), StoreError>)
      requires Valid()
      modifies this
      ensures Valid()
      ensures result.Ok? <==> ValidRecord(record)
      ensures log == if result.Ok? then old(log) + [NormalizeRecord(record)] else old(log)
      ensures result.Ok? ==> StoredAs(record, log[|old(log)|])
    {
      hide StoredAs;
      var normalized := NormalizeRecord(record);
      NormalizeStores(record);
      ValidityIgnoresSpaces(record);
      if !ValidRecord(normalized) {
        return Err(Invalid);
      }
      SettledRecord(record);
      AppendSettled(log, normalized);
      log := log + [normalized];
      return Ok(());
    }

    method Get(runId: string) returns (result: Result<Record, StoreError>)
      requires Valid()
      ensures result == (if Blank(runId) then Err(RunIdRequired)
                         else match Latest(log, TrimSpace(runId))
                              case None => Err(NotFound)
                              case Some(record) => Ok(record))
    {
      var id := TrimSpace(runId);
      BlankTrims(runId);
      if id == "" {
        return Err(RunIdRequired);
      }
      var latest: Option<Record> := None;
      for n := 0 to |log|
        invariant latest == Latest(log[..n], id)
      {
        assert log[..n + 1][..n] == log[..n];
        assert Settled(log[n]);
        var record := NormalizeRecord(log[n]);
        if !ValidRecord(record) {
          return Err(Invalid);
        }
        if record.run.id != id {
          continue;
        }
        if latest.None? {
          latest := Some(record);
          continue;
        }
        latest := Some(PickLatest(latest.value, record));
      }
      assert log[..|log|] == log;
      if latest.None? {
        return Err(NotFound);
      }
      return Ok(latest.value);
    }
  }

  class MemoryStore {
    var records: map<string, Record>

    constructor ()
      ensures records == map[]
    {
      records := map[];
    }

    method Upsert(record: Record) returns (result: Result<(), StoreError>)
      modifies this
      ensures result.Ok? <==> ValidRecord(record)
      ensures var r := NormalizeRecord(record);
              && records == (if result.Ok? then old(records)[r.run.id := r] else old(records))
              && StoredAs(record, r)
    {
      hide StoredAs;
      var normalized := NormalizeRecord(record);
      NormalizeStores(record);
      ValidityIgnoresSpaces(record);
      if !ValidRecord(normalized) {
        return Err(Invalid);
      }
      records := records[normalized.run.id := normalized];
      return Ok(());
    }

    method Get(runId: string) returns (result: Result<Record, StoreError>)
      ensures var id := TrimSpace(runId);
              result == (if id == "" then Err(RunIdRequired)
                         else if id !in records then Err(NotFound) else Ok(records[id]))
    {
      var id := TrimSpace(runId);
      if id == "" {
        return Err(RunIdRequired);
      }
      if id !in records {
        return Err(NotFound);
      }
      return Ok(records[id]);
    }
  }

  /** The map of a MemoryStore that was given the same upserts as the log holds. */
  function MemoryMap(log: seq<Record>): map<string, Record> {
    if log == [] then map[]
    else MemoryMap(log[..|log| - 1])[log[|log| - 1].run.id := log[|log| - 1]]
  }

  predicate StrictRanks(log: seq<Record>) {
    forall i: nat, j: nat | i < j < |log| && log[i].run.id == log[j].run.id :: Outranks(log[j], log[i])
  }

  /** When the snapshots of every run strictly increase, both stores return the same record. */
  lemma {:induction false} StoresAgree(log: seq<Record>, id: string)
    requires StrictRanks(log)
    ensures Latest(log, id) == Lookup(MemoryMap(log), id)
  {
    if log != [] {
      var n := |log| - 1;
      var before := log[..n];
      assert forall j: nat | j < n :: before[j] == log[j];
      StoresAgree(before, id);
      var i := LatestIsFirstGreatest(before, id);
    }
  }

  // ---------------------------------------------------------------- one run in a shared log

  /** The records of one run, in log order. */
  function Select(log: seq<Record>, id: string): seq<Record> {
    if log == [] then []
    else Select(log[..|log| - 1], id) + (if log[|log| - 1].run.id == id then [log[|log| - 1]] else [])
  }

  /** Records of other runs never matter. */
  lemma {:induction false} LatestOfSelect(log: seq<Record>, id: string)
    ensures Latest(log, id) == Latest(Select(log, id), id)
    ensures forall k: nat | k < |Select(log, id)| :: Select(log, id)[k].run.id == id
  {
    if log != [] {
      var n := |log| - 1;
      LatestOfSelect(log[..n], id);
      var before := Select(log[..n], id);
      var selected := Select(log, id);
      if log[n].run.id == id {
        assert selected == before + [log[n]];
        assert selected[..|selected| - 1] == before;
        assert selected[|selected| - 1] == log[n];
      } else {
        assert selected == before;
      }
    }
  }

  /** A last record that outranks every earlier one is what the fold returns. */
  lemma TopIsLatest(log: seq<Record>, id: string)
    requires log != [] && log[|log| - 1].run.id == id
    requires forall k: nat | k < |log| - 1 :: log[k].run.id == id ==> Outranks(log[|log| - 1], log[k])
    ensures Latest(log, id) == Some(log[|log| - 1])
  {
    var n := |log| - 1;
    var i := LatestIsFirstGreatest(log[..n], id);
  }
}
