/**
 * The investigation run of internal/agents/harness/investigation.go: a
 * deterministic plan under a step budget, a policy decision before every step,
 * and a snapshot of the run upserted after every step.
 *
 * Everything the run cannot decide itself is read from an Env, by call number:
 * the n-th step makes the n-th policy call and the n-th tool call, and the
 * k-th clock reading is the k-th time.Now. The theorems hold for every Env.
 */
module Harness {
  import opened Wrappers
  import opened Text
  import opened Times
  import Policy
  import opened AgentStore

  const DEFAULT_MAX_STEPS := 4
  const MAX_HARNESS_STEPS := 5

  // ---------------------------------------------------------------- requests

  /** The inputs the run looks up, after cloneInputs has trimmed them. */
  datatype Inputs = Inputs(
    query: string,
    subscriberId: string,
    sessionId: string,
    requestId: string,
    nasIp: string,
    clientIp: string)

  datatype Request = Request(
    tenantId: string,
    caseId: string,
    sessionId: string,
    goal: string,
    inputs: Inputs,
    maxSteps: int)

  datatype RequestError = GoalRequired | TenantRequired

  predicate IsIdChar(c: char) {
    IsLetter(c) || IsDigit(c) || c == '-' || c == '_' || c == '.' || c == ':'
  }

  function SanitizeIdPart(value: string): string {
    Sanitize(IsIdChar, value)
  }

  /** composeID with its last part a time; stamp is the formatted time. */
  function ComposeId(kind: string, parts: seq<string>, stamp: string): string
    decreases |parts|
  {
    if parts == [] then kind + ":" + stamp
    else
      var part := SanitizeIdPart(parts[0]);
      ComposeId(if part == "" then kind else kind + ":" + part, parts[1..], stamp)
  }

  lemma {:induction false} IdKeepsKind(kind: string, parts: seq<string>, stamp: string)
    ensures kind + ":" <= ComposeId(kind, parts, stamp)
    decreases |parts|
  {
    if parts != [] {
      var part := SanitizeIdPart(parts[0]);
      IdKeepsKind(if part == "" then kind else kind + ":" + part, parts[1..], stamp);
    }
  }

  lemma IdNotBlank(kind: string, parts: seq<string>, stamp: string)
    requires kind != "" && !IsSpace(kind[0])
    ensures !Blank(ComposeId(kind, parts, stamp))
  {
    IdKeepsKind(kind, parts, stamp);
    NotBlank(ComposeId(kind, parts, stamp), 0);
  }

  function NormalizeRequest(r: Request, stamp: string): Result<Request, RequestError> {
    var tenantId := TrimSpace(r.tenantId);
    var sessionId := TrimSpace(r.sessionId);
    var trimmedGoal := TrimSpace(r.goal);
    var query := TrimSpace(r.inputs.query);
    if trimmedGoal == "" && query == "" then Err(GoalRequired)
    else
      var goal := if trimmedGoal == "" then query else trimmedGoal;
      var inputs := if trimmedGoal != "" && query == "" then r.inputs.(query := goal) else r.inputs;
      if tenantId == "" then Err(TenantRequired)
      else Ok(Request(
        tenantId,
        TrimSpace(r.caseId),
        if sessionId == "" then ComposeId("agent-session", [tenantId, goal], stamp) else sessionId,
        goal,
        inputs,
        if r.maxSteps <= 0 then DEFAULT_MAX_STEPS
        else if r.maxSteps > MAX_HARNESS_STEPS then MAX_HARNESS_STEPS
        else r.maxSteps))
  }

  // ---------------------------------------------------------------- the plan

  datatype Phase = Retrieve | Access | Sessions

  datatype StepKind = PhaseStep(phase: Phase) | SummaryStep

  /** The fixed texts of one kind of step. */
  datatype StepText = StepText(suffix: string, kind: string, summary: string, tool: string)

  function SourceTexts(kind: StepKind): StepText {
    match kind
    case PhaseStep(Retrieve) =>
      StepText("retrieve", "retrieve", "searching indexed evidence", "retrieve.evidence.search")
    case PhaseStep(Access) =>
      StepText("access-enrichment", "query", "fetching normalized access context", "query.access.search")
    case PhaseStep(Sessions) =>
      StepText("session-enrichment", "query", "fetching normalized session context", "query.sessions.search")
    case SummaryStep =>
      StepText("explain", "explain", "assembling deterministic investigation summary", "explain.findings.summary")
  }

  predicate GoodText(text: StepText) {
    !Blank(text.kind) && !Blank(text.summary)
  }

  /** What a run needs of the texts; SourceTexts is the table that the code uses. */
  ghost predicate GoodTexts(texts: StepKind -> StepText) {
    forall kind: StepKind :: GoodText(texts(kind))
  }

  lemma SourceTextsAreGood()
    ensures GoodTexts(SourceTexts)
  {
    forall kind: StepKind
      ensures GoodText(SourceTexts(kind))
    {
      NotBlank(SourceTexts(kind).kind, 0);
      NotBlank(SourceTexts(kind).summary, |SourceTexts(kind).summary| - 1);
    }
  }

  datatype Services = Services(
    accessAvailable: bool,
    sessionsAvailable: bool,
    runtimeName: string,
    plannerName: string,
    texts: StepKind -> StepText)

  predicate ContainsAny(s: string, needles: seq<string>) {
    exists n | n in needles :: Contains(s, n)
  }

  predicate IsBeforeConnectQuestion(goal: string) {
    HasPrefix(goal, "did ") &&
    ContainsAny(goal, ["fail auth before connect", "fail auth before connecting",
                       "failed auth before connect", "failed auth before connecting",
                       "authentication fail before connect", "authentication failed before connect",
                       "authentication fail before connecting", "authentication failed before connecting"])
  }

  predicate IsStatusQuestion(goal: string) {
    HasAnyPrefix(goal, ["how is ", "how's ", "what is the status of ", "what's the status of ", "status of "])
  }

  predicate IsTenantMembershipQuestion(goal: string) {
    Contains(goal, "tenant") &&
    ContainsAny(goal, ["belong to this tenant", "belongs to this tenant", "member of this tenant",
                       "part of this tenant", "within this tenant"])
  }

  predicate IsDisconnectReasonQuestion(goal: string) {
    ContainsAny(goal, ["why did", "why was"]) && ContainsAny(goal, ["disconnect", "disconnected"])
  }

  predicate HasSelectors(inputs: Inputs) {
    !Blank(inputs.subscriberId) || !Blank(inputs.sessionId) || !Blank(inputs.requestId)
    || !Blank(inputs.nasIp) || !Blank(inputs.clientIp)
  }

  predicate Available(services: Services, phase: Phase) {
    match phase
    case Retrieve => true
    case Access => services.accessAvailable
    case Sessions => services.sessionsAvailable
  }

  function OrderedAvailable(services: Services, phases: seq<Phase>): seq<Phase> {
    if phases == [] then []
    else
      var before := OrderedAvailable(services, phases[..|phases| - 1]);
      var phase := phases[|phases| - 1];
      if phase in before || !Available(services, phase) then before else before + [phase]
  }

  function WantedPhases(request: Request): seq<Phase> {
    var goal := Lower(TrimSpace(request.goal));
    if IsBeforeConnectQuestion(goal) then [Retrieve, Access, Sessions]
    else if IsStatusQuestion(goal) && HasSelectors(request.inputs) then [Sessions, Access]
    else if IsTenantMembershipQuestion(goal) && HasSelectors(request.inputs) then [Retrieve]
    else if IsDisconnectReasonQuestion(goal) && HasSelectors(request.inputs) then [Sessions]
    else [Retrieve, Access, Sessions]
  }

  function BuildPlan(request: Request, services: Services): seq<Phase> {
    var phases := OrderedAvailable(services, WantedPhases(request));
    if phases == [] then [Retrieve] else phases
  }

  lemma {:induction false} OrderedAvailableSpec(services: Services, phases: seq<Phase>)
    ensures var r := OrderedAvailable(services, phases);
            && (forall p :: p in r <==> p in phases && Available(services, p))
            && (forall i: nat, j: nat | i < j < |r| :: r[i] != r[j])
            && |r| <= |phases|
  {
    if phases != [] {
      var n := |phases| - 1;
      OrderedAvailableSpec(services, phases[..n]);
      assert phases == phases[..n] + [phases[n]];
    }
  }

  /** A plan is never empty, never repeats a phase and never uses a service that is missing. */
  lemma PlanIsRunnable(request: Request, services: Services)
    ensures var plan := BuildPlan(request, services);
            && 1 <= |plan| <= 3
            && (forall i: nat, j: nat | i < j < |plan| :: plan[i] != plan[j])
            && (forall p | p in plan :: Available(services, p))
            && (forall p | p in WantedPhases(request) && Available(services, p) :: p in plan)
  {
    OrderedAvailableSpec(services, WantedPhases(request));
  }

  // ---------------------------------------------------------------- the environment of a run

  datatype RunError =
    | ApprovalRequired                // errors.Is ErrApprovalRequired
    | PolicyDenied                    // errors.Is ErrPolicyDenied
    | OtherError(text: string)

  function ErrorText(err: RunError): string {
    match err
    case ApprovalRequired => "agent run awaiting approval"
    case PolicyDenied => "agent action denied by policy"
    case OtherError(text) => text
  }

  datatype PolicyAnswer = Decided(decision: Policy.Decision) | EvaluatorFailed(err: RunError)

  /** Summaries of completed steps are fixed sentences around the evidence: they start with a letter. */
  type Prose = s: string | s != "" && IsLetter(s[0]) witness "x"

  /** Query building and search, or the summary, of one step. */
  datatype ToolAnswer = Found(summary: Prose, evidence: seq<EvidenceRef>) | ToolFailed(err: RunError)

  datatype Env = Env(
    clock: nat -> Time,
    stamp: Time -> string,
    decide: (nat, Run, Policy.Action) -> PolicyAnswer,
    tool: nat -> ToolAnswer,
    storeUp: nat -> bool)             // whether the k-th Upsert reaches the file

  /** time.Now never goes back and is never the zero time. */
  ghost predicate ClockRuns(env: Env) {
    (forall i: nat :: env.clock(i) > ZERO_TIME) && (forall i: nat, j: nat | i <= j :: env.clock(i) <= env.clock(j))
  }

  // ---------------------------------------------------------------- steps

  function StartStep(env: Env, runId: string, text: StepText, now: Time): Step {
    Step(ComposeId("step", [runId, text.suffix], env.stamp(now)), text.kind, text.summary,
         text.tool, StepRunning, [], now, None)
  }

  function DecisionError(decision: Policy.Decision): Option<RunError> {
    match decision.state
    case Allow => None
    case RequireApproval => Some(ApprovalRequired)
    case Deny => Some(PolicyDenied)
    case Unsupported(text) => Some(OtherError("unsupported policy decision \"" + text + "\""))
  }

  /** A started step after the policy decision and the tool call. */
  function FinishStep(step: Step, answer: PolicyAnswer, tool: ToolAnswer, now: Time): (Step, Option<RunError>) {
    match answer
    case EvaluatorFailed(err) => (step, Some(err))
    case Decided(decision) =>
      var err := DecisionError(decision);
      if err.Some? then (step.(summary := decision.reason), err)
      else
        match tool
        case ToolFailed(err) => (step, Some(err))
        case Found(summary, evidence) =>
          (step.(status := StepCompleted, completedAt := Some(now), summary := summary, evidence := evidence), None)
  }

  /** The n-th step of a run: the step it leaves, and its error if it failed. */
  function RunStep(env: Env, run: Run, text: StepText, n: nat): (Step, Option<RunError>) {
    FinishStep(
      StartStep(env, run.id, text, env.clock(2 * n + 1)),
      env.decide(n, run, Policy.Action(text.tool, false, run.tenantId)),
      env.tool(n),
      env.clock(2 * n + 2))
  }

  function FinishWithError(record: Record, step: Step, err: RunError, now: Time): Record {
    var withStep :=
      if step.id == "" then record
      else
        var finished := step.(
          status := if err.ApprovalRequired? then StepBlocked else StepFailed,
          completedAt := Some(now),
          summary := if Blank(step.summary) then ErrorText(err) else step.summary);
        Record(record.run.(status := if err.ApprovalRequired? then AwaitingApproval else Failed),
               record.steps + [finished]);
    withStep.(run := withStep.run.(
      updatedAt := now,
      completedAt := if withStep.run.status.Failed? then Some(now) else withStep.run.completedAt))
  }

  // ---------------------------------------------------------------- the shape of a run

  predicate SameRun(a: Run, b: Run) {
    a.(status := b.status, updatedAt := b.updatedAt, completedAt := b.completedAt) == b
  }

  predicate AllCompleted(steps: seq<Step>) {
    forall k: nat | k < |steps| :: steps[k].status == StepCompleted
  }

  /** A snapshot upserted while the run goes on, after its first k steps. */
  predicate RunningSnapshot(r: Record, k: nat) {
    r.run.status == Running && r.run.completedAt == None && |r.steps| == k && AllCompleted(r.steps)
  }

  /** The last snapshot of a run that came to its end, and how the last step tells the run's status. */
  predicate EndSnapshot(r: Record) {
    match r.run.status
    case Completed => r.run.completedAt == Some(r.run.updatedAt) && AllCompleted(r.steps)
    case Failed =>
      && r.run.completedAt == Some(r.run.updatedAt) && r.steps != []
      && AllCompleted(r.steps[..|r.steps| - 1]) && r.steps[|r.steps| - 1].status == StepFailed
    case AwaitingApproval =>
      && r.run.completedAt == None && r.steps != []
      && AllCompleted(r.steps[..|r.steps| - 1]) && r.steps[|r.steps| - 1].status == StepBlocked
    case _ => false
  }

  /** before is an earlier snapshot of the run whose snapshot after is. */
  predicate GrowsTo(before: Record, after: Record) {
    SameRun(before.run, after.run) && before.steps <= after.steps && before.run.updatedAt <= after.run.updatedAt
  }

  /** The snapshots of a run that is still going: one a step, each extending the one before. */
  predicate RunningTrace(snaps: seq<Record>, maxSteps: nat) {
    && snaps != []
    && (forall k: nat | k < |snaps| :: RunningSnapshot(snaps[k], k) && ValidRecord(snaps[k]))
    && (forall k: nat | k < |snaps| - 1 :: GrowsTo(snaps[k], snaps[k + 1]))
    && |snaps| - 1 <= maxSteps
  }

  /** A run that ended: a running trace and one end snapshot. */
  predicate EndedTrace(snaps: seq<Record>, maxSteps: nat) {
    && |snaps| >= 2
    && RunningTrace(snaps[..|snaps| - 1], maxSteps)
    && GrowsTo(snaps[|snaps| - 2], snaps[|snaps| - 1])
    && EndSnapshot(snaps[|snaps| - 1]) && ValidRecord(snaps[|snaps| - 1])
    && 1 <= |snaps[|snaps| - 1].steps| <= maxSteps
  }

  // ---------------------------------------------------------------- one step keeps the shape

  lemma StartStepValid(env: Env, runId: string, text: StepText, now: Time)
    requires now > ZERO_TIME && GoodText(text)
    ensures ValidStep(StartStep(env, runId, text, now)) && StartStep(env, runId, text, now).id != ""
  {
    IdNotBlank("step", [runId, text.suffix], env.stamp(now));
  }

  /** Whatever the evaluator and the tools answer, a step that succeeds is valid and completed. */
  lemma StepSucceeds(env: Env, run: Run, text: StepText, n: nat)
    requires ClockRuns(env) && GoodText(text)
    ensures var (step, err) := RunStep(env, run, text, n);
            err.None? ==>
              ValidStep(step) && step.status == StepCompleted && step.completedAt == Some(env.clock(2 * n + 2))
  {
    StartStepValid(env, run.id, text, env.clock(2 * n + 1));
  }

  /** The summary a failing step is left with. */
  function FailedSummary(step: Step, err: RunError): string {
    if Blank(step.summary) then ErrorText(err) else step.summary
  }

  /** It is never blank: not with a blank reason, not with an unknown decision. */
  lemma FailedSummaryNotBlank(started: Step, answer: PolicyAnswer, tool: ToolAnswer, now: Time)
    requires ValidStep(started)
    ensures var (step, err) := FinishStep(started, answer, tool, now);
            err.Some? ==>
              step.id == started.id && ValidStep(step.(summary := FailedSummary(step, err.value)))
  {
    NotBlank(ErrorText(ApprovalRequired), 0);
    NotBlank(ErrorText(PolicyDenied), 0);
    if answer.Decided? && answer.decision.state.Unsupported? {
      NotBlank("unsupported policy decision \"" + answer.decision.state.text + "\"", 0);
    }
  }

  lemma FinishShape(record: Record, step: Step, err: RunError, now: Time)
    requires RunningSnapshot(record, |record.steps|) && ValidRecord(record)
    requires record.run.updatedAt <= now && now > ZERO_TIME
    requires step.id != "" && ValidStep(step.(summary := FailedSummary(step, err)))
    ensures var last := FinishWithError(record, step, err, now);
            && EndSnapshot(last) && ValidRecord(last) && GrowsTo(record, last)
            && |last.steps| == |record.steps| + 1 && last.run.updatedAt == now
            && (last.run.status == AwaitingApproval <==> err == ApprovalRequired)
  {
    var last := FinishWithError(record, step, err, now);
    assert last.steps[..|record.steps|] == record.steps;
  }

  /** A failing step ends the run with a valid record, whatever the evaluator and the tools answer. */
  lemma StepFails(env: Env, record: Record, text: StepText, n: nat)
    requires ClockRuns(env) && GoodText(text) && RunningSnapshot(record, n) && ValidRecord(record)
    requires record.run.updatedAt <= env.clock(2 * n + 2)
    requires RunStep(env, record.run, text, n).1.Some?
    ensures var (step, err) := RunStep(env, record.run, text, n);
            var last := FinishWithError(record, step, err.value, env.clock(2 * n + 2));
            && EndSnapshot(last) && ValidRecord(last) && GrowsTo(record, last)
            && |last.steps| == n + 1 && last.run.updatedAt == env.clock(2 * n + 2)
            && (last.run.status == AwaitingApproval <==> err.value == ApprovalRequired)
  {
    var (step, err) := RunStep(env, record.run, text, n);
    StartStepValid(env, record.run.id, text, env.clock(2 * n + 1));
    FailedSummaryNotBlank(
      StartStep(env, record.run.id, text, env.clock(2 * n + 1)),
      env.decide(n, record.run, Policy.Action(text.tool, false, record.run.tenantId)),
      env.tool(n),
      env.clock(2 * n + 2));
    FinishShape(record, step, err.value, env.clock(2 * n + 2));
  }

  lemma StepAdvances(env: Env, record: Record, text: StepText, n: nat)
    requires ClockRuns(env) && GoodText(text) && RunningSnapshot(record, n) && ValidRecord(record)
    requires record.run.updatedAt <= env.clock(2 * n + 1)
    requires RunStep(env, record.run, text, n).1.None?
    ensures var step := RunStep(env, record.run, text, n).0;
            var next := WithStep(env, record, text, n);
            && step.completedAt == Some(env.clock(2 * n + 2))
            && RunningSnapshot(next, n + 1) && ValidRecord(next) && GrowsTo(record, next)
  {
    StepSucceeds(env, record.run, text, n);
    assert env.clock(2 * n + 1) <= env.clock(2 * n + 2);
  }

  lemma TraceGoesOn(snaps: seq<Record>, r: Record, maxSteps: nat)
    requires RunningTrace(snaps, maxSteps) && |snaps| <= maxSteps
    requires RunningSnapshot(r, |snaps|) && ValidRecord(r) && GrowsTo(snaps[|snaps| - 1], r)
    ensures RunningTrace(snaps + [r], maxSteps)
  {
  }

  lemma TraceEnds(snaps: seq<Record>, r: Record, maxSteps: nat)
    requires RunningTrace(snaps, maxSteps)
    requires EndSnapshot(r) && ValidRecord(r) && GrowsTo(snaps[|snaps| - 1], r) && 1 <= |r.steps| <= maxSteps
    ensures EndedTrace(snaps + [r], maxSteps)
  {
    assert (snaps + [r])[..|snaps|] == snaps;
  }

  // ---------------------------------------------------------------- what a run promises

  function EvidenceBudget(request: Request): int {
    if request.maxSteps > 1 then request.maxSteps - 1 else request.maxSteps
  }

  /** The steps a run takes if none fails: the plan cut to the budget, then the summary. */
  function PlannedSteps(request: Request, services: Services): seq<StepText>
    requires 1 <= request.maxSteps
  {
    var plan := BuildPlan(request, services);
    var budget := EvidenceBudget(request);
    var evidence := if |plan| <= budget then plan else plan[..budget];
    seq(|evidence|, (k: nat) requires k < |evidence| => services.texts(PhaseStep(evidence[k])))
    + (if request.maxSteps > 1 then [services.texts(SummaryStep)] else [])
  }

  predicate FollowsPlan(steps: seq<Step>, planned: seq<StepText>) {
    |steps| <= |planned| && forall k: nat | k < |steps| :: steps[k].toolName == planned[k].tool
  }

  datatype Failure =
    | BadRequest(error: RequestError)
    | StoreFailed
    | StepFailure(err: RunError, storeFailed: bool)

  function NormalizeAll(snaps: seq<Record>): (r: seq<Record>)
    ensures |r| == |snaps| && forall k: nat | k < |snaps| :: r[k] == NormalizeRecord(snaps[k])
  {
    seq(|snaps|, (k: nat) requires k < |snaps| => NormalizeRecord(snaps[k]))
  }

  /** What reaches the log: every snapshot, but for a last one the store lost. */
  function Stored(env: Env, snaps: seq<Record>): seq<Record> {
    if snaps == [] || env.storeUp(|snaps| - 1) then NormalizeAll(snaps) else NormalizeAll(snaps[..|snaps| - 1])
  }

  function FirstRecord(services: Services, request: Request, env: Env): Record {
    var now := env.clock(0);
    Record(Run(ComposeId("run", [request.tenantId, request.sessionId], env.stamp(now)), request.tenantId,
               request.caseId, request.sessionId, request.goal, Running, services.runtimeName,
               services.plannerName, now, now, None), [])
  }

  /** The record after its n-th step succeeded. */
  function WithStep(env: Env, record: Record, text: StepText, n: nat): Record {
    Record(record.run.(updatedAt := env.clock(2 * n + 2)), record.steps + [RunStep(env, record.run, text, n).0])
  }

  /** The record after its n-th step failed. */
  function WithFailure(env: Env, record: Record, text: StepText, n: nat): Record
    requires RunStep(env, record.run, text, n).1.Some?
  {
    var (step, err) := RunStep(env, record.run, text, n);
    FinishWithError(record, step, err.value, env.clock(2 * n + 2))
  }

  function WithCompletion(record: Record, now: Time): Record {
    record.(run := record.run.(status := Completed, updatedAt := now, completedAt := Some(now)))
  }

  /** The first n planned steps succeeded, and each snapshot is the one before with its step. */
  predicate StepsTaken(env: Env, planned: seq<StepText>, snaps: seq<Record>, n: nat) {
    && n < |snaps| && n <= |planned|
    && forall k: nat | k < n ::
         RunStep(env, snaps[k].run, planned[k], k).1.None? && snaps[k + 1] == WithStep(env, snaps[k], planned[k], k)
  }

  /** The last snapshot is the completion of the run, after a last planned step that is not upserted on its own. */
  predicate Finishes(env: Env, planned: seq<StepText>, snaps: seq<Record>) {
    && 2 <= |snaps| <= |planned| + 2
    && var n := |snaps| - 2;
       && (n == |planned| || (n + 1 == |planned| && RunStep(env, snaps[n].run, planned[n], n).1.None?))
       && snaps[n + 1] == WithCompletion(if n == |planned| then snaps[n] else WithStep(env, snaps[n], planned[n], n),
                                         env.clock(2 * |planned| + 1))
  }

  /** The run ended because its next planned step failed with err. */
  predicate FailedWith(env: Env, planned: seq<StepText>, snaps: seq<Record>, err: RunError) {
    && 2 <= |snaps| <= |planned| + 1
    && var n := |snaps| - 2;
       && RunStep(env, snaps[n].run, planned[n], n).1 == Some(err)
       && snaps[n + 1] == WithFailure(env, snaps[n], planned[n], n)
  }

  /** What RunInvestigation returns when nothing was recorded. */
  const NO_RECORD := Record(Run("", "", "", "", "", Pending, "", "", ZERO_TIME, ZERO_TIME, None), [])

  /** The snapshots start with the first record, follow the plan, and all but the last reached the store. */
  predicate Recorded(services: Services, request: Request, env: Env, snaps: seq<Record>)
    requires 1 <= request.maxSteps
  {
    && snaps != [] && snaps[0] == FirstRecord(services, request, env)
    && (forall k: nat | k < |snaps| :: FollowsPlan(snaps[k].steps, PlannedSteps(request, services)))
    && (forall k: nat | k < |snaps| - 1 :: env.storeUp(k))
  }

  /** What a run of a good request promises about its result and its snapshots. */
  predicate Outcome(services: Services, request: Request, env: Env,
                    record: Record, failure: Option<Failure>, snaps: seq<Record>)
    requires 1 <= request.maxSteps
  {
    var planned := PlannedSteps(request, services);
    && Recorded(services, request, env, snaps)
    && match failure
       case None =>
         && EndedTrace(snaps, request.maxSteps) && record == snaps[|snaps| - 1] && env.storeUp(|snaps| - 1)
         && record.run.status == Completed && |record.steps| == |planned|
         && StepsTaken(env, planned, snaps, |snaps| - 2) && Finishes(env, planned, snaps)
       case Some(StoreFailed) =>
         && !env.storeUp(|snaps| - 1)
         && record == (if |snaps| == 1 then NO_RECORD else snaps[|snaps| - 1])
         && if snaps[|snaps| - 1].run.status == Completed then
              && EndedTrace(snaps, request.maxSteps)
              && StepsTaken(env, planned, snaps, |snaps| - 2) && Finishes(env, planned, snaps)
            else RunningTrace(snaps, request.maxSteps) && StepsTaken(env, planned, snaps, |snaps| - 1)
       case Some(StepFailure(err, storeFailed)) =>
         && EndedTrace(snaps, request.maxSteps) && record == snaps[|snaps| - 1]
         && storeFailed == !env.storeUp(|snaps| - 1)
         && StepsTaken(env, planned, snaps, |snaps| - 2) && FailedWith(env, planned, snaps, err)
         && record.run.status == (if err == ApprovalRequired then AwaitingApproval else Failed)
       case Some(BadRequest(_)) => false
  }

  // ---------------------------------------------------------------- the run, lemma by lemma

  /** The run after n completed steps, all of them stored. */
  predicate Going(services: Services, request: Request, env: Env, snaps: seq<Record>, n: nat)
    requires 1 <= request.maxSteps
  {
    && RunningTrace(snaps, request.maxSteps) && |snaps| == n + 1
    && snaps[0] == FirstRecord(services, request, env)
    && snaps[n].run.updatedAt <= env.clock(2 * n + 1)
    && StepsTaken(env, PlannedSteps(request, services), snaps, n)
    && (forall k: nat | k < |snaps| :: FollowsPlan(snaps[k].steps, PlannedSteps(request, services)) && env.storeUp(k))
  }

  lemma GoingAt(services: Services, request: Request, env: Env, snaps: seq<Record>, n: nat)
    requires 1 <= request.maxSteps && Going(services, request, env, snaps, n)
    ensures |snaps| == n + 1 && RunningSnapshot(snaps[n], n) && ValidRecord(snaps[n]) && |snaps[n].steps| == n
    ensures FollowsPlan(snaps[n].steps, PlannedSteps(request, services))
  {
    hide ValidRecord, FollowsPlan, PlannedSteps, FirstRecord;
  }

  lemma GoingLength(services: Services, request: Request, env: Env, snaps: seq<Record>, n: nat)
    requires 1 <= request.maxSteps && Going(services, request, env, snaps, n)
    ensures |snaps| == n + 1 && env.storeUp(n)
  {
  }

  lemma PlanPositions(request: Request, services: Services)
    requires 1 <= request.maxSteps
    ensures var plan := BuildPlan(request, services);
            var planned := PlannedSteps(request, services);
            var evidence := if |plan| <= EvidenceBudget(request) then |plan| else EvidenceBudget(request);
            && 1 <= evidence
            && |planned| == evidence + (if request.maxSteps > 1 then 1 else 0) <= request.maxSteps
            && (forall k: nat | k < evidence :: planned[k] == services.texts(PhaseStep(plan[k])))
            && (request.maxSteps > 1 ==> planned[evidence] == services.texts(SummaryStep))
  {
    hide BuildPlan, WantedPhases, Available;
    PlanIsRunnable(request, services);
  }

  lemma PlannedAt(request: Request, services: Services, n: nat)
    requires 1 <= request.maxSteps && n < |BuildPlan(request, services)| && n < EvidenceBudget(request)
    ensures n < |PlannedSteps(request, services)|
    ensures PlannedSteps(request, services)[n] == services.texts(PhaseStep(BuildPlan(request, services)[n]))
  {
    PlanPositions(request, services);
  }

  lemma EvidenceSteps(request: Request, services: Services, n: nat)
    requires 1 <= request.maxSteps && n <= |BuildPlan(request, services)| && n <= EvidenceBudget(request)
    requires n == |BuildPlan(request, services)| || n == EvidenceBudget(request)
    ensures n == |PlannedSteps(request, services)| - (if request.maxSteps > 1 then 1 else 0)
  {
    PlanPositions(request, services);
  }

  lemma StepTool(env: Env, run: Run, text: StepText, n: nat)
    ensures RunStep(env, run, text, n).0.toolName == text.tool
  {
  }

  lemma FollowsOn(steps: seq<Step>, step: Step, planned: seq<StepText>)
    requires FollowsPlan(steps, planned) && |steps| < |planned| && step.toolName == planned[|steps|].tool
    ensures FollowsPlan(steps + [step], planned)
  {
  }

  lemma GoingAdvances(services: Services, request: Request, env: Env, snaps: seq<Record>, n: nat, text: StepText)
    requires ClockRuns(env) && 1 <= request.maxSteps && Going(services, request, env, snaps, n) && GoodText(text)
    requires n < |PlannedSteps(request, services)| && text == PlannedSteps(request, services)[n]
    requires RunStep(env, snaps[n].run, text, n).1.None?
    ensures var next := WithStep(env, snaps[n], text, n);
            && RunStep(env, snaps[n].run, text, n).0.completedAt == Some(env.clock(2 * n + 2))
            && RunningSnapshot(next, n + 1) && ValidRecord(next) && GrowsTo(snaps[n], next)
            && FollowsPlan(next.steps, PlannedSteps(request, services))
            && next.run.updatedAt <= env.clock(2 * (n + 1) + 1)
  {
    StepAdvances(env, snaps[n], text, n);
    StepTool(env, snaps[n].run, text, n);
    FollowsOn(snaps[n].steps, RunStep(env, snaps[n].run, text, n).0, PlannedSteps(request, services));
    assert env.clock(2 * n + 2) <= env.clock(2 * (n + 1) + 1);
  }

  lemma RecordedAppend(services: Services, request: Request, env: Env, snaps: seq<Record>, n: nat, next: Record)
    requires 1 <= request.maxSteps && Going(services, request, env, snaps, n)
    requires FollowsPlan(next.steps, PlannedSteps(request, services))
    ensures Recorded(services, request, env, snaps + [next])
  {
    hide PlannedSteps, FollowsPlan, FirstRecord, RunningTrace, StepsTaken;
  }

  lemma StepsTakenAppend(env: Env, planned: seq<StepText>, snaps: seq<Record>, n: nat, next: Record)
    requires StepsTaken(env, planned, snaps, n) && |snaps| == n + 1
    ensures StepsTaken(env, planned, snaps + [next], n)
    ensures n < |planned| && RunStep(env, snaps[n].run, planned[n], n).1.None?
            && next == WithStep(env, snaps[n], planned[n], n)
            ==> StepsTaken(env, planned, snaps + [next], n + 1)
  {
    hide RunStep, WithStep;
  }

  lemma GoingOn(services: Services, request: Request, env: Env, snaps: seq<Record>, n: nat, text: StepText,
                next: Record)
    requires 1 <= request.maxSteps && Going(services, request, env, snaps, n) && n < request.maxSteps
    requires n < |PlannedSteps(request, services)| && text == PlannedSteps(request, services)[n]
    requires RunStep(env, snaps[n].run, text, n).1.None? && next == WithStep(env, snaps[n], text, n)
    requires RunningSnapshot(next, n + 1) && ValidRecord(next) && GrowsTo(snaps[n], next)
    requires FollowsPlan(next.steps, PlannedSteps(request, services))
    requires next.run.updatedAt <= env.clock(2 * (n + 1) + 1)
    ensures env.storeUp(n + 1) ==> Going(services, request, env, snaps + [next], n + 1)
    ensures !env.storeUp(n + 1) ==> Outcome(services, request, env, next, Some(StoreFailed), snaps + [next])
  {
    hide PlannedSteps, ValidRecord, GrowsTo, FollowsPlan, FirstRecord, RunningTrace, RunStep, WithStep, StepsTaken,
         Recorded;
    RecordedAppend(services, request, env, snaps, n, next);
    StepsTakenAppend(env, PlannedSteps(request, services), snaps, n, next);
    TraceGoesOn(snaps, next, request.maxSteps);
  }

  lemma FailureFollowsPlan(env: Env, record: Record, planned: seq<StepText>, n: nat)
    requires |record.steps| == n < |planned| && FollowsPlan(record.steps, planned)
    requires RunStep(env, record.run, planned[n], n).1.Some?
    requires |WithFailure(env, record, planned[n], n).steps| == n + 1
    ensures FollowsPlan(WithFailure(env, record, planned[n], n).steps, planned)
    ensures WithFailure(env, record, planned[n], n).run.status
         == (if RunStep(env, record.run, planned[n], n).1.value == ApprovalRequired then AwaitingApproval else Failed)
  {
    StepTool(env, record.run, planned[n], n);
  }

  lemma GoingFails(services: Services, request: Request, env: Env, snaps: seq<Record>, n: nat, text: StepText)
    requires ClockRuns(env) && 1 <= request.maxSteps && Going(services, request, env, snaps, n) && GoodText(text)
    requires n < |PlannedSteps(request, services)| && text == PlannedSteps(request, services)[n]
    requires RunStep(env, snaps[n].run, text, n).1.Some?
    ensures var last := WithFailure(env, snaps[n], text, n);
            && ValidRecord(last)
            && Outcome(services, request, env, last,
                       Some(StepFailure(RunStep(env, snaps[n].run, text, n).1.value, !env.storeUp(n + 1))),
                           snaps + [last])
  {
    hide PlannedSteps, ValidRecord, RunStep, EndSnapshot, EndedTrace, FollowsPlan, FinishWithError,
         RunningSnapshot, FirstRecord, RunningTrace, StepsTaken, Recorded;
    PlanPositions(request, services);
    GoingAt(services, request, env, snaps, n);
    StepsTakenAppend(env, PlannedSteps(request, services), snaps, n, WithFailure(env, snaps[n], text, n));
    assert env.clock(2 * n + 1) <= env.clock(2 * n + 2);
    StepFails(env, snaps[n], text, n);
    FailureFollowsPlan(env, snaps[n], PlannedSteps(request, services), n);
    RecordedAppend(services, request, env, snaps, n, WithFailure(env, snaps[n], text, n));
    TraceEnds(snaps, WithFailure(env, snaps[n], text, n), request.maxSteps);
  }

  lemma CompletionShape(before: Record, done: Record, now: Time)
    requires RunningSnapshot(done, |done.steps|) && ValidRecord(done) && done.run.updatedAt <= now && now > ZERO_TIME
    requires done == before || GrowsTo(before, done)
    ensures var last := WithCompletion(done, now);
            && EndSnapshot(last) && ValidRecord(last) && GrowsTo(before, last)
            && last.run.status == Completed && last.steps == done.steps
  {
    hide ValidStep;
  }

  /** done is the record of a run whose planned steps are all taken. */
  predicate IsDone(env: Env, planned: seq<StepText>, before: Record, n: nat, done: Record) {
    if n == |planned| then done == before
    else
      && n + 1 == |planned| && RunStep(env, before.run, planned[n], n).1.None?
      && done == WithStep(env, before, planned[n], n)
  }

  /** The final upsert, after the last planned step. */
  lemma GoingCompletes(services: Services, request: Request, env: Env, snaps: seq<Record>, n: nat, done: Record)
    requires ClockRuns(env) && 1 <= request.maxSteps && Going(services, request, env, snaps, n)
    requires RunningSnapshot(done, |PlannedSteps(request, services)|) && ValidRecord(done)
    requires IsDone(env, PlannedSteps(request, services), snaps[n], n, done)
    requires done == snaps[n] || GrowsTo(snaps[n], done)
    requires FollowsPlan(done.steps, PlannedSteps(request, services))
    requires done.run.updatedAt <= env.clock(2 * |done.steps| + 1)
    ensures var last := WithCompletion(done, env.clock(2 * |done.steps| + 1));
            && ValidRecord(last)
            && Outcome(services, request, env, last,
                       if env.storeUp(n + 1) then None else Some(StoreFailed), snaps + [last])
  {
    hide PlannedSteps, EndedTrace, FollowsPlan, FirstRecord, ValidRecord, EndSnapshot, GrowsTo, RunningTrace,
         WithCompletion, AllCompleted, StepsTaken, RunStep, WithStep, IsDone, Finishes, Recorded, ClockRuns, Outcome;
    var last := WithCompletion(done, env.clock(2 * |done.steps| + 1));
    PlanPositions(request, services);
    StepsTakenAppend(env, PlannedSteps(request, services), snaps, n, last);
    ClockIsPositive(env, 2 * |done.steps| + 1);
    GoingAt(services, request, env, snaps, n);
    CompletionShape(snaps[n], done, env.clock(2 * |done.steps| + 1));
    RecordedAppend(services, request, env, snaps, n, last);
    DoneFinishes(env, PlannedSteps(request, services), snaps, n, done);
    TraceEnds(snaps, last, request.maxSteps);
    CompletedOutcome(services, request, env, last, snaps + [last]);
  }

  lemma CompletedOutcome(services: Services, request: Request, env: Env, last: Record, snaps: seq<Record>)
    requires 1 <= request.maxSteps && Recorded(services, request, env, snaps) && EndedTrace(snaps, request.maxSteps)
    requires snaps != [] && last == snaps[|snaps| - 1] && last.run.status == Completed
    requires |snaps| >= 2 && |last.steps| == |PlannedSteps(request, services)|
    requires StepsTaken(env, PlannedSteps(request, services), snaps, |snaps| - 2)
    requires Finishes(env, PlannedSteps(request, services), snaps)
    ensures Outcome(services, request, env, last, if env.storeUp(|snaps| - 1) then None else Some(StoreFailed), snaps)
  {
    hide PlannedSteps, EndedTrace, StepsTaken, Finishes, Recorded;
  }

  lemma ClockIsPositive(env: Env, k: nat)
    requires ClockRuns(env)
    ensures env.clock(k) > ZERO_TIME
  {
  }

  lemma DoneFinishes(env: Env, planned: seq<StepText>, snaps: seq<Record>, n: nat, done: Record)
    requires |snaps| == n + 1 && |planned| == |done.steps| && IsDone(env, planned, snaps[n], n, done)
    ensures Finishes(env, planned, snaps + [WithCompletion(done, env.clock(2 * |done.steps| + 1))])
  {
    hide RunStep, WithStep, WithCompletion;
  }

  lemma RequestIsNormal(r: Request, stamp: string)
    ensures var n := NormalizeRequest(r, stamp);
            && (n.Ok? <==> !(Blank(r.goal) && Blank(r.inputs.query)) && !Blank(r.tenantId))
            && (n.Ok? ==> 1 <= n.value.maxSteps <= MAX_HARNESS_STEPS
                          && !Blank(n.value.tenantId) && !Blank(n.value.sessionId) && !Blank(n.value.goal))
  {
    BlankTrims(r.tenantId);
    BlankTrims(r.sessionId);
    BlankTrims(r.goal);
    BlankTrims(r.inputs.query);
    TrimNotBlank(r.tenantId);
    TrimNotBlank(r.sessionId);
    TrimNotBlank(r.goal);
    TrimNotBlank(r.inputs.query);
    var n := NormalizeRequest(r, stamp);
    if n.Ok? {
      IdNotBlank("agent-session", [n.value.tenantId, n.value.goal], stamp);
    }
  }

  lemma FirstIsGoing(services: Services, request: Request, env: Env)
    requires ClockRuns(env) && 1 <= request.maxSteps
    requires !Blank(request.tenantId) && !Blank(request.sessionId) && !Blank(request.goal)
    ensures var first := FirstRecord(services, request, env);
            && ValidRecord(first)
            && (env.storeUp(0) ==> Going(services, request, env, [first], 0))
            && (!env.storeUp(0) ==> Outcome(services, request, env, NO_RECORD, Some(StoreFailed), [first]))
  {
    hide PlannedSteps, ComposeId, Blank;
    IdNotBlank("run", [request.tenantId, request.sessionId], env.stamp(env.clock(0)));
    assert env.clock(0) <= env.clock(1);
  }

  // ---------------------------------------------------------------- the run, method by method

  method Upsert(env: Env, k: nat, runs: FileStore, record: Record) returns (ok: bool)
    requires runs.Valid() && ValidRecord(record)
    modifies runs
    ensures runs.Valid() && ok == env.storeUp(k)
    ensures runs.log == if ok then old(runs.log) + [NormalizeRecord(record)] else old(runs.log)
  {
    if !env.storeUp(k) {
      return false;
    }
    var result := runs.Upsert(record);
    return result.Ok?;
  }

  lemma StoredAppend(env: Env, snaps: seq<Record>, r: Record)
    ensures Stored(env, snaps + [r]) == NormalizeAll(snaps) + if env.storeUp(|snaps|) then [NormalizeRecord(r)] else []
    ensures NormalizeAll(snaps + [r]) == NormalizeAll(snaps) + [NormalizeRecord(r)]
  {
    assert (snaps + [r])[..|snaps|] == snaps;
  }

  lemma AllStored(services: Services, request: Request, env: Env, snaps: seq<Record>, n: nat)
    requires 1 <= request.maxSteps && Going(services, request, env, snaps, n)
    ensures Stored(env, snaps) == NormalizeAll(snaps)
  {
    hide NormalizeAll, RunningTrace, FollowsPlan;
  }

  /** The log after the upsert of one more snapshot, started from base. */
  lemma LogAppend(env: Env, base: seq<Record>, before: seq<Record>, after: seq<Record>, snaps: seq<Record>, r: Record)
    requires before == base + NormalizeAll(snaps)
    requires after == if env.storeUp(|snaps|) then before + [NormalizeRecord(r)] else before
    ensures after == base + Stored(env, snaps + [r])
    ensures env.storeUp(|snaps|) ==> after == base + NormalizeAll(snaps + [r])
  {
    StoredAppend(env, snaps, r);
  }

  /** RunInvestigation after normalizeRequest. */
  method RunGoodRequest(services: Services, request: Request, env: Env, runs: FileStore)
    returns (record: Record, failure: Option<Failure>, snapshots: seq<Record>)
    requires ClockRuns(env) && GoodTexts(services.texts) && runs.Valid() && 1 <= request.maxSteps
    requires !Blank(request.tenantId) && !Blank(request.sessionId) && !Blank(request.goal)
    modifies runs
    ensures runs.Valid() && runs.log == old(runs.log) + Stored(env, snapshots)
    ensures Outcome(services, request, env, record, failure, snapshots)
  {
    hide FirstRecord, Outcome, Going, ClockRuns, GoodTexts;
    record := FirstRecord(services, request, env);
    snapshots := [record];
    FirstIsGoing(services, request, env);
    ghost var base := runs.log;
    var up := Upsert(env, 0, runs, record);
    LogAppend(env, base, base, runs.log, [], record);
    assert [] + [record] == snapshots;
    if !up {
      return NO_RECORD, Some(StoreFailed), snapshots;
    }
    var n: nat;
    record, failure, snapshots, n := RunEvidence(services, request, env, runs, record, base);
    if failure.Some? {
      return;
    }
    record, failure, snapshots := RunToEnd(services, request, env, runs, record, snapshots, n, base);
  }

  /** The summary step and the completion. */
  method RunToEnd(services: Services, request: Request, env: Env, runs: FileStore,
                  before: Record, running: seq<Record>, n: nat, ghost base: seq<Record>)
    returns (record: Record, failure: Option<Failure>, snapshots: seq<Record>)
    requires ClockRuns(env) && GoodTexts(services.texts) && runs.Valid() && 1 <= request.maxSteps
    requires Going(services, request, env, running, n) && before == running[n]
    requires n == |PlannedSteps(request, services)| - (if request.maxSteps > 1 then 1 else 0)
    requires runs.log == base + NormalizeAll(running)
    modifies runs
    ensures runs.Valid() && runs.log == base + Stored(env, snapshots)
    ensures Outcome(services, request, env, record, failure, snapshots)
  {
    hide PlannedSteps, BuildPlan, Outcome, RunningTrace, FollowsPlan, FirstRecord, NormalizeAll, ValidRecord;
    PlanPositions(request, services);
    GoingAt(services, request, env, running, n);
    var done := before;
    ghost var log := runs.log;
    if request.maxSteps > 1 {
      var text := services.texts(SummaryStep);
      var (summaryStep, err) := RunStep(env, before.run, text, n);
      if err.Some? {
        GoingFails(services, request, env, running, n, text);
        record, failure := FinishRun(env, before, text, n, runs);
        LogAppend(env, base, log, runs.log, running, record);
        snapshots := running + [record];
        return;
      }
      GoingAdvances(services, request, env, running, n, text);
      done := Record(before.run.(updatedAt := summaryStep.completedAt.value), before.steps + [summaryStep]);
    }
    record, failure := Complete(services, request, env, runs, running, n, done);
    LogAppend(env, base, log, runs.log, running, record);
    snapshots := running + [record];
  }

  /** The final status and upsert. */
  method Complete(services: Services, request: Request, env: Env, runs: FileStore,
                  ghost running: seq<Record>, n: nat, done: Record)
    returns (record: Record, failure: Option<Failure>)
    requires ClockRuns(env) && 1 <= request.maxSteps && Going(services, request, env, running, n) && runs.Valid()
    requires RunningSnapshot(done, |PlannedSteps(request, services)|) && ValidRecord(done)
    requires IsDone(env, PlannedSteps(request, services), running[n], n, done)
    requires done == running[n] || GrowsTo(running[n], done)
    requires FollowsPlan(done.steps, PlannedSteps(request, services))
    requires done.run.updatedAt <= env.clock(2 * |done.steps| + 1)
    modifies runs
    ensures runs.Valid()
    ensures runs.log == if env.storeUp(n + 1) then old(runs.log) + [NormalizeRecord(record)] else old(runs.log)
    ensures Outcome(services, request, env, record, failure, running + [record])
  {
    GoingCompletes(services, request, env, running, n, done);
    record := WithCompletion(done, env.clock(2 * |done.steps| + 1));
    var up := Upsert(env, n + 1, runs, record);
    failure := if up then None else Some(StoreFailed);
  }

  /** The loop over the plan; n counts the evidence steps it completed. */
  method RunEvidence(services: Services, request: Request, env: Env, runs: FileStore, first: Record,
                     ghost base: seq<Record>)
    returns (record: Record, failure: Option<Failure>, snapshots: seq<Record>, n: nat)
    requires ClockRuns(env) && GoodTexts(services.texts) && runs.Valid() && 1 <= request.maxSteps
    requires Going(services, request, env, [first], 0) && runs.log == base + NormalizeAll([first])
    modifies runs
    ensures runs.Valid() && runs.log == base + Stored(env, snapshots)
    ensures failure.Some? ==> Outcome(services, request, env, record, failure, snapshots)
    ensures failure.None? ==>
              && Going(services, request, env, snapshots, n) && record == snapshots[n]
              && n == |PlannedSteps(request, services)| - (if request.maxSteps > 1 then 1 else 0)
              && runs.log == base + NormalizeAll(snapshots)
  {
    hide PlannedSteps, BuildPlan, Outcome, Going, NormalizeAll, NormalizeRecord, Stored, ClockRuns, GoodText;
    record, failure, snapshots, n := first, None, [first], 0;
    var evidenceBudget := EvidenceBudget(request);
    var plan := BuildPlan(request, services);
    while n < |plan|
      invariant n <= |plan| && evidenceBudget == EvidenceBudget(request) - n >= 0
      invariant |snapshots| == n + 1 && record == snapshots[n] && failure.None?
      invariant Going(services, request, env, snapshots, n)
      invariant runs.Valid() && runs.log == base + NormalizeAll(snapshots)
    {
      if evidenceBudget == 0 {
        break;
      }
      PlannedAt(request, services, n);
      record, failure := RunPhase(services, request, env, runs, snapshots, n, services.texts(PhaseStep(plan[n])), base);
      snapshots := snapshots + [record];
      if failure.Some? {
        return;
      }
      GoingLength(services, request, env, snapshots, n + 1);
      evidenceBudget := evidenceBudget - 1;
      n := n + 1;
    }
    EvidenceSteps(request, services, n);
    AllStored(services, request, env, snapshots, n);
  }

  /** One iteration: the n-th step, and its snapshot upserted. */
  method RunPhase(services: Services, request: Request, env: Env, runs: FileStore,
                  running: seq<Record>, n: nat, text: StepText, ghost base: seq<Record>)
    returns (record: Record, failure: Option<Failure>)
    requires ClockRuns(env) && GoodText(text) && runs.Valid() && 1 <= request.maxSteps
    requires Going(services, request, env, running, n) && runs.log == base + NormalizeAll(running)
    requires n < |PlannedSteps(request, services)| && text == PlannedSteps(request, services)[n]
    modifies runs
    ensures runs.Valid()
    ensures failure.Some? ==> Outcome(services, request, env, record, failure, running + [record])
    ensures failure.Some? ==> runs.log == base + Stored(env, running + [record])
    ensures failure.None? ==> Going(services, request, env, running + [record], n + 1)
    ensures failure.None? ==> runs.log == base + NormalizeAll(running + [record])
  {
    hide PlannedSteps, Outcome, Going, NormalizeAll, NormalizeRecord, Stored, ClockRuns, RunStep;
    GoingLength(services, request, env, running, n);
    var (step, err) := RunStep(env, running[n].run, text, n);
    if err.Some? {
      record, failure := FailPhase(services, request, env, runs, running, n, text, base);
    } else {
      record, failure := PassPhase(services, request, env, runs, running, n, text, step, base);
    }
  }

  /** The branch of a failing step. */
  method FailPhase(services: Services, request: Request, env: Env, runs: FileStore,
                   running: seq<Record>, n: nat, text: StepText, ghost base: seq<Record>)
    returns (record: Record, failure: Option<Failure>)
    requires ClockRuns(env) && GoodText(text) && runs.Valid() && 1 <= request.maxSteps
    requires Going(services, request, env, running, n) && runs.log == base + NormalizeAll(running)
    requires n < |PlannedSteps(request, services)| && text == PlannedSteps(request, services)[n]
    requires RunStep(env, running[n].run, text, n).1.Some?
    modifies runs
    ensures runs.Valid() && failure.Some?
    ensures Outcome(services, request, env, record, failure, running + [record])
    ensures runs.log == base + Stored(env, running + [record])
  {
    hide PlannedSteps, Outcome, Going, NormalizeAll, NormalizeRecord, Stored, ClockRuns, RunStep, FinishWithError;
    ghost var log := runs.log;
    GoingLength(services, request, env, running, n);
    GoingFails(services, request, env, running, n, text);
    record, failure := FinishRun(env, running[n], text, n, runs);
    LogAppend(env, base, log, runs.log, running, record);
  }

  /** The branch of a step that succeeds. */
  method PassPhase(services: Services, request: Request, env: Env, runs: FileStore,
                   running: seq<Record>, n: nat, text: StepText, step: Step, ghost base: seq<Record>)
    returns (record: Record, failure: Option<Failure>)
    requires ClockRuns(env) && GoodText(text) && runs.Valid() && 1 <= request.maxSteps
    requires Going(services, request, env, running, n) && runs.log == base + NormalizeAll(running)
    requires n < |PlannedSteps(request, services)| && text == PlannedSteps(request, services)[n]
    requires RunStep(env, running[n].run, text, n) == (step, None)
    modifies runs
    ensures runs.Valid()
    ensures failure.Some? ==> Outcome(services, request, env, record, failure, running + [record])
    ensures failure.Some? ==> runs.log == base + Stored(env, running + [record])
    ensures failure.None? ==> Going(services, request, env, running + [record], n + 1)
    ensures failure.None? ==> runs.log == base + NormalizeAll(running + [record])
  {
    hide PlannedSteps, Outcome, Going, NormalizeAll, NormalizeRecord, Stored, ClockRuns, RunStep, ValidRecord,
         RunningSnapshot, GrowsTo, FollowsPlan;
    ghost var log := runs.log;
    PlanPositions(request, services);
    GoingLength(services, request, env, running, n);
    GoingAdvances(services, request, env, running, n, text);
    record := Record(running[n].run.(updatedAt := step.completedAt.value), running[n].steps + [step]);
    GoingOn(services, request, env, running, n, text, record);
    var up := Upsert(env, n + 1, runs, record);
    LogAppend(env, base, log, runs.log, running, record);
    failure := if up then None else Some(StoreFailed);
  }

  /** finishRunWithError after the n-th step failed. */
  method FinishRun(env: Env, record: Record, text: StepText, n: nat, runs: FileStore)
    returns (last: Record, failure: Option<Failure>)
    requires runs.Valid() && RunStep(env, record.run, text, n).1.Some?
    requires ValidRecord(WithFailure(env, record, text, n))
    modifies runs
    ensures last == WithFailure(env, record, text, n)
    ensures failure == Some(StepFailure(RunStep(env, record.run, text, n).1.value, !env.storeUp(n + 1)))
    ensures runs.Valid()
    ensures runs.log == if env.storeUp(n + 1) then old(runs.log) + [NormalizeRecord(last)] else old(runs.log)
  {
    hide RunStep, ValidRecord, NormalizeRecord, FinishWithError;
    var (step, err) := RunStep(env, record.run, text, n);
    last := FinishWithError(record, step, err.value, env.clock(2 * n + 2));
    var up := Upsert(env, n + 1, runs, last);
    failure := Some(StepFailure(err.value, !up));
  }
}
