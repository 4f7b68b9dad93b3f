/**
 * What the snapshots of a run guarantee together with the store they are in:
 * reading a run back from a log shared with other runs, and runs under the
 * default policy.
 */
module RunRecovery {
  import opened Wrappers
  import opened Text
  import Policy
  import opened AgentStore
  import opened Harness

  lemma {:induction false} RunningTraceGrows(snaps: seq<Record>, maxSteps: nat, i: nat, j: nat)
    requires RunningTrace(snaps, maxSteps) && i <= j < |snaps|
    ensures GrowsTo(snaps[i], snaps[j])
    decreases j
  {
    if i < j {
      RunningTraceGrows(snaps, maxSteps, i, j - 1);
      assert GrowsTo(snaps[j - 1], snaps[j]);
    }
  }

  /** Every snapshot of a run is a prefix of every later one, and none has more than MaxSteps steps. */
  lemma SnapshotsExtend(snaps: seq<Record>, maxSteps: nat, i: nat, j: nat)
    requires EndedTrace(snaps, maxSteps) && i <= j < |snaps|
    ensures GrowsTo(snaps[i], snaps[j]) && |snaps[j].steps| <= maxSteps
    ensures snaps[i].run.status == Running <==> i < |snaps| - 1
  {
    var running := snaps[..|snaps| - 1];
    assert forall k: nat | k < |running| :: running[k] == snaps[k];
    if j < |running| {
      RunningTraceGrows(running, maxSteps, i, j);
    } else if i < |running| {
      RunningTraceGrows(running, maxSteps, i, |running| - 1);
      assert GrowsTo(snaps[|running| - 1], snaps[j]);
    }
    assert i < |running| ==> RunningSnapshot(running[i], i);
    assert j < |running| ==> RunningSnapshot(running[j], j);
  }

  /** The log holds this run's snapshots, in order, among any records of other runs. */
  predicate Holds(log: seq<Record>, id: string, snaps: seq<Record>) {
    Select(log, id) == NormalizeAll(snaps)
  }

  lemma OutranksNormalized(a: Record, b: Record)
    ensures Outranks(NormalizeRecord(a), NormalizeRecord(b)) <==> Outranks(a, b)
  {
  }

  lemma LastOutranks(snaps: seq<Record>, maxSteps: nat, k: nat)
    requires EndedTrace(snaps, maxSteps) && k < |snaps| - 1
    ensures var last := snaps[|snaps| - 1];
            Outranks(last, snaps[k]) <==> last.run.completedAt.Some? || last.run.updatedAt > snaps[k].run.updatedAt
  {
    SnapshotsExtend(snaps, maxSteps, k, |snaps| - 1);
    var running := snaps[..|snaps| - 1];
    assert running[k] == snaps[k] && RunningSnapshot(running[k], k);
  }

  /**
   * Reading a run back: a run that completed or failed is recovered in its
   * final form even if the clock stood still, because CompletedAt breaks the
   * tie; a run that awaits approval is recovered exactly when its final
   * snapshot is strictly later than the one before.
   */
  lemma GetRecoversFinal(log: seq<Record>, snaps: seq<Record>, maxSteps: nat)
    requires EndedTrace(snaps, maxSteps) && Holds(log, TrimSpace(snaps[0].run.id), snaps)
    ensures var n := |snaps| - 1;
            var recovered := Latest(log, TrimSpace(snaps[0].run.id)) == Some(NormalizeRecord(snaps[n]));
            && (snaps[n].run.status == Completed || snaps[n].run.status == Failed ==> recovered)
            && (snaps[n].run.status == AwaitingApproval ==>
                  (recovered <==> snaps[n].run.updatedAt > snaps[n - 1].run.updatedAt))
  {
    hide NormalizeRecord, Select, Latest, Outranks, SameRun, TrimSpace;
    var n := |snaps| - 1;
    var id := TrimSpace(snaps[0].run.id);
    LatestOfSelect(log, id);
    if snaps[n].run.status != AwaitingApproval || snaps[n].run.updatedAt > snaps[n - 1].run.updatedAt {
      FinalOutranks(snaps, maxSteps);
      FinalHasId(snaps, maxSteps);
      TopIsLatest(NormalizeAll(snaps), id);
    } else {
      StalledRunIsNotRecovered(snaps, maxSteps, id);
    }
  }

  lemma FinalHasId(snaps: seq<Record>, maxSteps: nat)
    requires EndedTrace(snaps, maxSteps)
    ensures NormalizeRecord(snaps[|snaps| - 1]).run.id == TrimSpace(snaps[0].run.id)
  {
    hide TrimSpace;
    SnapshotsExtend(snaps, maxSteps, 0, |snaps| - 1);
  }

  /** A final snapshot that is later, or that ended the run, outranks the others. */
  lemma FinalOutranks(snaps: seq<Record>, maxSteps: nat)
    requires EndedTrace(snaps, maxSteps)
    requires var n := |snaps| - 1;
             snaps[n].run.status != AwaitingApproval || snaps[n].run.updatedAt > snaps[n - 1].run.updatedAt
    ensures var n := |snaps| - 1;
            forall k: nat | k < n :: Outranks(NormalizeRecord(snaps[n]), NormalizeRecord(snaps[k]))
  {
    hide NormalizeRecord, Outranks, SameRun;
    var n := |snaps| - 1;
    forall k: nat | k < n
      ensures Outranks(NormalizeRecord(snaps[n]), NormalizeRecord(snaps[k]))
    {
      SnapshotsExtend(snaps, maxSteps, k, n - 1);
      LastOutranks(snaps, maxSteps, k);
      OutranksNormalized(snaps[n], snaps[k]);
    }
  }

  lemma StalledRunIsNotRecovered(snaps: seq<Record>, maxSteps: nat, id: string)
    requires EndedTrace(snaps, maxSteps) && id == TrimSpace(snaps[0].run.id)
    requires snaps[|snaps| - 1].run.status == AwaitingApproval
    requires snaps[|snaps| - 1].run.updatedAt <= snaps[|snaps| - 2].run.updatedAt
    ensures Latest(NormalizeAll(snaps), id) != Some(NormalizeRecord(snaps[|snaps| - 1]))
    ensures Latest(NormalizeAll(snaps), id).Some? ==> Latest(NormalizeAll(snaps), id).value.run.status == Running
  {
    var n := |snaps| - 1;
    var stored := NormalizeAll(snaps);
    var i := LatestIsFirstGreatest(stored, id);
    SnapshotsExtend(snaps, maxSteps, 0, n - 1);
    SnapshotsExtend(snaps, maxSteps, n - 1, n);
    LastOutranks(snaps, maxSteps, n - 1);
    OutranksNormalized(snaps[n], snaps[n - 1]);
    var top, previous := stored[n], stored[n - 1];
    assert Latest(stored, id).None? || i != n || Outranks(top, previous);
    if Latest(stored, id).Some? {
      SnapshotsExtend(snaps, maxSteps, i, n);
    }
  }

  /** How a run ends whose upserts all succeeded. */
  lemma OutcomeEnds(services: Services, request: Request, env: Env, record: Record, failure: Option<Failure>,
                    snaps: seq<Record>)
    requires 1 <= request.maxSteps && Outcome(services, request, env, record, failure, snaps)
    requires snaps != [] && env.storeUp(|snaps| - 1)
    ensures EndedTrace(snaps, request.maxSteps) && record == snaps[|snaps| - 1]
    ensures record.run.status == AwaitingApproval <==> failure == Some(StepFailure(ApprovalRequired, false))
    ensures record.run.status == AwaitingApproval || record.run.status == Completed || record.run.status == Failed
  {
    hide RunningTrace, FailedWith, FollowsPlan, PlannedSteps, FirstRecord, StepsTaken, Finishes, AllCompleted, GrowsTo,
         EndedTrace;
  }

  lemma SameIds(snaps: seq<Record>, maxSteps: nat, k: nat)
    requires EndedTrace(snaps, maxSteps) && k < |snaps|
    ensures snaps[k].run.id == snaps[|snaps| - 1].run.id
  {
    hide RunningTrace, AllCompleted;
    SnapshotsExtend(snaps, maxSteps, k, |snaps| - 1);
  }

  /** A run whose upserts all succeeded is read back as it was returned, if it completed or failed. */
  lemma RunIsRecovered(services: Services, request: Request, env: Env, record: Record, failure: Option<Failure>,
                       snaps: seq<Record>, log: seq<Record>)
    requires 1 <= request.maxSteps && Outcome(services, request, env, record, failure, snaps)
    requires snaps != [] && env.storeUp(|snaps| - 1) && Holds(log, TrimSpace(record.run.id), snaps)
    ensures Latest(log, TrimSpace(record.run.id)) == Some(NormalizeRecord(record)) <==>
              failure != Some(StepFailure(ApprovalRequired, false))
              || record.run.updatedAt > snaps[|snaps| - 2].run.updatedAt
  {
    hide Latest, NormalizeRecord, TrimSpace, RunningTrace, Outcome, Holds, EndSnapshot, GrowsTo;
    OutcomeEnds(services, request, env, record, failure, snaps);
    SameIds(snaps, request.maxSteps, 0);
    GetRecoversFinal(log, snaps, request.maxSteps);
  }

  /**
   * What is read back has the status, the times, the trimmed texts and, step by
   * step, the evidence of the record that was returned, exactly unless the run
   * awaits approval and its last snapshot is no later than the one before.
   */
  lemma ReadBackExactly(services: Services, request: Request, env: Env, record: Record, failure: Option<Failure>,
                        snaps: seq<Record>, log: seq<Record>)
    requires 1 <= request.maxSteps && Outcome(services, request, env, record, failure, snaps)
    requires snaps != [] && env.storeUp(|snaps| - 1) && Holds(log, TrimSpace(record.run.id), snaps)
    ensures var read := Latest(log, TrimSpace(record.run.id));
            read.Some? && StoredAs(record, read.value) <==>
              record.run.status != AwaitingApproval || record.run.updatedAt > snaps[|snaps| - 2].run.updatedAt
  {
    hide Latest, NormalizeRecord, TrimSpace, RunningTrace, Outcome, EndSnapshot, GrowsTo, Select, StoredStep;
    OutcomeEnds(services, request, env, record, failure, snaps);
    SameIds(snaps, request.maxSteps, 0);
    RunIsRecovered(services, request, env, record, failure, snaps, log);
    NormalizeStores(record);
    if record.run.status == AwaitingApproval && record.run.updatedAt <= snaps[|snaps| - 2].run.updatedAt {
      var id := TrimSpace(record.run.id);
      LatestOfSelect(log, id);
      StalledRunIsNotRecovered(snaps, request.maxSteps, id);
    }
  }

  // ---------------------------------------------------------------- a run that is not recovered

  /** A clock that stands still, and an evaluator that asks for approval every time. */
  function StillEnv(): Env {
    Env(_ => 1, _ => "now", (_, _, _) => Decided(Policy.Decision(Policy.RequireApproval, "ask")),
        _ => ToolFailed(OtherError("down")), _ => true)
  }

  lemma StillStep(run: Run, text: StepText, n: nat)
    ensures RunStep(StillEnv(), run, text, n).1 == Some(ApprovalRequired)
    ensures ClockRuns(StillEnv())
  {
  }

  /** The run there is under StillEnv: its first step is blocked. */
  lemma StillRun(services: Services, request: Request) returns (record: Record, snaps: seq<Record>)
    requires GoodTexts(services.texts) && 1 <= request.maxSteps
    requires !Blank(request.tenantId) && !Blank(request.sessionId) && !Blank(request.goal)
    ensures Outcome(services, request, StillEnv(), record, Some(StepFailure(ApprovalRequired, false)), snaps)
    ensures snaps == [FirstRecord(services, request, StillEnv()), record]
            && record.run.updatedAt == snaps[0].run.updatedAt
  {
    hide Outcome, PlannedSteps, BuildPlan, Going, GoodTexts, GoodText, RunStep, ClockRuns, Blank;
    var env := StillEnv();
    var first := FirstRecord(services, request, env);
    PlanPositions(request, services);
    TextIsGood(services, request);
    var text := PlannedSteps(request, services)[0];
    StillStep(first.run, text, 0);
    FirstIsGoing(services, request, env);
    GoingFails(services, request, env, [first], 0, text);
    record := WithFailure(env, first, text, 0);
    snaps := [first, record];
    assert [first] + [record] == snaps;
  }

  lemma TextIsGood(services: Services, request: Request)
    requires GoodTexts(services.texts) && 1 <= request.maxSteps
    ensures |PlannedSteps(request, services)| > 0 && GoodText(PlannedSteps(request, services)[0])
  {
    hide GoodText, PlannedSteps, BuildPlan;
    PlanPositions(request, services);
  }

  /**
   * Under a clock that does not move and an evaluator that asks for approval,
   * every good request gives a run that Get does not return in its final form.
   */
  lemma AwaitingRunIsLost(services: Services, request: Request)
    requires GoodTexts(services.texts) && 1 <= request.maxSteps
    requires !Blank(request.tenantId) && !Blank(request.sessionId) && !Blank(request.goal)
    ensures exists record: Record, snaps: seq<Record> ::
              && Outcome(services, request, StillEnv(), record, Some(StepFailure(ApprovalRequired, false)), snaps)
              && Latest(Stored(StillEnv(), snaps), TrimSpace(record.run.id)) != Some(NormalizeRecord(record))
  {
    hide Outcome, NormalizeRecord, Latest, TrimSpace, GoodTexts, Blank;
    var record, snaps := StillRun(services, request);
    OwnLogHolds(services, request, StillEnv(), record, Some(StepFailure(ApprovalRequired, false)), snaps);
    RunIsRecovered(services, request, StillEnv(), record, Some(StepFailure(ApprovalRequired, false)), snaps,
                   Stored(StillEnv(), snaps));
  }

  /** A log of nothing but a run's snapshots holds the run. */
  lemma OwnLogHolds(services: Services, request: Request, env: Env, record: Record, failure: Option<Failure>,
                    snaps: seq<Record>)
    requires 1 <= request.maxSteps && Outcome(services, request, env, record, failure, snaps)
    requires snaps != [] && env.storeUp(|snaps| - 1)
    ensures Holds(Stored(env, snaps), TrimSpace(record.run.id), snaps)
  {
    hide TrimSpace, Outcome, EndedTrace, Select;
    OutcomeEnds(services, request, env, record, failure, snaps);
    forall k: nat | k < |snaps|
      ensures snaps[k].run.id == record.run.id
    {
      SameIds(snaps, request.maxSteps, k);
    }
    SelectAll(NormalizeAll(snaps), TrimSpace(record.run.id));
  }

  lemma {:induction false} SelectAll(log: seq<Record>, id: string)
    requires forall k: nat | k < |log| :: log[k].run.id == id
    ensures Select(log, id) == log
  {
    if log != [] {
      SelectAll(log[..|log| - 1], id);
    }
  }

  // ---------------------------------------------------------------- the default policy

  /** The evaluator of NewDefaultEvaluator, and services that never return the harness's own errors. */
  ghost predicate DefaultPolicy(env: Env) {
    && (forall n: nat, run: Run, action: Policy.Action ::
          env.decide(n, run, action) == Decided(Policy.EvaluateDefault(Some(run.tenantId), action)))
    && (forall n: nat :: env.tool(n).ToolFailed? ==> env.tool(n).err.OtherError?)
  }

  lemma SourceToolsAreReadOnly(kind: StepKind)
    ensures HasAnyPrefix(SourceTexts(kind).tool, Policy.READ_PREFIXES)
  {
    match kind
    case PhaseStep(Retrieve) => assert HasPrefix(SourceTexts(kind).tool, Policy.READ_PREFIXES[1]);
    case PhaseStep(Access) => assert HasPrefix(SourceTexts(kind).tool, Policy.READ_PREFIXES[2]);
    case PhaseStep(Sessions) => assert HasPrefix(SourceTexts(kind).tool, Policy.READ_PREFIXES[2]);
    case SummaryStep => assert HasPrefix(SourceTexts(kind).tool, Policy.READ_PREFIXES[3]);
  }

  lemma DefaultPolicyAllows(env: Env, run: Run, text: StepText, n: nat)
    requires DefaultPolicy(env) && HasAnyPrefix(text.tool, Policy.READ_PREFIXES)
    ensures RunStep(env, run, text, n).1.Some? ==> RunStep(env, run, text, n).1.value.OtherError?
  {
    var action := Policy.Action(text.tool, false, run.tenantId);
    Policy.DefaultRulesMeaning(Some(run.tenantId), action);
    assert env.decide(n, run, action) == Decided(Policy.EvaluateDefault(Some(run.tenantId), action));
  }

  lemma PlannedToolsAreReadOnly(request: Request, services: Services, k: nat)
    requires 1 <= request.maxSteps && k < |PlannedSteps(request, services)|
    requires forall kind: StepKind :: services.texts(kind).tool == SourceTexts(kind).tool
    ensures HasAnyPrefix(PlannedSteps(request, services)[k].tool, Policy.READ_PREFIXES)
  {
    PlanPositions(request, services);
    var plan := BuildPlan(request, services);
    var evidence := if |plan| <= EvidenceBudget(request) then |plan| else EvidenceBudget(request);
    if k < evidence {
      SourceToolsAreReadOnly(PhaseStep(plan[k]));
    } else {
      SourceToolsAreReadOnly(SummaryStep);
    }
  }

  /** Under the default evaluator no run awaits approval or is denied by policy. */
  lemma DefaultPolicyNeverStopsARun(services: Services, request: Request, env: Env,
                                    record: Record, failure: Option<Failure>, snaps: seq<Record>)
    requires 1 <= request.maxSteps && Outcome(services, request, env, record, failure, snaps)
    requires DefaultPolicy(env)
    requires forall kind: StepKind :: services.texts(kind).tool == SourceTexts(kind).tool
    ensures failure.Some? && failure.value.StepFailure? ==>
              failure.value.err.OtherError? && record.run.status == Failed
  {
    hide EndedTrace, RunningTrace, FollowsPlan, PlannedSteps, RunStep, DefaultPolicy, FirstRecord, WithFailure;
    if failure.Some? && failure.value.StepFailure? {
      var n := |snaps| - 2;
      PlannedToolsAreReadOnly(request, services, n);
      DefaultPolicyAllows(env, snaps[n].run, PlannedSteps(request, services)[n], n);
    }
  }
}
