/**
 * RunInvestigation of internal/agents/harness/investigation.go, and what a
 * caller gets for a request, in terms of the request as it came and of the
 * answers of the evaluator, the tools and the clock.
 */
module Investigation {
  import opened Wrappers
  import opened Text
  import opened Times
  import Policy
  import opened AgentStore
  import opened Harness

  // ---------------------------------------------------------------- whose run it is

  /** The goal of a request, or else its query. */
  function GoalOf(original: Request): string {
    if TrimSpace(original.goal) != "" then TrimSpace(original.goal) else TrimSpace(original.inputs.query)
  }

  predicate RunAsAsked(services: Services, original: Request, env: Env, run: Run) {
    && run.tenantId == TrimSpace(original.tenantId) && run.caseId == TrimSpace(original.caseId)
    && run.goal == GoalOf(original)
    && (if TrimSpace(original.sessionId) != "" then run.sessionId == TrimSpace(original.sessionId)
        else run.sessionId == ComposeId("agent-session", [run.tenantId, run.goal], env.stamp(run.startedAt)))
    && run.id == ComposeId("run", [run.tenantId, run.sessionId], env.stamp(run.startedAt))
    && run.startedAt == env.clock(0)
    && run.runtimeName == services.runtimeName && run.plannerName == services.plannerName
  }

  lemma FirstIsAsAsked(services: Services, original: Request, env: Env)
    requires NormalizeRequest(original, env.stamp(env.clock(0))).Ok?
    ensures RunAsAsked(services, original, env,
                       FirstRecord(services, NormalizeRequest(original, env.stamp(env.clock(0))).value, env).run)
  {
    hide TrimSpace, ComposeId;
  }

  // ---------------------------------------------------------------- which steps it takes

  predicate Says(goal: string, phrase: string) {
    exists i: nat | i <= |goal| :: OccursAt(goal, phrase, i)
  }

  datatype Question = BeforeConnect | Status | Membership | Disconnect | Open

  /** What the goal asks, in lower case. The last three kinds need one of five inputs to look up. */
  predicate Asks(goal: string, inputs: Inputs, question: Question) {
    var didFail := "did " <= goal
      && (Says(goal, "fail auth before connect") || Says(goal, "failed auth before connect")
          || Says(goal, "authentication fail before connect") || Says(goal, "authentication failed before connect"));
    var status := "how is " <= goal || "how's " <= goal || "what is the status of " <= goal
      || "what's the status of " <= goal || "status of " <= goal;
    var membership := Says(goal, "belong to this tenant") || Says(goal, "belongs to this tenant")
      || Says(goal, "member of this tenant") || Says(goal, "part of this tenant") || Says(goal, "within this tenant");
    var disconnect := (Says(goal, "why did") || Says(goal, "why was")) && Says(goal, "disconnect");
    var named := exists text | text in [inputs.subscriberId, inputs.sessionId, inputs.requestId, inputs.nasIp,
                                        inputs.clientIp] :: TrimSpace(text) != "";
    match question
    case BeforeConnect => didFail
    case Status => !didFail && named && status
    case Membership => !didFail && named && !status && membership
    case Disconnect => !didFail && named && !status && !membership && disconnect
    case Open => !didFail && !(named && (status || membership || disconnect))
  }

  /** The phases of each kind of question, of those whose service there is; retrieval if none is left. */
  function PhasesOf(services: Services, question: Question): seq<Phase> {
    var access := if services.accessAvailable then [Access] else [];
    var sessions := if services.sessionsAvailable then [Sessions] else [];
    match question
    case BeforeConnect => [Retrieve] + access + sessions
    case Status => if sessions + access == [] then [Retrieve] else sessions + access
    case Membership => [Retrieve]
    case Disconnect => if sessions == [] then [Retrieve] else sessions
    case Open => [Retrieve] + access + sessions
  }

  /** Four steps unless asked otherwise, and never more than five. */
  function BudgetOf(original: Request): (budget: nat)
    ensures 1 <= budget <= 5
  {
    if original.maxSteps <= 0 then 4 else if original.maxSteps > 5 then 5 else original.maxSteps
  }

  /** The steps of a run that nothing stops: as many phases as leave room for the summary, which needs a second step. */
  function KindsOf(phases: seq<Phase>, budget: nat): (kinds: seq<StepKind>)
    requires budget > 0
  {
    var room := if budget == 1 then 1 else budget - 1;
    var cut := if |phases| <= room then phases else phases[..room];
    seq(|cut|, (k: nat) requires k < |cut| => PhaseStep(cut[k])) + (if budget > 1 then [SummaryStep] else [])
  }

  lemma SaysMeaning(goal: string, phrase: string)
    ensures Contains(goal, phrase) <==> Says(goal, phrase)
  {
    ContainsMeaning(goal, phrase);
  }

  lemma SaysLess(goal: string, short: string, long: string)
    requires short <= long
    ensures Says(goal, long) ==> Says(goal, short)
  {
    if i: nat :| i <= |goal| && OccursAt(goal, long, i) {
      SliceOfSlice(goal, i, i + |long|, 0, |short|);
      assert OccursAt(goal, short, i);
    }
  }

  /** ContainsAny over the phrases, one by one. */
  lemma {:induction false} SaysAny(goal: string, phrases: seq<string>)
    ensures ContainsAny(goal, phrases) <==> exists k: nat :: k < |phrases| && Says(goal, phrases[k])
  {
    forall k: nat | k < |phrases|
      ensures Contains(goal, phrases[k]) <==> Says(goal, phrases[k])
    {
      SaysMeaning(goal, phrases[k]);
    }
  }

  lemma DidFailMeaning(goal: string)
    ensures IsBeforeConnectQuestion(goal) <==>
              && "did " <= goal
              && (Says(goal, "fail auth before connect") || Says(goal, "failed auth before connect")
                  || Says(goal, "authentication fail before connect")
                  || Says(goal, "authentication failed before connect"))
  {
    hide Says, ContainsAny;
    var phrases := ["fail auth before connect", "fail auth before connecting",
                    "failed auth before connect", "failed auth before connecting",
                    "authentication fail before connect", "authentication failed before connect",
                    "authentication fail before connecting", "authentication failed before connecting"];
    SaysAny(goal, phrases);
    SaysLess(goal, phrases[0], phrases[1]);
    SaysLess(goal, phrases[2], phrases[3]);
    SaysLess(goal, phrases[4], phrases[6]);
    SaysLess(goal, phrases[5], phrases[7]);
  }

  lemma StatusMeaning(goal: string)
    ensures IsStatusQuestion(goal) <==>
              || "how is " <= goal || "how's " <= goal || "what is the status of " <= goal
              || "what's the status of " <= goal || "status of " <= goal
  {
    var prefixes := ["how is ", "how's ", "what is the status of ", "what's the status of ", "status of "];
    assert forall k: nat | k < 5 :: prefixes[k] in prefixes;
    assert prefixes[0] in prefixes && prefixes[1] in prefixes && prefixes[2] in prefixes && prefixes[3] in prefixes
           && prefixes[4] in prefixes;
  }

  lemma MembershipMeaning(goal: string)
    ensures IsTenantMembershipQuestion(goal) <==>
              || Says(goal, "belong to this tenant") || Says(goal, "belongs to this tenant")
              || Says(goal, "member of this tenant") || Says(goal, "part of this tenant")
              || Says(goal, "within this tenant")
  {
    hide Says, ContainsAny;
    var phrases := ["belong to this tenant", "belongs to this tenant", "member of this tenant",
                    "part of this tenant", "within this tenant"];
    SaysAny(goal, phrases);
    SaysMeaning(goal, "tenant");
    SaysEnd(goal, "tenant", phrases[0]);
    SaysEnd(goal, "tenant", phrases[1]);
    SaysEnd(goal, "tenant", phrases[2]);
    SaysEnd(goal, "tenant", phrases[3]);
    SaysEnd(goal, "tenant", phrases[4]);
  }

  lemma SaysEnd(goal: string, end: string, long: string)
    requires |end| <= |long| && long[|long| - |end|..] == end
    ensures Says(goal, long) ==> Says(goal, end)
  {
    if i: nat :| i <= |goal| && OccursAt(goal, long, i) {
      SliceOfSlice(goal, i, i + |long|, |long| - |end|, |long|);
      assert OccursAt(goal, end, i + |long| - |end|);
    }
  }

  lemma DisconnectMeaning(goal: string)
    ensures IsDisconnectReasonQuestion(goal) <==>
              (Says(goal, "why did") || Says(goal, "why was")) && Says(goal, "disconnect")
  {
    hide Says, ContainsAny;
    var asked, told := ["why did", "why was"], ["disconnect", "disconnected"];
    SaysAny(goal, asked);
    SaysAny(goal, told);
    SaysLess(goal, told[0], told[1]);
    assert ContainsAny(goal, asked) <==> Says(goal, asked[0]) || Says(goal, asked[1]);
    assert ContainsAny(goal, told) <==> Says(goal, told[0]);
  }

  lemma NamedMeaning(inputs: Inputs)
    ensures HasSelectors(inputs) <==>
              exists text | text in [inputs.subscriberId, inputs.sessionId, inputs.requestId, inputs.nasIp,
                                     inputs.clientIp] :: TrimSpace(text) != ""
  {
    hide TrimSpace, Blank;
    var texts := [inputs.subscriberId, inputs.sessionId, inputs.requestId, inputs.nasIp, inputs.clientIp];
    forall k: nat | k < 5
      ensures Blank(texts[k]) <==> TrimSpace(texts[k]) == ""
    {
      BlankTrims(texts[k]);
    }
    assert texts[0] in texts && texts[1] in texts && texts[2] in texts && texts[3] in texts && texts[4] in texts;
    assert Blank(texts[0]) <==> TrimSpace(texts[0]) == "";
    assert Blank(texts[1]) <==> TrimSpace(texts[1]) == "";
    assert Blank(texts[2]) <==> TrimSpace(texts[2]) == "";
    assert Blank(texts[3]) <==> TrimSpace(texts[3]) == "";
    assert Blank(texts[4]) <==> TrimSpace(texts[4]) == "";
  }

  /** Every goal asks exactly one thing. */
  lemma OneQuestion(goal: string, inputs: Inputs) returns (question: Question)
    ensures forall q: Question :: Asks(goal, inputs, q) <==> q == question
  {
    hide Says, TrimSpace;
    question := if Asks(goal, inputs, BeforeConnect) then BeforeConnect
                else if Asks(goal, inputs, Status) then Status
                else if Asks(goal, inputs, Membership) then Membership
                else if Asks(goal, inputs, Disconnect) then Disconnect else Open;
  }

  lemma OrderedPhases(services: Services)
    ensures var access := if services.accessAvailable then [Access] else [];
            var sessions := if services.sessionsAvailable then [Sessions] else [];
            && OrderedAvailable(services, [Retrieve, Access, Sessions]) == [Retrieve] + access + sessions
            && OrderedAvailable(services, [Sessions, Access]) == sessions + access
            && OrderedAvailable(services, [Retrieve]) == [Retrieve]
            && OrderedAvailable(services, [Sessions]) == sessions
  {
    assert [Retrieve, Access, Sessions][..2] == [Retrieve, Access];
    assert [Retrieve, Access][..1] == [Retrieve];
    assert [Retrieve][..0] == [];
    assert [Sessions, Access][..1] == [Sessions];
    assert [Sessions][..0] == [];
    assert OrderedAvailable(services, [Retrieve]) == [Retrieve];
    assert OrderedAvailable(services, [Retrieve, Access])
        == [Retrieve] + if services.accessAvailable then [Access] else [];
  }

  /** The plan is made of the phases of the question. */
  lemma PlanAnswersQuestion(services: Services, request: Request, question: Question)
    requires TrimSpace(request.goal) == request.goal && Asks(Lower(request.goal), request.inputs, question)
    ensures BuildPlan(request, services) == PhasesOf(services, question)
  {
    hide Says, TrimSpace, Lower, OrderedAvailable, ContainsAny, HasSelectors, IsBeforeConnectQuestion, IsStatusQuestion,
         IsTenantMembershipQuestion, IsDisconnectReasonQuestion;
    var goal := Lower(request.goal);
    DidFailMeaning(goal);
    StatusMeaning(goal);
    MembershipMeaning(goal);
    DisconnectMeaning(goal);
    NamedMeaning(request.inputs);
    OrderedPhases(services);
  }

  /** What RunInvestigation plans, cut to the budget, is what the request asks for. */
  lemma PlannedAsAsked(services: Services, original: Request, stamp: string, question: Question)
    requires NormalizeRequest(original, stamp).Ok? && Asks(Lower(GoalOf(original)), original.inputs, question)
    ensures var request := NormalizeRequest(original, stamp).value;
            var kinds := KindsOf(PhasesOf(services, question), BudgetOf(original));
            && 1 <= request.maxSteps == BudgetOf(original)
            && |PlannedSteps(request, services)| == |kinds| <= BudgetOf(original)
            && forall k: nat | k < |kinds| :: PlannedSteps(request, services)[k] == services.texts(kinds[k])
  {
    hide TrimSpace, Lower, PlannedSteps, BuildPlan, ComposeId, Asks;
    var request := NormalizeRequest(original, stamp).value;
    TrimTrim(IsSpace, original.goal);
    TrimTrim(IsSpace, original.inputs.query);
    SameLookups(original.inputs, request.inputs, Lower(GoalOf(original)), question);
    NormalGoal(original, stamp);
    PlanAnswersQuestion(services, request, question);
    PlanPositions(request, services);
  }

  lemma NormalGoal(original: Request, stamp: string)
    requires NormalizeRequest(original, stamp).Ok?
    ensures var request := NormalizeRequest(original, stamp).value;
            request.goal == GoalOf(original) && TrimSpace(request.goal) == request.goal
  {
    hide TrimSpace, ComposeId;
    AllTrimmed(original.goal);
    AllTrimmed(original.inputs.query);
  }

  /** Filling in the query changes no input that a question looks at. */
  lemma SameLookups(a: Inputs, b: Inputs, goal: string, question: Question)
    requires b == a.(query := b.query)
    ensures Asks(goal, a, question) <==> Asks(goal, b, question)
  {
    hide Says, TrimSpace;
  }

  /** The inputs a run works with: as they came, but for a blank query, which is the goal then. */
  lemma InputsAreKept(original: Request, stamp: string)
    requires NormalizeRequest(original, stamp).Ok?
    ensures var request := NormalizeRequest(original, stamp).value;
            request.inputs == if TrimSpace(original.inputs.query) != "" then original.inputs
                              else original.inputs.(query := GoalOf(original))
  {
    hide TrimSpace, ComposeId;
  }

  // ---------------------------------------------------------------- what each step does

  /** A step that err stopped before it found anything; its summary is still the one it started with. */
  predicate StoppedBy(text: StepText, err: RunError, step: Step) {
    && step.status == (if err == ApprovalRequired then StepBlocked else StepFailed)
    && step.summary == text.summary && step.evidence == []
  }

  /** A step that a decision stopped; its summary is the reason, if there is one. */
  predicate Refused(reason: string, status: StepStatus, otherwise: string, step: Step) {
    && step.status == status && step.evidence == []
    && step.summary == (if TrimSpace(reason) == "" then otherwise else reason)
  }

  /**
   * The k-th step, as the k-th answers of evaluator and tool leave it: the tool
   * runs only when the decision is to allow it, and what it found is the step's
   * evidence and summary.
   */
  predicate StepFollows(env: Env, text: StepText, run: Run, k: nat, step: Step) {
    && step.id == ComposeId("step", [run.id, text.suffix], env.stamp(step.startedAt))
    && step.kind == text.kind && step.toolName == text.tool
    && step.startedAt == env.clock(2 * k + 1) && step.completedAt == Some(env.clock(2 * k + 2))
    && match env.decide(k, run, Policy.Action(text.tool, false, run.tenantId))
       case EvaluatorFailed(err) => StoppedBy(text, err, step)
       case Decided(decision) =>
         match decision.state
         case Allow =>
           (match env.tool(k)
            case Found(summary, evidence) =>
              step.status == StepCompleted && step.summary == summary && step.evidence == evidence
            case ToolFailed(err) => StoppedBy(text, err, step))
         case RequireApproval => Refused(decision.reason, StepBlocked, "agent run awaiting approval", step)
         case Deny => Refused(decision.reason, StepFailed, "agent action denied by policy", step)
         case Unsupported(state) =>
           Refused(decision.reason, StepFailed, "unsupported policy decision \"" + state + "\"", step)
  }

  lemma PassedStepFollows(env: Env, run: Run, text: StepText, k: nat)
    requires RunStep(env, run, text, k).1.None?
    ensures StepFollows(env, text, run, k, RunStep(env, run, text, k).0)
    ensures RunStep(env, run, text, k).0.status == StepCompleted
  {
    hide ComposeId;
  }

  lemma FailedStepFollows(env: Env, record: Record, text: StepText, k: nat)
    requires RunStep(env, record.run, text, k).1.Some? && |record.steps| == k && !Blank(text.summary)
    requires record.run.status == Running && record.run.completedAt == None
    ensures var last := WithFailure(env, record, text, k);
            && |last.steps| == k + 1 && last.steps == record.steps + [last.steps[k]]
            && StepFollows(env, text, record.run, k, last.steps[k])
            && Halted(RunStep(env, record.run, text, k).1.value, last.steps[k], last.run)
            && last.run.updatedAt == env.clock(2 * k + 2)
            && last.run == record.run.(status := last.run.status, updatedAt := last.run.updatedAt,
                                       completedAt := last.run.completedAt)
  {
    hide ComposeId, TrimSpace, Blank;
    IdKeepsKind("step", [record.run.id, text.suffix], env.stamp(env.clock(2 * k + 1)));
    var answer := env.decide(k, record.run, Policy.Action(text.tool, false, record.run.tenantId));
    if answer.Decided? {
      BlankTrims(answer.decision.reason);
    }
  }

  /** How a step that was stopped leaves the run: waiting if it was for an approval, failed otherwise. */
  predicate Halted(err: RunError, step: Step, run: Run) {
    if err == ApprovalRequired then
      step.status == StepBlocked && run.status == AwaitingApproval && run.completedAt == None
    else
      step.status == StepFailed && run.status == Failed && run.completedAt == Some(run.updatedAt)
  }

  /** With the texts of the code: the tool and the kind of each step by name. */
  lemma StepsAreNamed(env: Env, run: Run, k: nat, kind: StepKind, step: Step)
    requires StepFollows(env, SourceTexts(kind), run, k, step)
    ensures kind == PhaseStep(Retrieve) ==> step.toolName == "retrieve.evidence.search" && step.kind == "retrieve"
    ensures kind == PhaseStep(Access) ==> step.toolName == "query.access.search" && step.kind == "query"
    ensures kind == PhaseStep(Sessions) ==> step.toolName == "query.sessions.search" && step.kind == "query"
    ensures kind == SummaryStep ==> step.toolName == "explain.findings.summary" && step.kind == "explain"
  {
  }

  /** An id: its kind, its parts as far as anything is left of them, and a stamp. */
  lemma IdMeaning(kind: string, a: string, b: string, stamp: string)
    ensures ComposeId(kind, [a, b], stamp)
         == kind + (if SanitizeIdPart(a) == "" then "" else ":" + SanitizeIdPart(a))
            + (if SanitizeIdPart(b) == "" then "" else ":" + SanitizeIdPart(b)) + (":" + stamp)
    ensures Sanitized(IsIdChar, a, SanitizeIdPart(a)) && Sanitized(IsIdChar, b, SanitizeIdPart(b))
  {
    hide Sanitized, SanitizeIdPart;
    SanitizedIdPart(a);
    SanitizedIdPart(b);
    assert [a, b][1..] == [b] && [b][1..] == [];
    var kindA := if SanitizeIdPart(a) == "" then kind else kind + ":" + SanitizeIdPart(a);
    var kindB := if SanitizeIdPart(b) == "" then kindA else kindA + ":" + SanitizeIdPart(b);
    assert ComposeId(kind, [a, b], stamp) == ComposeId(kindA, [b], stamp);
    assert ComposeId(kindA, [b], stamp) == ComposeId(kindB, [], stamp);
  }

  lemma SanitizedIdPart(part: string)
    ensures Sanitized(IsIdChar, part, SanitizeIdPart(part))
  {
    SanitizeMeaning(IsIdChar, part);
  }

  lemma IdCharacters(c: char)
    ensures IsIdChar(c) <==>
              || 48 <= c as int <= 57 || 65 <= c as int <= 90 || 97 <= c as int <= 122 || c in {'-', '_', '.', ':'}
  {
  }

  // ---------------------------------------------------------------- what a run leaves behind

  /** The record a run ended with. */
  predicate Ends(env: Env, kinds: nat, last: Record, failure: Option<Failure>, stored: bool) {
    match failure
    case None =>
      && stored && |last.steps| == kinds && AllCompleted(last.steps) && last.run.status == Completed
      && last.run.completedAt == Some(last.run.updatedAt) && last.run.updatedAt == env.clock(2 * kinds + 1)
    case Some(StoreFailed) =>
      !stored && AllCompleted(last.steps) && (last.run.status == Running || last.run.status == Completed)
    case Some(StepFailure(err, lost)) =>
      && last.steps != [] && AllCompleted(last.steps[..|last.steps| - 1])
      && Halted(err, last.steps[|last.steps| - 1], last.run)
      && last.run.updatedAt == env.clock(2 * |last.steps|) && lost == !stored
    case Some(BadRequest(_)) => false
  }

  /** Every snapshot is of the run that was asked for, and the steps follow the answers, kind by kind. */
  predicate Follows(services: Services, original: Request, env: Env, kinds: seq<StepKind>, snaps: seq<Record>,
                    failure: Option<Failure>) {
    && snaps != []
    && var last := snaps[|snaps| - 1];
       && (forall j: nat | j < |snaps| :: RunAsAsked(services, original, env, snaps[j].run))
       && (forall j: nat | j < |snaps| - 1 ::
             snaps[j].run.status == Running && |snaps[j].steps| == j && snaps[j].steps <= last.steps)
       && |last.steps| <= |kinds| && |last.steps| <= |snaps|
       && (forall k: nat | k < |last.steps| ::
             StepFollows(env, services.texts(kinds[k]), snaps[k].run, k, last.steps[k]))
       && Ends(env, |kinds|, last, failure, env.storeUp(|snaps| - 1))
  }

  /** The first n snapshots after the first, of steps that all passed. */
  predicate Passed(services: Services, original: Request, env: Env, kinds: seq<StepKind>, snaps: seq<Record>, n: nat) {
    && n < |snaps| && n <= |kinds|
    && (forall j: nat | j <= n ::
          && RunAsAsked(services, original, env, snaps[j].run) && snaps[j].run.status == Running
          && snaps[j].run.completedAt == None && |snaps[j].steps| == j && snaps[j].steps <= snaps[n].steps)
    && (forall k: nat | k < n ::
          && StepFollows(env, services.texts(kinds[k]), snaps[k].run, k, snaps[n].steps[k])
          && snaps[n].steps[k].status == StepCompleted)
  }

  lemma PassedGrows(services: Services, original: Request, env: Env, kinds: seq<StepKind>, snaps: seq<Record>, n: nat,
                    step: Step)
    requires Passed(services, original, env, kinds, snaps, n) && n + 1 < |snaps| && n < |kinds|
    requires StepFollows(env, services.texts(kinds[n]), snaps[n].run, n, step) && step.status == StepCompleted
    requires snaps[n + 1].steps == snaps[n].steps + [step]
    requires snaps[n + 1].run == snaps[n].run.(updatedAt := snaps[n + 1].run.updatedAt)
    ensures Passed(services, original, env, kinds, snaps, n + 1)
  {
    hide StepFollows;
  }

  lemma {:induction false} TakenPassed(services: Services, original: Request, env: Env, planned: seq<StepText>,
                                       kinds: seq<StepKind>, snaps: seq<Record>, n: nat)
    requires StepsTaken(env, planned, snaps, n) && Passed(services, original, env, kinds, snaps, 0)
    requires |planned| == |kinds| && forall k: nat | k < |kinds| :: planned[k] == services.texts(kinds[k])
    ensures Passed(services, original, env, kinds, snaps, n)
  {
    hide StepFollows, RunStep, Passed;
    if n > 0 {
      TakenPassed(services, original, env, planned, kinds, snaps, n - 1);
      PassedStepFollows(env, snaps[n - 1].run, planned[n - 1], n - 1);
      PassedGrows(services, original, env, kinds, snaps, n - 1,
                  RunStep(env, snaps[n - 1].run, planned[n - 1], n - 1).0);
    }
  }

  /** The same, with the kinds of step that the goal of the request asks for. */
  ghost predicate FollowsRequest(services: Services, original: Request, env: Env, snaps: seq<Record>,
                                 failure: Option<Failure>) {
    && (exists question: Question :: Asks(Lower(GoalOf(original)), original.inputs, question))
    && forall question: Question | Asks(Lower(GoalOf(original)), original.inputs, question) ::
         Follows(services, original, env, KindsOf(PhasesOf(services, question), BudgetOf(original)), snaps, failure)
  }

  /** One more snapshot, that ends the run. */
  lemma LastFollows(services: Services, original: Request, env: Env, kinds: seq<StepKind>, snaps: seq<Record>, n: nat,
                    failure: Option<Failure>)
    requires Passed(services, original, env, kinds, snaps, n) && |snaps| == n + 2
    requires var last := snaps[n + 1];
             && snaps[n].steps <= last.steps && n <= |last.steps| <= n + 1 && |last.steps| <= |kinds|
             && last.run == snaps[n].run.(status := last.run.status, updatedAt := last.run.updatedAt,
                                          completedAt := last.run.completedAt)
             && (|last.steps| == n + 1 ==>
                   StepFollows(env, services.texts(kinds[n]), snaps[n].run, n, last.steps[n]))
             && Ends(env, |kinds|, last, failure, env.storeUp(n + 1))
    ensures Follows(services, original, env, kinds, snaps, failure)
  {
    hide StepFollows, Ends;
  }

  /** A run whose last snapshot was one more step, lost by the store. */
  lemma LostFollows(services: Services, original: Request, env: Env, kinds: seq<StepKind>, snaps: seq<Record>)
    requires snaps != [] && Passed(services, original, env, kinds, snaps, |snaps| - 1) && !env.storeUp(|snaps| - 1)
    ensures Follows(services, original, env, kinds, snaps, Some(StoreFailed))
  {
    hide StepFollows;
  }

  /** The completion, and the summary step it upserts along with it. */
  lemma CompletedFollows(services: Services, original: Request, env: Env, planned: seq<StepText>,
                         kinds: seq<StepKind>, snaps: seq<Record>, failure: Option<Failure>)
    requires |snaps| >= 2 && Passed(services, original, env, kinds, snaps, |snaps| - 2) && Finishes(env, planned, snaps)
    requires |planned| == |kinds| && forall k: nat | k < |kinds| :: planned[k] == services.texts(kinds[k])
    requires failure == (if env.storeUp(|snaps| - 1) then None else Some(StoreFailed))
    ensures Follows(services, original, env, kinds, snaps, failure)
  {
    hide StepFollows, RunStep;
    var n := |snaps| - 2;
    if n < |planned| {
      PassedStepFollows(env, snaps[n].run, planned[n], n);
    }
    LastFollows(services, original, env, kinds, snaps, n, failure);
  }

  lemma FailedFollows(services: Services, original: Request, env: Env, planned: seq<StepText>,
                      kinds: seq<StepKind>, snaps: seq<Record>, err: RunError)
    requires |snaps| >= 2 && Passed(services, original, env, kinds, snaps, |snaps| - 2)
    requires FailedWith(env, planned, snaps, err) && GoodTexts(services.texts)
    requires |planned| == |kinds| && forall k: nat | k < |kinds| :: planned[k] == services.texts(kinds[k])
    ensures Follows(services, original, env, kinds, snaps, Some(StepFailure(err, !env.storeUp(|snaps| - 1))))
  {
    hide StepFollows, RunStep, WithFailure, Blank;
    var n := |snaps| - 2;
    assert GoodText(services.texts(kinds[n]));
    FailedStepFollows(env, snaps[n], planned[n], n);
    var last := snaps[n + 1];
    assert last.steps[..n] == snaps[n].steps;
    LastFollows(services, original, env, kinds, snaps, n, Some(StepFailure(err, !env.storeUp(|snaps| - 1))));
  }

  lemma FirstPassed(services: Services, original: Request, env: Env, kinds: seq<StepKind>, snaps: seq<Record>)
    requires NormalizeRequest(original, env.stamp(env.clock(0))).Ok? && snaps != []
    requires snaps[0] == FirstRecord(services, NormalizeRequest(original, env.stamp(env.clock(0))).value, env)
    ensures Passed(services, original, env, kinds, snaps, 0)
  {
    hide RunAsAsked, NormalizeRequest, ComposeId;
    FirstIsAsAsked(services, original, env);
  }

  /** The outcome of a run, in terms of the request as it came. */
  lemma OutcomeFollows(services: Services, original: Request, env: Env, question: Question,
                       record: Record, failure: Option<Failure>, snaps: seq<Record>)
    requires NormalizeRequest(original, env.stamp(env.clock(0))).Ok? && GoodTexts(services.texts)
    requires Asks(Lower(GoalOf(original)), original.inputs, question)
    requires var request := NormalizeRequest(original, env.stamp(env.clock(0))).value;
             1 <= request.maxSteps && Outcome(services, request, env, record, failure, snaps)
    ensures Follows(services, original, env, KindsOf(PhasesOf(services, question), BudgetOf(original)), snaps, failure)
    ensures record == if |snaps| == 1 then NO_RECORD else snaps[|snaps| - 1]
  {
    hide NormalizeRequest, PlannedSteps, FollowsPlan, RunningTrace, EndedTrace, StepsTaken, Finishes, FailedWith,
         Passed, Follows, FirstRecord, Asks, GoodTexts, KindsOf, PhasesOf, Lower;
    var stamp := env.stamp(env.clock(0));
    var request := NormalizeRequest(original, stamp).value;
    var kinds := KindsOf(PhasesOf(services, question), BudgetOf(original));
    var planned := PlannedSteps(request, services);
    PlannedAsAsked(services, original, stamp, question);
    FirstPassed(services, original, env, kinds, snaps);
    OutcomeLength(services, request, env, record, failure, snaps);
    match failure {
      case None =>
        TakenPassed(services, original, env, planned, kinds, snaps, |snaps| - 2);
        CompletedFollows(services, original, env, planned, kinds, snaps, failure);
      case Some(StoreFailed) =>
        if snaps[|snaps| - 1].run.status == Completed {
          TakenPassed(services, original, env, planned, kinds, snaps, |snaps| - 2);
          CompletedFollows(services, original, env, planned, kinds, snaps, failure);
        } else {
          TakenPassed(services, original, env, planned, kinds, snaps, |snaps| - 1);
          LostFollows(services, original, env, kinds, snaps);
        }
      case Some(StepFailure(err, lost)) =>
        TakenPassed(services, original, env, planned, kinds, snaps, |snaps| - 2);
        FailedFollows(services, original, env, planned, kinds, snaps, err);
    }
  }

  lemma OutcomeLength(services: Services, request: Request, env: Env, record: Record, failure: Option<Failure>,
                      snaps: seq<Record>)
    requires 1 <= request.maxSteps && Outcome(services, request, env, record, failure, snaps)
    ensures snaps != [] && (failure != Some(StoreFailed) ==> |snaps| >= 2)
    ensures snaps[|snaps| - 1].run.status == Completed ==> |snaps| >= 2
  {
    hide PlannedSteps, FollowsPlan, RunningTrace, GrowsTo, StepsTaken, FailedWith;
  }

  // ---------------------------------------------------------------- RunInvestigation

  method RunInvestigation(services: Services, original: Request, env: Env, runs: FileStore)
    returns (record: Record, failure: Option<Failure>, snapshots: seq<Record>)
    requires ClockRuns(env) && GoodTexts(services.texts) && runs.Valid()
    modifies runs
    ensures runs.Valid() && runs.log == old(runs.log) + Stored(env, snapshots)
    ensures failure == Some(BadRequest(GoalRequired)) <==> GoalOf(original) == ""
    ensures failure == Some(BadRequest(TenantRequired)) <==>
              GoalOf(original) != "" && TrimSpace(original.tenantId) == ""
    ensures GoalOf(original) == "" || TrimSpace(original.tenantId) == "" ==> record == NO_RECORD && snapshots == []
    ensures GoalOf(original) != "" && TrimSpace(original.tenantId) != "" ==>
              && snapshots != [] && record == (if |snapshots| == 1 then NO_RECORD else snapshots[|snapshots| - 1])
              && FollowsRequest(services, original, env, snapshots, failure)
    ensures match NormalizeRequest(original, env.stamp(env.clock(0)))
            case Err(error) => failure == Some(BadRequest(error)) && record == NO_RECORD && snapshots == []
            case Ok(request) => 1 <= request.maxSteps <= MAX_HARNESS_STEPS
                                && Outcome(services, request, env, record, failure, snapshots)
  {
    hide NormalizeRequest, Outcome, FollowsRequest, ClockRuns, GoodTexts, GoalOf, TrimSpace, Stored;
    RequestIsNormal(original, env.stamp(env.clock(0)));
    AcceptedExactly(original, env.stamp(env.clock(0)));
    var normalized := NormalizeRequest(original, env.stamp(env.clock(0)));
    if normalized.Err? {
      NothingStored(env, runs.log);
      return NO_RECORD, Some(BadRequest(normalized.error)), [];
    }
    record, failure, snapshots := RunGoodRequest(services, normalized.value, env, runs);
    GoodRequestFollows(services, original, env, record, failure, snapshots);
  }

  /** Which requests are turned down, and why. */
  lemma AcceptedExactly(original: Request, stamp: string)
    ensures var n := NormalizeRequest(original, stamp);
            && (n == Err(GoalRequired) <==> GoalOf(original) == "")
            && (n == Err(TenantRequired) <==> GoalOf(original) != "" && TrimSpace(original.tenantId) == "")
            && (n.Ok? <==> GoalOf(original) != "" && TrimSpace(original.tenantId) != "")
  {
    hide TrimSpace, ComposeId;
  }

  lemma NothingStored(env: Env, log: seq<Record>)
    ensures log == log + Stored(env, [])
  {
  }

  lemma GoodRequestFollows(services: Services, original: Request, env: Env, record: Record, failure: Option<Failure>,
                           snaps: seq<Record>)
    requires NormalizeRequest(original, env.stamp(env.clock(0))).Ok? && GoodTexts(services.texts)
    requires var request := NormalizeRequest(original, env.stamp(env.clock(0))).value;
             1 <= request.maxSteps && Outcome(services, request, env, record, failure, snaps)
    ensures FollowsRequest(services, original, env, snaps, failure)
    ensures snaps != [] && record == (if |snaps| == 1 then NO_RECORD else snaps[|snaps| - 1])
    ensures failure.Some? ==> !failure.value.BadRequest?
  {
    hide NormalizeRequest, Outcome, Follows, Asks, KindsOf, PhasesOf, GoodTexts, GoalOf, Lower, BudgetOf;
    var q := OneQuestion(Lower(GoalOf(original)), original.inputs);
    OutcomeFollows(services, original, env, q, record, failure, snaps);
    OutcomeIsNoBadRequest(services, NormalizeRequest(original, env.stamp(env.clock(0))).value, env, record, failure,
                          snaps);
  }

  lemma OutcomeIsNoBadRequest(services: Services, request: Request, env: Env, record: Record,
                              failure: Option<Failure>, snaps: seq<Record>)
    requires 1 <= request.maxSteps && Outcome(services, request, env, record, failure, snaps)
    ensures snaps != [] && (failure.Some? ==> !failure.value.BadRequest?)
  {
    hide PlannedSteps, FollowsPlan, RunningTrace, EndedTrace, StepsTaken, Finishes, FailedWith, FirstRecord;
  }
}
