/**
 * The access-to-session timeline of internal/agents/harness/investigation.go:
 * the before-connect answer and the cross-source finding. The events are
 * sorted with sort.Slice, so what is promised holds for any order of ties.
 */
module Timeline {
  import opened Wrappers
  import opened Sorting
  import opened Text
  import opened Events

  predicate AccessLe(a: AccessEvent, b: AccessEvent) {
    a.occurredAt < b.occurredAt || (a.occurredAt == b.occurredAt && a.ingestedAt <= b.ingestedAt)
  }

  predicate SessionLe(a: SessionEvent, b: SessionEvent) {
    a.occurredAt < b.occurredAt || (a.occurredAt == b.occurredAt && a.ingestedAt <= b.ingestedAt)
  }

  method SortAccessAscending(events: seq<AccessEvent>) returns (ordered: seq<AccessEvent>)
    ensures Sorted(AccessLe, ordered)
    ensures forall e :: e in ordered <==> e in events
  {
    ordered := Sort(AccessLe, events);
    SortIsSort(AccessLe, events);
    SameMembers(ordered, events);
  }

  method SortSessionsAscending(events: seq<SessionEvent>) returns (ordered: seq<SessionEvent>)
    ensures Sorted(SessionLe, ordered)
    ensures forall e :: e in ordered <==> e in events
  {
    ordered := Sort(SessionLe, events);
    SortIsSort(SessionLe, events);
    SameMembers(ordered, events);
  }

  /** e is a session event with this status, and none with it comes before. */
  predicate IsFirst(events: seq<SessionEvent>, status: string, e: SessionEvent) {
    e in events && e.status == status && forall s | s in events && s.status == status :: e.occurredAt <= s.occurredAt
  }

  predicate IsLast(events: seq<SessionEvent>, status: string, e: SessionEvent) {
    e in events && e.status == status && forall s | s in events && s.status == status :: s.occurredAt <= e.occurredAt
  }

  predicate HasStatus(events: seq<SessionEvent>, status: string) {
    exists s | s in events :: s.status == status
  }

  method FirstWithStatus(events: seq<SessionEvent>, status: string) returns (first: Option<SessionEvent>)
    requires Sorted(SessionLe, events)
    ensures first.None? <==> !HasStatus(events, status)
    ensures first.Some? ==> IsFirst(events, status, first.value)
  {
    for n := 0 to |events|
      invariant forall k: nat | k < n :: events[k].status != status
    {
      if events[n].status == status {
        forall s | s in events && s.status == status
          ensures events[n].occurredAt <= s.occurredAt
        {
          var k: nat :| k < |events| && events[k] == s;
          assert k == n || SessionLe(events[n], events[k]);
        }
        return Some(events[n]);
      }
    }
    return None;
  }

  method LastWithStatus(events: seq<SessionEvent>, status: string) returns (last: Option<SessionEvent>)
    requires Sorted(SessionLe, events)
    ensures last.None? <==> !HasStatus(events, status)
    ensures last.Some? ==> IsLast(events, status, last.value)
  {
    for n := |events| downto 0
      invariant forall k: nat | n <= k < |events| :: events[k].status != status
    {
      if events[n].status == status {
        forall s | s in events && s.status == status
          ensures s.occurredAt <= events[n].occurredAt
        {
          var k: nat :| k < |events| && events[k] == s;
          assert k == n || SessionLe(events[k], events[n]);
        }
        return Some(events[n]);
      }
    }
    return None;
  }

  /** The test latestAccessOutcomeBefore makes of one access event. */
  predicate Counts(e: AccessEvent, outcome: string, before: Option<SessionEvent>) {
    e.outcome == outcome && (before.Some? ==> e.occurredAt <= before.value.occurredAt)
  }

  method LatestOutcomeBefore(events: seq<AccessEvent>, outcome: string, before: Option<SessionEvent>)
    returns (latest: Option<AccessEvent>)
    requires Sorted(AccessLe, events)
    ensures latest.None? <==> forall e | e in events :: !Counts(e, outcome, before)
    ensures latest.Some? ==>
              && latest.value in events && Counts(latest.value, outcome, before)
              && forall e | e in events && Counts(e, outcome, before) :: e.occurredAt <= latest.value.occurredAt
  {
    latest := None;
    for n := 0 to |events|
      invariant latest.None? <==> forall k: nat | k < n :: !Counts(events[k], outcome, before)
      invariant latest.Some? ==> latest.value in events && Counts(latest.value, outcome, before)
      invariant latest.Some? ==>
                  forall k: nat | k < n && Counts(events[k], outcome, before) ::
                      events[k].occurredAt <= latest.value.occurredAt
    {
      if events[n].outcome != outcome {
        continue;
      }
      if before.Some? && events[n].occurredAt > before.value.occurredAt {
        continue;
      }
      forall k: nat | k < n
        ensures events[k].occurredAt <= events[n].occurredAt
      {
        assert AccessLe(events[k], events[n]);
      }
      latest := Some(events[n]);
    }
  }

  // ---------------------------------------------------------------- what the events say

  /** No later than every session start in the window. */
  predicate BeforeEveryStart(sessions: seq<SessionEvent>, e: AccessEvent) {
    forall s | s in sessions && s.status == STATUS_START :: e.occurredAt <= s.occurredAt
  }

  predicate Relevant(access: seq<AccessEvent>, sessions: seq<SessionEvent>, outcome: string, e: AccessEvent) {
    e in access && e.outcome == outcome && BeforeEveryStart(sessions, e)
  }

  predicate HasRelevant(access: seq<AccessEvent>, sessions: seq<SessionEvent>, outcome: string) {
    exists e | e in access :: Relevant(access, sessions, outcome, e)
  }

  /** The latest of the relevant events with this outcome. */
  predicate IsLatest(access: seq<AccessEvent>, sessions: seq<SessionEvent>, outcome: string, e: AccessEvent) {
    && Relevant(access, sessions, outcome, e)
    && forall f | f in access && Relevant(access, sessions, outcome, f) :: f.occurredAt <= e.occurredAt
  }

  lemma CountsIsRelevant(access: seq<AccessEvent>, sessions: seq<SessionEvent>, first: Option<SessionEvent>,
                         outcome: string, e: AccessEvent)
    requires first.None? <==> !HasStatus(sessions, STATUS_START)
    requires first.Some? ==> IsFirst(sessions, STATUS_START, first.value)
    ensures e in access && Counts(e, outcome, first) <==> Relevant(access, sessions, outcome, e)
  {
  }

  /** The lookups both answers are made from. */
  method Look(access: seq<AccessEvent>, sessions: seq<SessionEvent>, outcome: string)
    returns (first: Option<SessionEvent>, latest: Option<AccessEvent>)
    ensures first.None? <==> !HasStatus(sessions, STATUS_START)
    ensures first.Some? ==> IsFirst(sessions, STATUS_START, first.value)
    ensures latest.None? <==> !HasRelevant(access, sessions, outcome)
    ensures latest.Some? ==> IsLatest(access, sessions, outcome, latest.value)
  {
    var orderedAccess := SortAccessAscending(access);
    var orderedSessions := SortSessionsAscending(sessions);
    first := FirstWithStatus(orderedSessions, STATUS_START);
    latest := LatestOutcomeBefore(orderedAccess, outcome, first);
    forall e {
      CountsIsRelevant(access, sessions, first, outcome, e);
    }
  }

  // ---------------------------------------------------------------- the before-connect answer

  datatype Answer = Yes | Partially | No | NoAnswer

  /**
   * The answer depends only on which events there are: yes exactly when there
   * is a start and some rejection is no later than every start.
   */
  method BeforeConnectAnswer(access: seq<AccessEvent>, sessions: seq<SessionEvent>) returns (answer: Answer)
    ensures answer == Yes <==>
              (exists s | s in sessions :: s.status == STATUS_START) &&
              (exists e | e in access :: e.outcome == OUTCOME_REJECTED && BeforeEveryStart(sessions, e))
    ensures answer == Partially <==>
              (forall s | s in sessions :: s.status != STATUS_START) &&
              (exists e | e in access :: e.outcome == OUTCOME_REJECTED)
    ensures answer == No <==>
              (exists s | s in sessions :: s.status == STATUS_START) &&
              (forall e | e in access && e.outcome == OUTCOME_REJECTED :: !BeforeEveryStart(sessions, e))
  {
    var firstStart, rejectedBeforeStart := Look(access, sessions, OUTCOME_REJECTED);
    answer :=
      if rejectedBeforeStart.Some? && firstStart.Some? then Yes
      else if rejectedBeforeStart.Some? then Partially
      else if firstStart.Some? then No
      else NoAnswer;
  }

  // ---------------------------------------------------------------- the cross-source finding

  datatype Finding =
    | NoFinding
    | RejectedAcceptedStarted(rejected: AccessEvent, accepted: AccessEvent, start: SessionEvent,
        lastStop: Option<SessionEvent>)
    | ChallengedAcceptedStarted(challenged: AccessEvent, accepted: AccessEvent, start: SessionEvent)
    | AcceptedStarted(accepted: AccessEvent, start: SessionEvent)
    | AcceptedOnly(accepted: AccessEvent)
    | RejectedOnly(rejected: AccessEvent)

  /** The finding that the events call for, and the events it names. */
  ghost predicate IsFinding(access: seq<AccessEvent>, sessions: seq<SessionEvent>, f: Finding) {
    var started := HasStatus(sessions, STATUS_START);
    var accepted := HasRelevant(access, sessions, OUTCOME_ACCEPTED);
    var rejected := HasRelevant(access, sessions, OUTCOME_REJECTED);
    var challenged := HasRelevant(access, sessions, OUTCOME_CHALLENGED);
    match f
    case RejectedAcceptedStarted(r, a, s, stop) =>
      && IsLatest(access, sessions, OUTCOME_REJECTED, r) && IsLatest(access, sessions, OUTCOME_ACCEPTED, a)
      && IsFirst(sessions, STATUS_START, s)
      && (if stop.Some? then IsLast(sessions, STATUS_STOP, stop.value) else !HasStatus(sessions, STATUS_STOP))
    case ChallengedAcceptedStarted(c, a, s) =>
      && !rejected && IsLatest(access, sessions, OUTCOME_CHALLENGED, c)
      && IsLatest(access, sessions, OUTCOME_ACCEPTED, a) && IsFirst(sessions, STATUS_START, s)
    case AcceptedStarted(a, s) =>
      && !rejected && !challenged && IsLatest(access, sessions, OUTCOME_ACCEPTED, a)
      && IsFirst(sessions, STATUS_START, s)
    case AcceptedOnly(a) => !started && IsLatest(access, sessions, OUTCOME_ACCEPTED, a)
    case RejectedOnly(r) => !started && !accepted && IsLatest(access, sessions, OUTCOME_REJECTED, r)
    case NoFinding => !accepted && (started || !rejected)
  }

  /** Whether the summary has any text. */
  predicate HasFinding(access: seq<AccessEvent>, sessions: seq<SessionEvent>) {
    HasRelevant(access, sessions, OUTCOME_ACCEPTED)
    || (!HasStatus(sessions, STATUS_START) && HasRelevant(access, sessions, OUTCOME_REJECTED))
  }

  method Correlate(access: seq<AccessEvent>, sessions: seq<SessionEvent>) returns (f: Finding)
    ensures IsFinding(access, sessions, f)
    ensures f.NoFinding? <==> !HasFinding(access, sessions)
  {
    if access == [] && sessions == [] {
      return NoFinding;
    }
    var orderedSessions := SortSessionsAscending(sessions);
    var lastStop := LastWithStatus(orderedSessions, STATUS_STOP);
    var firstStart, rejected := Look(access, sessions, OUTCOME_REJECTED);
    var start2, challenged := Look(access, sessions, OUTCOME_CHALLENGED);
    var start3, accepted := Look(access, sessions, OUTCOME_ACCEPTED);
    if rejected.Some? && accepted.Some? && firstStart.Some? {
      return RejectedAcceptedStarted(rejected.value, accepted.value, firstStart.value, lastStop);
    } else if challenged.Some? && accepted.Some? && firstStart.Some? {
      return ChallengedAcceptedStarted(challenged.value, accepted.value, firstStart.value);
    } else if accepted.Some? && firstStart.Some? {
      return AcceptedStarted(accepted.value, firstStart.value);
    } else if accepted.Some? {
      return AcceptedOnly(accepted.value);
    } else if rejected.Some? && firstStart.None? {
      return RejectedOnly(rejected.value);
    }
    return NoFinding;
  }

  /** The rejection or challenge that a finding says was followed by an acceptance. */
  function Earlier(f: Finding): AccessEvent
    requires f.RejectedAcceptedStarted? || f.ChallengedAcceptedStarted?
  {
    match f
    case RejectedAcceptedStarted(r, _, _, _) => r
    case ChallengedAcceptedStarted(c, _, _) => c
  }

  /**
   * The text of the first two findings says "later accepted". That is so
   * exactly when some acceptance before the first start is no earlier than
   * every rejection, or challenge, before it; the code does not check.
   */
  lemma LaterAcceptedExactly(access: seq<AccessEvent>, sessions: seq<SessionEvent>, f: Finding)
    requires IsFinding(access, sessions, f) && (f.RejectedAcceptedStarted? || f.ChallengedAcceptedStarted?)
    ensures var outcome := if f.RejectedAcceptedStarted? then OUTCOME_REJECTED else OUTCOME_CHALLENGED;
            Earlier(f).occurredAt <= f.accepted.occurredAt <==>
              exists a | a in access :: Relevant(access, sessions, OUTCOME_ACCEPTED, a) &&
                forall r | r in access && Relevant(access, sessions, outcome, r) :: r.occurredAt <= a.occurredAt
  {
    assert f.accepted in access && Earlier(f) in access;
  }

  const SOME_ACCESS := AccessEvent("e", "a", "radius", "k", "v", "access", "t", 1, 1, "bob", "q", "", OUTCOME_ACCEPTED,
                                   "", "", "", "", [], "access", map[])
  const SOME_START := SessionEvent("e", "r", "radius", "k", "v", "session", "t", 3, 3, "bob", "s", STATUS_START, "", "",
                                   None, [], "start", map[])

  lemma SomeEventsAreValid()
    ensures ValidAccess(SOME_ACCESS) && ValidSession(SOME_START)
  {
    NotBlank("e", 0);
    NotBlank("a", 0);
    NotBlank("r", 0);
    NotBlank("q", 0);
    NotBlank("s", 0);
    NotBlank("radius", 0);
    NotBlank("k", 0);
    NotBlank("v", 0);
    NotBlank("access", 0);
    NotBlank("session", 0);
    NotBlank("t", 0);
    NotBlank("bob", 0);
    NotBlank("start", 0);
  }

  /** Valid events, accepted at 1, rejected at 2, started at 3: the finding still says rejected, later accepted. */
  lemma LaterAcceptedCanBeWrong()
    ensures var rejected := SOME_ACCESS.(eventId := "r", outcome := OUTCOME_REJECTED, occurredAt := 2);
            var access := [SOME_ACCESS, rejected];
            var f := RejectedAcceptedStarted(rejected, SOME_ACCESS, SOME_START, None);
            && (forall e | e in access :: ValidAccess(e)) && ValidSession(SOME_START)
            && IsFinding(access, [SOME_START], f) && f.rejected.occurredAt > f.accepted.occurredAt
  {
    SomeEventsAreValid();
    NotBlank("r", 0);
  }
}
