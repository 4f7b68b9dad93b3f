/**
 * The checkpoints of internal/agents/runtime/daemon.go over whole runs of the
 * watcher. A visit is one pass of RunCycle's inner loop: a candidate found in
 * a search at some time over the events of that time, and the answers of the
 * checkpoint store and the harness. Any answer may be a failure.
 */
module Checkpoints {
  import opened Wrappers
  import opened Sorting
  import opened Text
  import opened Times
  import opened Events
  import opened SessionStore
  import opened Candidates
  import opened WatcherStore

  const MAX_SESSION_LIMIT := 200

  datatype Config = Config(
    tenants: seq<string>,
    window: int,
    minEvents: int,
    threshold: int,
    maxRunsPerCycle: int,
    watcherName: string,
    keyOf: (string, string) -> string)      // watcherStateKey

  /** What NewService checks, and what normalizeTenants leaves. */
  ghost predicate ValidConfig(cfg: Config) {
    && cfg.tenants != []
    && (forall i: nat | i < |cfg.tenants| :: !Blank(cfg.tenants[i]) && Trimmed(cfg.tenants[i]))
    && (forall i: nat, j: nat | i < j < |cfg.tenants| :: cfg.tenants[i] != cfg.tenants[j])
    && cfg.window > 0 && cfg.minEvents > 0 && cfg.threshold > 0 && cfg.maxRunsPerCycle > 0
    && !Blank(cfg.watcherName) && GoodKeys(cfg)
  }

  ghost predicate GoodKeys(cfg: Config) {
    forall t: string, s: string :: !Blank(cfg.keyOf(t, s)) && Trimmed(cfg.keyOf(t, s))
  }

  function SearchQuery(cfg: Config, tenant: string, now: Time): Query {
    Query(tenant, "", "", "", "", "", Some(now - cfg.window), Some(now), MAX_SESSION_LIMIT)
  }

  datatype RunAnswer =
    | RunFinished(runId: string)
    | RunAwaitsApproval(runId: string)      // ErrApprovalRequired counts as done
    | RunFailed

  datatype Answers = Answers(getUp: bool, run: RunAnswer, putUp: bool)

  datatype Visit = Visit(
    now: Time,
    tenant: string,
    events: seq<SessionEvent>,              // the session store at the time
    results: seq<SessionEvent>,             // what the search returned
    candidate: Candidate,
    answers: Answers)

  function KeyOf(cfg: Config, v: Visit): string {
    cfg.keyOf(v.tenant, v.candidate.subscriber)
  }

  datatype Move = Skip | LoadFails | RunFails | StoreFails | Trigger

  function NewState(cfg: Config, v: Visit): WatcherState {
    WatcherState(KeyOf(cfg, v), cfg.watcherName, v.tenant, v.candidate.subscriber, v.candidate.latest.eventId,
                 Some(v.candidate.latest.occurredAt),
                 if v.answers.run.RunFailed? then "" else v.answers.run.runId, v.now)
  }

  /** Which branch of the inner loop a visit takes. */
  function MoveOf(cfg: Config, log: seq<WatcherState>, v: Visit): Move {
    if !v.answers.getUp then LoadFails
    else
      var state := Scan(log, KeyOf(cfg, v));
      if state.Some? && state.value.lastEventId == v.candidate.latest.eventId then Skip
      else if v.answers.run.RunFailed? then RunFails
      else if !v.answers.putUp || !ValidState(NewState(cfg, v)) then StoreFails
      else Trigger
  }

  function LogAfter(cfg: Config, log: seq<WatcherState>, v: Visit): seq<WatcherState> {
    if MoveOf(cfg, log, v).Trigger? then log + [Normalize(NewState(cfg, v))] else log
  }

  /** The checkpoints stored over a run. */
  function LogOf(cfg: Config, visits: seq<Visit>): seq<WatcherState> {
    if visits == [] then [] else LogAfter(cfg, LogOf(cfg, visits[..|visits| - 1]), visits[|visits| - 1])
  }

  /** The visits that stored them. */
  function Triggers(cfg: Config, visits: seq<Visit>): seq<Visit> {
    if visits == [] then []
    else
      var before := visits[..|visits| - 1];
      var v := visits[|visits| - 1];
      Triggers(cfg, before) + (if MoveOf(cfg, LogOf(cfg, before), v).Trigger? then [v] else [])
  }

  // ---------------------------------------------------------------- runs

  /** The candidate of a visit is what the search and the grouping find at its time. */
  ghost predicate Legal(cfg: Config, v: Visit) {
    && IsSearch(SearchQuery(cfg, v.tenant, v.now), v.events, v.results)
    && IsLatestOf(Short(v.results, v.candidate.subscriber, cfg.threshold), v.candidate.latest)
  }

  /** Events are only appended, time does not go back, and a subscriber is visited once a cycle. */
  predicate InOrder(u: Visit, v: Visit) {
    && u.events <= v.events && u.now <= v.now
    && (u.tenant == v.tenant && u.candidate.subscriber == v.candidate.subscriber ==> u.now < v.now)
  }

  predicate Orderly(visits: seq<Visit>) {
    forall i: nat, j: nat | i < j < |visits| :: InOrder(visits[i], visits[j])
  }

  ghost predicate IsRun(cfg: Config, visits: seq<Visit>) {
    Orderly(visits) && forall i: nat | i < |visits| :: Legal(cfg, visits[i])
  }

  predicate SameMoment(a: SessionEvent, b: SessionEvent) {
    a.occurredAt == b.occurredAt && a.ingestedAt == b.ingestedAt
  }

  /**
   * Event ids carry no outer spaces, and (OccurredAt, IngestedAt) tells apart
   * events of different ids. Copies of an event are fine.
   */
  predicate MomentsNameIds(events: seq<SessionEvent>) {
    && (forall e | e in events :: Trimmed(e.eventId))
    && (forall e, f | e in events && f in events && SameMoment(e, f) :: e.eventId == f.eventId)
  }

  /** An id is not ingested a second time at another moment. */
  predicate IdsNameMoments(events: seq<SessionEvent>) {
    forall e, f | e in events && f in events && e.eventId == f.eventId :: SameMoment(e, f)
  }

  /** No two subscribers that were visited share a key. */
  ghost predicate DistinctKeys(cfg: Config, visits: seq<Visit>) {
    forall i: nat, j: nat | i < |visits| && j < |visits| && KeyOf(cfg, visits[i]) == KeyOf(cfg, visits[j]) ::
      visits[i].tenant == visits[j].tenant && visits[i].candidate.subscriber == visits[j].candidate.subscriber
  }

  predicate WithinEvents(visits: seq<Visit>, events: seq<SessionEvent>) {
    forall i: nat | i < |visits| :: visits[i].events <= events
  }

  /** Strictly later in (OccurredAt, IngestedAt). */
  predicate Later(a: SessionEvent, b: SessionEvent) {
    a.occurredAt > b.occurredAt || (a.occurredAt == b.occurredAt && a.ingestedAt > b.ingestedAt)
  }

  // ---------------------------------------------------------------- the window never loses a newer event

  lemma {:induction false} ShortSorted(results: seq<SessionEvent>, id: string, threshold: int)
    requires Sorted(NewestLe, results)
    ensures Sorted(NewestLe, Short(results, id, threshold))
  {
    if results != [] {
      var n := |results| - 1;
      ShortSorted(results[..n], id, threshold);
      ShortMembers(results[..n], id, threshold);
      var before := Short(results[..n], id, threshold);
      forall i: nat | i < |before|
        ensures NewestLe(before[i], results[n])
      {
        assert before[i] in before;
        var k: nat :| k < n && results[..n][k] == before[i];
        assert NewestLe(results[k], results[n]);
      }
    }
  }

  /** The latest event of a newest-first list is at least as new as every other. */
  lemma LatestIsNewest(short: seq<SessionEvent>, latest: SessionEvent, e: SessionEvent)
    requires Sorted(NewestLe, short) && IsLatestOf(short, latest) && e in short
    ensures NewestLe(latest, e)
  {
    var i: nat :| i < |short| && short[i] == latest
      && (forall j: nat | j < |short| :: short[j].occurredAt <= latest.occurredAt)
      && (forall j: nat | j < i :: short[j].occurredAt < latest.occurredAt);
    var j: nat :| j < |short| && short[j] == e;
    if i < j {
      assert NewestLe(short[i], short[j]);
    }
  }

  lemma LatestFacts(cfg: Config, v: Visit)
    requires Legal(cfg, v)
    ensures v.candidate.latest in v.results && v.candidate.latest in v.events
    ensures Matches(SearchQuery(cfg, v.tenant, v.now), v.candidate.latest)
    ensures Qualifies(v.candidate.latest, cfg.threshold)
    ensures TrimSpace(v.candidate.latest.subscriberId) == v.candidate.subscriber
  {
    var short := Short(v.results, v.candidate.subscriber, cfg.threshold);
    ShortMembers(v.results, v.candidate.subscriber, cfg.threshold);
    assert v.candidate.latest in short;
    SearchKeepsNewest(SearchQuery(cfg, v.tenant, v.now), v.events, v.results);
  }

  /**
   * A later visit of a subscriber finds an event at least as new, although the
   * window slid on and the search was cut to its limit.
   */
  lemma LatestNeverGoesBack(cfg: Config, u: Visit, v: Visit)
    requires Legal(cfg, u) && Legal(cfg, v) && InOrder(u, v)
    requires u.tenant == v.tenant && u.candidate.subscriber == v.candidate.subscriber
    ensures NewestLe(v.candidate.latest, u.candidate.latest)
  {
    var e, latest := u.candidate.latest, v.candidate.latest;
    var query := SearchQuery(cfg, v.tenant, v.now);
    LatestFacts(cfg, u);
    LatestFacts(cfg, v);
    if e.occurredAt >= v.now - cfg.window {
      assert e in v.events;
      assert Matches(query, e);
      SearchKeepsNewest(query, v.events, v.results);
      if e in v.results {
        ShortMembers(v.results, v.candidate.subscriber, cfg.threshold);
        ShortSorted(v.results, v.candidate.subscriber, cfg.threshold);
        LatestIsNewest(Short(v.results, v.candidate.subscriber, cfg.threshold), latest, e);
      }
    }
  }

  // ---------------------------------------------------------------- the log and its visits

  lemma {:induction false} LogIsTriggers(cfg: Config, visits: seq<Visit>)
    ensures var log, ts := LogOf(cfg, visits), Triggers(cfg, visits);
            && |log| == |ts|
            && (forall k: nat | k < |log| :: log[k] == Normalize(NewState(cfg, ts[k])))
            && (forall k: nat | k < |ts| :: ts[k] in visits)
  {
    if visits != [] {
      var n := |visits| - 1;
      LogIsTriggers(cfg, visits[..n]);
      assert visits == visits[..n] + [visits[n]];
    }
  }

  lemma {:induction false} TriggersInOrder(cfg: Config, visits: seq<Visit>)
    requires IsRun(cfg, visits)
    ensures IsRun(cfg, Triggers(cfg, visits))
  {
    hide MoveOf, LogOf, Legal;
    if visits != [] {
      var n := |visits| - 1;
      var before := visits[..n];
      assert forall k: nat | k < n :: before[k] == visits[k];
      TriggersInOrder(cfg, before);
      LogIsTriggers(cfg, before);
      var ts := Triggers(cfg, before);
      forall i: nat | i < |ts|
        ensures InOrder(ts[i], visits[n])
      {
        var k: nat :| k < n && before[k] == ts[i];
        assert InOrder(visits[k], visits[n]);
      }
    }
  }

  // ---------------------------------------------------------------- checkpoints only move forward

  /** Visits of one key, of which the second is later in the run, are of one subscriber and in order. */
  lemma SameKeySameSubscriber(cfg: Config, visits: seq<Visit>, u: Visit, v: Visit)
    requires DistinctKeys(cfg, visits) && u in visits && v in visits && KeyOf(cfg, u) == KeyOf(cfg, v)
    ensures u.tenant == v.tenant && u.candidate.subscriber == v.candidate.subscriber
  {
  }

  lemma LogEntry(cfg: Config, visits: seq<Visit>, k: nat)
    requires GoodKeys(cfg) && k < |LogOf(cfg, visits)|
    ensures k < |Triggers(cfg, visits)| && Triggers(cfg, visits)[k] in visits
    ensures var state, u := LogOf(cfg, visits)[k], Triggers(cfg, visits)[k];
            && state.key == KeyOf(cfg, u) && state.updatedAt == u.now
            && state.lastEventId == TrimSpace(u.candidate.latest.eventId)
            && state.lastOccurredAt == Some(u.candidate.latest.occurredAt)
  {
    LogIsTriggers(cfg, visits);
    assert Trimmed(KeyOf(cfg, Triggers(cfg, visits)[k]));
  }

  lemma SameKeyTriggers(cfg: Config, visits: seq<Visit>, all: seq<Visit>, i: nat, j: nat)
    requires IsRun(cfg, visits) && DistinctKeys(cfg, all) && GoodKeys(cfg)
    requires forall v | v in visits :: v in all
    requires i < j < |LogOf(cfg, visits)| && LogOf(cfg, visits)[i].key == LogOf(cfg, visits)[j].key
    ensures LogOf(cfg, visits)[i].updatedAt < LogOf(cfg, visits)[j].updatedAt
  {
    LogEntry(cfg, visits, i);
    LogEntry(cfg, visits, j);
    TriggersInOrder(cfg, visits);
    var u, v := Triggers(cfg, visits)[i], Triggers(cfg, visits)[j];
    SameKeySameSubscriber(cfg, all, u, v);
    assert InOrder(u, v);
  }

  lemma LogUpdatesStrictly(cfg: Config, visits: seq<Visit>, all: seq<Visit>)
    requires IsRun(cfg, visits) && DistinctKeys(cfg, all) && GoodKeys(cfg)
    requires forall v | v in visits :: v in all
    ensures StrictUpdates(LogOf(cfg, visits))
  {
    var log := LogOf(cfg, visits);
    forall i: nat, j: nat | i < j < |log| && log[i].key == log[j].key
      ensures log[i].updatedAt < log[j].updatedAt
    {
      SameKeyTriggers(cfg, visits, all, i, j);
    }
  }

  lemma SameIdOrLater(events: seq<SessionEvent>, a: SessionEvent, b: SessionEvent)
    requires MomentsNameIds(events) && a in events && b in events && NewestLe(a, b)
    ensures a.eventId == b.eventId || Later(a, b)
    ensures TrimSpace(a.eventId) == a.eventId && TrimSpace(b.eventId) == b.eventId
  {
    assert Trimmed(a.eventId) && Trimmed(b.eventId);
  }

  /** Two visits of a subscriber that found events with different ids: the later one's is strictly later. */
  lemma VisitAdvances(cfg: Config, u: Visit, v: Visit, events: seq<SessionEvent>)
    requires Legal(cfg, u) && Legal(cfg, v) && InOrder(u, v)
    requires u.tenant == v.tenant && u.candidate.subscriber == v.candidate.subscriber
    requires MomentsNameIds(events) && u.events <= events && v.events <= events
    ensures TrimSpace(u.candidate.latest.eventId) == u.candidate.latest.eventId
    ensures u.candidate.latest.eventId != v.candidate.latest.eventId ==> Later(v.candidate.latest, u.candidate.latest)
  {
    LatestNeverGoesBack(cfg, u, v);
    LatestFacts(cfg, u);
    LatestFacts(cfg, v);
    SameIdOrLater(events, v.candidate.latest, u.candidate.latest);
  }

  /** The two visits at hand, as the run orders them. */
  lemma MemberBeforeLast(cfg: Config, before: seq<Visit>, v: Visit, events: seq<SessionEvent>, u: Visit)
    requires IsRun(cfg, before + [v]) && WithinEvents(before + [v], events) && u in before
    ensures Legal(cfg, u) && Legal(cfg, v) && InOrder(u, v) && u.events <= events && v.events <= events
  {
    var visits := before + [v];
    var k: nat :| k < |before| && before[k] == u;
    assert visits[k] == u && visits[|before|] == v;
    assert InOrder(visits[k], visits[|before|]);
  }

  /** A visit that stores a checkpoint found a strictly later event than the last one under its key. */
  lemma TriggerAdvances(cfg: Config, before: seq<Visit>, v: Visit, events: seq<SessionEvent>, p: nat)
    requires IsRun(cfg, before) && IsRun(cfg, before + [v]) && DistinctKeys(cfg, before + [v]) && GoodKeys(cfg)
    requires MomentsNameIds(events) && WithinEvents(before + [v], events)
    requires MoveOf(cfg, LogOf(cfg, before), v).Trigger?
    requires p < |LogOf(cfg, before)| && p == LastIndex(LogOf(cfg, before), KeyOf(cfg, v))
    ensures p < |Triggers(cfg, before)| && Later(v.candidate.latest, Triggers(cfg, before)[p].candidate.latest)
  {
    LogEntry(cfg, before, p);
    var u := Triggers(cfg, before)[p];
    LogUpdatesStrictly(cfg, before, before + [v]);
    StoresAgree(LogOf(cfg, before), KeyOf(cfg, v));
    SameKeySameSubscriber(cfg, before + [v], u, v);
    MemberBeforeLast(cfg, before, v, events, u);
    VisitAdvances(cfg, u, v, events);
  }

  lemma LaterTransitive(a: SessionEvent, b: SessionEvent, c: SessionEvent)
    requires Later(a, b) && Later(b, c)
    ensures Later(a, c)
  {
  }

  lemma RunPrefix(cfg: Config, visits: seq<Visit>, events: seq<SessionEvent>)
    requires visits != []
    requires IsRun(cfg, visits) && DistinctKeys(cfg, visits) && WithinEvents(visits, events)
    ensures var before := visits[..|visits| - 1];
            IsRun(cfg, before) && DistinctKeys(cfg, before) && WithinEvents(before, events)
  {
    var before := visits[..|visits| - 1];
    assert forall k: nat | k < |before| :: before[k] == visits[k];
  }

  /** Whatever the events are, checkpoints under one key never go back to an older event. */
  lemma CheckpointsNeverGoBack(cfg: Config, visits: seq<Visit>, i: nat, j: nat)
    requires IsRun(cfg, visits) && DistinctKeys(cfg, visits) && GoodKeys(cfg)
    requires i < j < |LogOf(cfg, visits)| && LogOf(cfg, visits)[i].key == LogOf(cfg, visits)[j].key
    ensures var ts := Triggers(cfg, visits);
            j < |ts| && NewestLe(ts[j].candidate.latest, ts[i].candidate.latest)
  {
    LogEntry(cfg, visits, i);
    LogEntry(cfg, visits, j);
    TriggersInOrder(cfg, visits);
    var u, v := Triggers(cfg, visits)[i], Triggers(cfg, visits)[j];
    SameKeySameSubscriber(cfg, visits, u, v);
    LatestNeverGoesBack(cfg, u, v);
  }

  /**
   * Over every run of the watcher, the checkpoints stored under one key have
   * strictly increasing latest events: whatever failed, however the window
   * slid, whatever the limit cut off, and however often events were ingested.
   */
  lemma {:induction false} CheckpointsAdvance(cfg: Config, visits: seq<Visit>, events: seq<SessionEvent>)
    requires IsRun(cfg, visits) && DistinctKeys(cfg, visits) && GoodKeys(cfg)
    requires MomentsNameIds(events) && WithinEvents(visits, events)
    ensures var ts := Triggers(cfg, visits);
            forall i: nat, j: nat | i < j < |ts| && KeyOf(cfg, ts[i]) == KeyOf(cfg, ts[j]) ::
              Later(ts[j].candidate.latest, ts[i].candidate.latest)
  {
    hide MoveOf, LogOf, IsRun, DistinctKeys, GoodKeys, MomentsNameIds, Later;
    if visits != [] {
      var n := |visits| - 1;
      var before, v := visits[..n], visits[n];
      assert visits == before + [v];
      RunPrefix(cfg, visits, events);
      CheckpointsAdvance(cfg, before, events);
      if MoveOf(cfg, LogOf(cfg, before), v).Trigger? {
        var ts := Triggers(cfg, before);
        forall i: nat | i < |ts| && KeyOf(cfg, ts[i]) == KeyOf(cfg, v)
          ensures Later(v.candidate.latest, ts[i].candidate.latest)
        {
          var p := LastTrigger(cfg, before, KeyOf(cfg, v), i);
          TriggerAdvances(cfg, before, v, events, p);
          if i < p {
            LaterTransitive(v.candidate.latest, ts[p].candidate.latest, ts[i].candidate.latest);
          }
        }
      }
    }
  }

  /** The last checkpoint under a key that has one. */
  lemma LastTrigger(cfg: Config, before: seq<Visit>, key: string, i: nat) returns (p: nat)
    requires GoodKeys(cfg) && i < |Triggers(cfg, before)| && KeyOf(cfg, Triggers(cfg, before)[i]) == key
    ensures i <= p < |Triggers(cfg, before)| && p < |LogOf(cfg, before)|
    ensures p == LastIndex(LogOf(cfg, before), key) && KeyOf(cfg, Triggers(cfg, before)[p]) == key
  {
    LogIsTriggers(cfg, before);
    LogEntry(cfg, before, i);
    p := LastIndex(LogOf(cfg, before), key);
    LogEntry(cfg, before, p);
  }

  /**
   * In terms of the stored records, when ids and moments name each other, as
   * they do however often the same records are replayed: event ids never
   * repeat under a key, and times never go back.
   */
  lemma NoEventTwice(cfg: Config, visits: seq<Visit>, events: seq<SessionEvent>, i: nat, j: nat)
    requires IsRun(cfg, visits) && DistinctKeys(cfg, visits) && GoodKeys(cfg)
    requires MomentsNameIds(events) && IdsNameMoments(events) && WithinEvents(visits, events)
    requires i < j < |LogOf(cfg, visits)| && LogOf(cfg, visits)[i].key == LogOf(cfg, visits)[j].key
    ensures var log := LogOf(cfg, visits);
            && log[i].lastEventId != log[j].lastEventId
            && log[i].updatedAt < log[j].updatedAt
            && log[i].lastOccurredAt.Some? && log[j].lastOccurredAt.Some?
            && log[i].lastOccurredAt.value <= log[j].lastOccurredAt.value
  {
    LogEntry(cfg, visits, i);
    LogEntry(cfg, visits, j);
    SameKeyTriggers(cfg, visits, visits, i, j);
    CheckpointsAdvance(cfg, visits, events);
    var a, b := Triggers(cfg, visits)[i], Triggers(cfg, visits)[j];
    LatestInEvents(cfg, visits, events, a);
    LatestInEvents(cfg, visits, events, b);
    LaterDiffers(events, a.candidate.latest, b.candidate.latest);
  }

  lemma LatestInEvents(cfg: Config, visits: seq<Visit>, events: seq<SessionEvent>, u: Visit)
    requires IsRun(cfg, visits) && WithinEvents(visits, events) && MomentsNameIds(events) && u in visits
    ensures u.candidate.latest in events && TrimSpace(u.candidate.latest.eventId) == u.candidate.latest.eventId
  {
    var p: nat :| p < |visits| && visits[p] == u;
    assert Legal(cfg, visits[p]) && visits[p].events <= events;
    LatestFacts(cfg, u);
    SameIdOrLater(events, u.candidate.latest, u.candidate.latest);
  }

  lemma LaterDiffers(events: seq<SessionEvent>, a: SessionEvent, b: SessionEvent)
    requires IdsNameMoments(events) && a in events && b in events && Later(b, a)
    ensures a.eventId != b.eventId
  {
  }
}
