/**
 * When the watcher of internal/agents/runtime/daemon.go stores an event id a
 * second time. A checkpoint is compared with the latest event by id alone, so
 * an id comes back exactly when another event was the latest in between.
 */
module Comeback {
  import opened Wrappers
  import opened Sorting
  import opened Text
  import opened Times
  import opened Events
  import opened SessionStore
  import opened Candidates
  import opened WatcherStore
  import opened Checkpoints

  // ---------------------------------------------------------------- another id in between

  lemma PrefixIsRun(cfg: Config, before: seq<Visit>, v: Visit)
    requires IsRun(cfg, before + [v]) && DistinctKeys(cfg, before + [v])
    ensures IsRun(cfg, before) && DistinctKeys(cfg, before)
  {
    var visits := before + [v];
    assert forall k: nat | k < |before| :: before[k] == visits[k];
  }

  lemma LogGrows(cfg: Config, before: seq<Visit>, v: Visit)
    requires GoodKeys(cfg)
    ensures var log, after := LogOf(cfg, before), LogOf(cfg, before + [v]);
            && after == LogAfter(cfg, log, v)
            && (|after| > |log| ==> MoveOf(cfg, log, v).Trigger? && after[..|log|] == log
                                    && after[|log|].key == KeyOf(cfg, v)
                                    && after[|log|].lastEventId == TrimSpace(v.candidate.latest.eventId))
  {
    hide MoveOf;
    assert (before + [v])[..|before|] == before;
    assert Trimmed(KeyOf(cfg, v));
  }

  /** A trigger stores another id than the last checkpoint under its key has. */
  lemma TriggerDiffers(cfg: Config, before: seq<Visit>, v: Visit)
    requires IsRun(cfg, before) && DistinctKeys(cfg, before) && GoodKeys(cfg)
    requires MoveOf(cfg, LogOf(cfg, before), v).Trigger? && Trimmed(v.candidate.latest.eventId)
    ensures var log := LogOf(cfg, before);
            var p := LastIndex(log, KeyOf(cfg, v));
            p >= 0 ==> log[p].lastEventId != TrimSpace(v.candidate.latest.eventId)
  {
    hide IsRun;
    LogUpdatesStrictly(cfg, before, before);
    StoresAgree(LogOf(cfg, before), KeyOf(cfg, v));
  }

  lemma {:induction false} AnotherInBetween(cfg: Config, visits: seq<Visit>, i: nat, j: nat) returns (p: nat)
    requires IsRun(cfg, visits) && DistinctKeys(cfg, visits) && GoodKeys(cfg)
    requires forall v | v in visits :: Trimmed(v.candidate.latest.eventId)
    requires i < j < |LogOf(cfg, visits)| && LogOf(cfg, visits)[i].key == LogOf(cfg, visits)[j].key
    requires LogOf(cfg, visits)[i].lastEventId == LogOf(cfg, visits)[j].lastEventId
    ensures i < p < j && LogOf(cfg, visits)[p].key == LogOf(cfg, visits)[j].key
    ensures LogOf(cfg, visits)[p].lastEventId != LogOf(cfg, visits)[j].lastEventId
  {
    hide IsRun, DistinctKeys, GoodKeys, MoveOf, NewState, TrimSpace, Normalize;
    var n := |visits| - 1;
    var before, v := visits[..n], visits[n];
    var log := LogOf(cfg, before);
    assert visits == before + [v];
    PrefixIsRun(cfg, before, v);
    LogGrows(cfg, before, v);
    if j < |log| {
      p := AnotherInBetween(cfg, before, i, j);
    } else {
      p := LastIndex(log, KeyOf(cfg, v));
      TriggerDiffers(cfg, before, v);
    }
  }

  // ---------------------------------------------------------------- the condition

  /** An event and a time of looking for it. */
  datatype Sighting = Sighting(event: SessionEvent, now: Time)

  /** A cycle at that time can find the event for the subscriber. */
  predicate InSight(cfg: Config, tenant: string, subscriber: string, s: Sighting) {
    && SessionStore.Matches(SearchQuery(cfg, tenant, s.now), s.event)
    && Qualifies(s.event, cfg.threshold) && TrimSpace(s.event.subscriberId) == subscriber
    && s.now != ZERO_TIME
  }

  /** Three sightings in order, none older than the one before, of an id, another id, and the first again. */
  predicate ComesBack(cfg: Config, tenant: string, subscriber: string, a: Sighting, b: Sighting, c: Sighting) {
    && InSight(cfg, tenant, subscriber, a) && InSight(cfg, tenant, subscriber, b) && InSight(cfg, tenant, subscriber, c)
    && a.now < b.now < c.now
    && NewestLe(b.event, a.event) && NewestLe(c.event, b.event)
    && a.event.eventId == c.event.eventId != b.event.eventId
  }

  /** Events a store can hold after an adapter trimmed their ids. */
  predicate Storable(pool: set<SessionEvent>) {
    forall e | e in pool :: ValidSession(e) && Trimmed(e.eventId) && Trimmed(e.subscriberId)
  }

  /** A run of the watcher over events of the pool, ingested in any order and any number of times. */
  ghost predicate RunOver(cfg: Config, pool: set<SessionEvent>, visits: seq<Visit>) {
    && IsRun(cfg, visits) && DistinctKeys(cfg, visits)
    && forall v | v in visits ::
         && (forall e | e in v.events :: e in pool)
         && |Short(v.results, v.candidate.subscriber, cfg.threshold)| >= cfg.minEvents
  }

  /** The run stores one id twice for the subscriber. */
  ghost predicate StoresTwice(cfg: Config, tenant: string, subscriber: string, visits: seq<Visit>) {
    exists i: nat, j: nat :: TwiceAt(cfg, tenant, subscriber, visits, i, j)
  }

  ghost predicate TwiceAt(cfg: Config, tenant: string, subscriber: string, visits: seq<Visit>, i: nat, j: nat) {
    var log, ts := LogOf(cfg, visits), Triggers(cfg, visits);
    && i < j < |log| && i < |ts|
    && ts[i].tenant == tenant && ts[i].candidate.subscriber == subscriber
    && log[i].key == log[j].key && log[i].lastEventId == log[j].lastEventId
  }

  // ---------------------------------------------------------------- only then

  lemma {:induction false} TriggersAreValid(cfg: Config, visits: seq<Visit>)
    ensures forall t | t in Triggers(cfg, visits) :: ValidState(NewState(cfg, t))
  {
    hide ValidState, NewState;
    if visits != [] {
      TriggersAreValid(cfg, visits[..|visits| - 1]);
      if MoveOf(cfg, LogOf(cfg, visits[..|visits| - 1]), visits[|visits| - 1]).Trigger? {
        TriggerIsValid(cfg, LogOf(cfg, visits[..|visits| - 1]), visits[|visits| - 1]);
      }
    }
  }

  lemma TriggerIsValid(cfg: Config, log: seq<WatcherState>, v: Visit)
    requires MoveOf(cfg, log, v).Trigger?
    ensures ValidState(NewState(cfg, v))
  {
  }

  function SightingOf(v: Visit): Sighting {
    Sighting(v.candidate.latest, v.now)
  }

  /** A later trigger of the subscriber sees an event no older, at a later time. */
  lemma TriggersInSight(cfg: Config, visits: seq<Visit>, i: nat, j: nat)
    requires IsRun(cfg, visits) && DistinctKeys(cfg, visits) && GoodKeys(cfg)
    requires i < j < |LogOf(cfg, visits)| && LogOf(cfg, visits)[i].key == LogOf(cfg, visits)[j].key
    ensures var ts := Triggers(cfg, visits);
            && j < |ts| && ts[i] in visits && ts[j] in visits && ts[i].now < ts[j].now
            && ts[j].tenant == ts[i].tenant && ts[j].candidate.subscriber == ts[i].candidate.subscriber
            && NewestLe(ts[j].candidate.latest, ts[i].candidate.latest)
            && InSight(cfg, ts[i].tenant, ts[i].candidate.subscriber, SightingOf(ts[i]))
            && InSight(cfg, ts[i].tenant, ts[i].candidate.subscriber, SightingOf(ts[j]))
  {
    hide MoveOf, LogOf, NewestLe, SessionStore.Matches, Qualifies, TrimSpace, IsSearch, IsLatestOf, Short;
    LogEntry(cfg, visits, i);
    LogEntry(cfg, visits, j);
    TriggersInOrder(cfg, visits);
    TriggersAreValid(cfg, visits);
    var u, v := Triggers(cfg, visits)[i], Triggers(cfg, visits)[j];
    SameKeySameSubscriber(cfg, visits, u, v);
    assert u in Triggers(cfg, visits) && v in Triggers(cfg, visits);
    assert ValidState(NewState(cfg, u)) && ValidState(NewState(cfg, v));
    assert InOrder(u, v) && Legal(cfg, u) && Legal(cfg, v);
    LatestNeverGoesBack(cfg, u, v);
    LatestFacts(cfg, u);
    LatestFacts(cfg, v);
  }

  lemma LatestIsPooled(cfg: Config, pool: set<SessionEvent>, visits: seq<Visit>, v: Visit)
    requires RunOver(cfg, pool, visits) && v in visits
    ensures v.candidate.latest in pool && Legal(cfg, v)
  {
    var k: nat :| k < |visits| && visits[k] == v;
    assert Legal(cfg, visits[k]);
    LatestFacts(cfg, v);
  }

  lemma TwiceNeedsComeback(cfg: Config, tenant: string, subscriber: string, pool: set<SessionEvent>,
                           visits: seq<Visit>, i: nat, j: nat)
    returns (a: Sighting, b: Sighting, c: Sighting)
    requires GoodKeys(cfg) && Storable(pool) && RunOver(cfg, pool, visits)
    requires TwiceAt(cfg, tenant, subscriber, visits, i, j)
    ensures a.event in pool && b.event in pool && c.event in pool
    ensures ComesBack(cfg, tenant, subscriber, a, b, c)
  {
    hide MoveOf, LogOf, NewestLe, InSight, TrimSpace, IsSearch, IsLatestOf, Short, IsRun, DistinctKeys, GoodKeys,
         Qualifies, Legal;
    forall v | v in visits
      ensures Trimmed(v.candidate.latest.eventId) && v.candidate.latest in pool
    {
      LatestIsPooled(cfg, pool, visits, v);
    }
    var p := AnotherInBetween(cfg, visits, i, j);
    TriggersInSight(cfg, visits, i, p);
    TriggersInSight(cfg, visits, p, j);
    LogEntry(cfg, visits, i);
    LogEntry(cfg, visits, p);
    LogEntry(cfg, visits, j);
    var ts := Triggers(cfg, visits);
    assert Trimmed(ts[i].candidate.latest.eventId) && Trimmed(ts[p].candidate.latest.eventId)
        && Trimmed(ts[j].candidate.latest.eventId);
    a, b, c := SightingOf(ts[i]), SightingOf(ts[p]), SightingOf(ts[j]);
  }

  /** A search returns at most 200 events, so a watcher that wants more finds nobody. */
  lemma FoundWithinLimit(cfg: Config, v: Visit)
    requires Legal(cfg, v)
    ensures |Short(v.results, v.candidate.subscriber, cfg.threshold)| <= MAX_SESSION_LIMIT
  {
    hide Qualifies, NewestLe, TrimSpace, SessionStore.Matches;
    SearchKeepsNewest(SearchQuery(cfg, v.tenant, v.now), v.events, v.results);
    ShortIsShorter(v.results, v.candidate.subscriber, cfg.threshold);
  }

  lemma {:induction false} ShortIsShorter(events: seq<SessionEvent>, id: string, threshold: int)
    ensures |Short(events, id, threshold)| <= |events|
  {
    hide Qualifies, TrimSpace;
    if events != [] {
      ShortIsShorter(events[..|events| - 1], id, threshold);
    }
  }

  // ---------------------------------------------------------------- and always then

  function Copies(e: SessionEvent, m: nat): (r: seq<SessionEvent>)
    ensures |r| == m && forall i: nat | i < m :: r[i] == e
  {
    seq(m, (i: nat) => e)
  }

  lemma CopiesStep(e: SessionEvent, m: nat)
    requires m > 0
    ensures Copies(e, m) == Copies(e, m - 1) + [e]
  {
  }

  /** Everything the search of a sighting matches, its event first. */
  function Ranked(query: Query, before: seq<SessionEvent>, e: SessionEvent, m: nat): seq<SessionEvent> {
    Copies(e, m) + Sort(NewestLe, Matching(query, before))
  }

  lemma MatchingAppend(query: Query, list: seq<SessionEvent>, x: SessionEvent)
    requires SessionStore.Matches(query, x)
    ensures Matching(query, list + [x]) == Matching(query, list) + [x]
  {
    hide SessionStore.Matches;
    assert (list + [x])[..|list|] == list;
  }

  lemma {:induction false} MatchingCopies(query: Query, before: seq<SessionEvent>, e: SessionEvent, m: nat)
    requires SessionStore.Matches(query, e)
    ensures Matching(query, before + Copies(e, m)) == Matching(query, before) + Copies(e, m)
  {
    hide SessionStore.Matches, Matching, Copies;
    if m == 0 {
      assert before + Copies(e, m) == before;
    } else {
      MatchingCopies(query, before, e, m - 1);
      MatchingAppend(query, before + Copies(e, m - 1), e);
      CopiesStep(e, m);
      assert before + Copies(e, m) == before + Copies(e, m - 1) + [e];
      assert Matching(query, before) + Copies(e, m) == Matching(query, before) + Copies(e, m - 1) + [e];
    }
  }

  lemma RankedIsSearch(query: Query, before: seq<SessionEvent>, e: SessionEvent, m: nat)
    requires SessionStore.Matches(query, e)
    requires forall x | x in before :: NewestLe(e, x)
    ensures IsSortOf(NewestLe, Matching(query, before + Copies(e, m)), Ranked(query, before, e, m))
    ensures IsSearch(query, before + Copies(e, m), Cut(query.limit, Ranked(query, before, e, m)))
  {
    hide SessionStore.Matches;
    MatchingCopies(query, before, e, m);
    var rest := Sort(NewestLe, Matching(query, before));
    NewestOrder();
    SortIsSort(NewestLe, Matching(query, before));
    SameMembers(rest, Matching(query, before));
    var all := Ranked(query, before, e, m);
    forall i: nat, j: nat | i < j < |all|
      ensures NewestLe(all[i], all[j])
    {
      if i < m && j >= m {
        assert rest[j - m] in rest;
      }
    }
  }

  lemma NewestOrder()
    ensures TotalPreorder(NewestLe)
  {
  }

  lemma {:induction false} ShortOfCopies(e: SessionEvent, m: nat, rest: seq<SessionEvent>, id: string, threshold: int)
    requires Qualifies(e, threshold) && TrimSpace(e.subscriberId) == id
    ensures Short(Copies(e, m) + rest, id, threshold) == Copies(e, m) + Short(rest, id, threshold)
    decreases m + |rest|
  {
    hide Qualifies, TrimSpace;
    if rest != [] {
      var n := |rest| - 1;
      var all := Copies(e, m) + rest;
      ShortOfCopies(e, m, rest[..n], id, threshold);
      assert all[..|all| - 1] == Copies(e, m) + rest[..n] && all[|all| - 1] == rest[n];
    } else if m > 0 {
      ShortOfCopies(e, m - 1, [], id, threshold);
      CopiesStep(e, m);
      assert Copies(e, m) + rest == Copies(e, m) && Copies(e, m - 1) + [] == Copies(e, m - 1);
      assert Copies(e, m)[..m - 1] == Copies(e, m - 1);
    }
  }

  /** The visit that finds the event of a sighting, of which the store has just received m copies. */
  function VisitAt(cfg: Config, tenant: string, subscriber: string, before: seq<SessionEvent>, s: Sighting): Visit {
    var m := cfg.minEvents;
    var results := Cut(MAX_SESSION_LIMIT, Ranked(SearchQuery(cfg, tenant, s.now), before, s.event,
        if m > 0 then m else 0));
    Visit(s.now, tenant, Received(cfg, before, s), results,
          Candidate(tenant, subscriber, |Short(results, subscriber, cfg.threshold)|, s.event,
                    Timeline(results, subscriber), [], false),
          Answers(true, RunFinished("run"), true))
  }

  function Received(cfg: Config, before: seq<SessionEvent>, s: Sighting): seq<SessionEvent> {
    before + Copies(s.event, if cfg.minEvents > 0 then cfg.minEvents else 0)
  }

  lemma VisitIsLegal(cfg: Config, tenant: string, subscriber: string, before: seq<SessionEvent>, s: Sighting)
    requires 0 < cfg.minEvents <= MAX_SESSION_LIMIT && InSight(cfg, tenant, subscriber, s)
    requires forall x | x in before :: NewestLe(s.event, x)
    ensures var v := VisitAt(cfg, tenant, subscriber, before, s);
            Legal(cfg, v) && |Short(v.results, subscriber, cfg.threshold)| >= cfg.minEvents
  {
    hide SessionStore.Matches, Qualifies, TrimSpace, IsSearch, IsLatestOf, Short, NewestLe, Sort, Matching, Timeline;
    var m := cfg.minEvents;
    var query := SearchQuery(cfg, tenant, s.now);
    var all := Ranked(query, before, s.event, m);
    var results := Cut(MAX_SESSION_LIMIT, all);
    RankedIsSearch(query, before, s.event, m);
    var rest := results[m..];
    assert results == Copies(s.event, m) + rest;
    ShortOfCopies(s.event, m, rest, subscriber, cfg.threshold);
    NewestOrder();
    assert NewestLe(s.event, s.event);
    LatestIsFirst(results, s.event, m, subscriber, cfg.threshold, Received(cfg, before, s), query);
  }

  lemma LatestIsFirst(results: seq<SessionEvent>, e: SessionEvent, m: nat, id: string, threshold: int,
                      events: seq<SessionEvent>, query: Query)
    requires IsSearch(query, events, results) && forall x | x in events :: NewestLe(e, x)
    requires m > 0 && Copies(e, m) <= Short(results, id, threshold)
    ensures IsLatestOf(Short(results, id, threshold), e)
  {
    hide SessionStore.Matches, Qualifies, TrimSpace, IsSearch;
    var short := Short(results, id, threshold);
    ShortMembers(results, id, threshold);
    SearchKeepsNewest(query, events, results);
    assert short[0] == e;
    forall j: nat | j < |short|
      ensures short[j].occurredAt <= e.occurredAt
    {
      assert short[j] in short;
    }
  }

  // ---------------------------------------------------------------- the three visits

  /** What VisitAt does to a log whose last checkpoint under the key has another id. */
  lemma VisitTriggers(cfg: Config, tenant: string, subscriber: string, before: seq<SessionEvent>, s: Sighting,
                      log: seq<WatcherState>)
    requires ValidConfig(cfg) && tenant in cfg.tenants && InSight(cfg, tenant, subscriber, s)
    requires ValidSession(s.event) && Trimmed(s.event.eventId)
    requires Scan(log, cfg.keyOf(tenant, subscriber)).Some? ==>
               Scan(log, cfg.keyOf(tenant, subscriber)).value.lastEventId != s.event.eventId
    requires Scan(log, cfg.keyOf(tenant, subscriber)).Some? ==>
               Scan(log, cfg.keyOf(tenant, subscriber)).value.updatedAt < s.now
    ensures var v := VisitAt(cfg, tenant, subscriber, before, s);
            && LogAfter(cfg, log, v) == log + [Normalize(NewState(cfg, v))] && MoveOf(cfg, log, v).Trigger?
            && Scan(LogAfter(cfg, log, v), cfg.keyOf(tenant, subscriber)) == Some(Normalize(NewState(cfg, v)))
            && Normalize(NewState(cfg, v)).lastEventId == s.event.eventId
            && Normalize(NewState(cfg, v)).updatedAt == s.now
            && Normalize(NewState(cfg, v)).key == cfg.keyOf(tenant, subscriber)
  {
    hide Scan, Ranked, Sort, Timeline, Short, Received, TrimSpace;
    var v := VisitAt(cfg, tenant, subscriber, before, s);
    assert Trimmed(cfg.keyOf(tenant, subscriber));
    SubscriberNotBlank(cfg, tenant, subscriber, s);
    assert ValidState(NewState(cfg, v));
    ScanLast(log, Normalize(NewState(cfg, v)));
  }

  lemma SubscriberNotBlank(cfg: Config, tenant: string, subscriber: string, s: Sighting)
    requires InSight(cfg, tenant, subscriber, s)
    ensures !Blank(subscriber)
  {
    TrimNotBlank(s.event.subscriberId);
  }

  lemma ScanLast(log: seq<WatcherState>, s: WatcherState)
    requires Scan(log, s.key).Some? ==> Scan(log, s.key).value.updatedAt < s.updatedAt
    ensures Scan(log + [s], s.key) == Some(s)
  {
    assert (log + [s])[..|log|] == log;
  }

  /** The visits of three sightings, each after its event was received. */
  function ThreeVisits(cfg: Config, tenant: string, subscriber: string, a: Sighting, b: Sighting,
                       c: Sighting): seq<Visit> {
    var first := Received(cfg, [], a);
    var second := Received(cfg, first, b);
    [VisitAt(cfg, tenant, subscriber, [], a), VisitAt(cfg, tenant, subscriber, first, b),
     VisitAt(cfg, tenant, subscriber, second, c)]
  }

  lemma ThreeVisitsLog(cfg: Config, tenant: string, subscriber: string, a: Sighting, b: Sighting, c: Sighting,
                       pool: set<SessionEvent>)
    requires ValidConfig(cfg) && tenant in cfg.tenants && ComesBack(cfg, tenant, subscriber, a, b, c)
    requires Storable(pool) && a.event in pool && b.event in pool && c.event in pool
    ensures var visits := ThreeVisits(cfg, tenant, subscriber, a, b, c);
            TwiceAt(cfg, tenant, subscriber, visits, 0, 2)
  {
    hide VisitAt, InSight, NewestLe, ValidConfig, Normalize, NewState, MoveOf, Scan, Storable, ValidSession, TrimSpace;
    var visits := ThreeVisits(cfg, tenant, subscriber, a, b, c);
    var first := Received(cfg, [], a);
    var second := Received(cfg, first, b);
    var v1, v2, v3 := visits[0], visits[1], visits[2];
    PoolMember(pool, a.event);
    PoolMember(pool, b.event);
    PoolMember(pool, c.event);
    NothingScanned(cfg.keyOf(tenant, subscriber));
    VisitTriggers(cfg, tenant, subscriber, [], a, []);
    var log1 := LogAfter(cfg, [], v1);
    VisitTriggers(cfg, tenant, subscriber, first, b, log1);
    var log2 := LogAfter(cfg, log1, v2);
    VisitTriggers(cfg, tenant, subscriber, second, c, log2);
    LogOfThree(cfg, v1, v2, v3);
    VisitSubject(cfg, tenant, subscriber, [], a);
  }

  lemma VisitSubject(cfg: Config, tenant: string, subscriber: string, before: seq<SessionEvent>, s: Sighting)
    ensures var v := VisitAt(cfg, tenant, subscriber, before, s);
            && v.tenant == tenant && v.candidate.subscriber == subscriber && v.candidate.latest == s.event
            && v.now == s.now && v.events == Received(cfg, before, s)
  {
  }

  lemma PoolMember(pool: set<SessionEvent>, e: SessionEvent)
    requires Storable(pool) && e in pool
    ensures ValidSession(e) && Trimmed(e.eventId)
  {
    hide ValidSession, Trimmed;
  }

  lemma NothingScanned(key: string)
    ensures Scan([], key) == None
  {
  }

  lemma LogOfThree(cfg: Config, v1: Visit, v2: Visit, v3: Visit)
    requires MoveOf(cfg, [], v1).Trigger?
    ensures var log1 := LogAfter(cfg, [], v1);
            var log2 := LogAfter(cfg, log1, v2);
            && LogOf(cfg, [v1, v2, v3]) == LogAfter(cfg, log2, v3)
            && |Triggers(cfg, [v1, v2, v3])| > 0 && Triggers(cfg, [v1, v2, v3])[0] == v1
  {
    hide MoveOf, LogAfter;
    var empty: seq<Visit> := [];
    assert [v1, v2, v3][..2] == [v1, v2] && [v1, v2][..1] == [v1] && [v1][..0] == empty;
    assert LogOf(cfg, empty) == [] && Triggers(cfg, empty) == [];
    assert LogOf(cfg, [v1]) == LogAfter(cfg, [], v1) && Triggers(cfg, [v1]) == [v1];
    assert LogOf(cfg, [v1, v2]) == LogAfter(cfg, LogOf(cfg, [v1]), v2);
    assert Triggers(cfg, [v1]) <= Triggers(cfg, [v1, v2]);
    assert Triggers(cfg, [v1, v2]) <= Triggers(cfg, [v1, v2, v3]);
  }

  lemma ThreeVisitsRun(cfg: Config, tenant: string, subscriber: string, a: Sighting, b: Sighting, c: Sighting,
                       pool: set<SessionEvent>)
    requires 0 < cfg.minEvents <= MAX_SESSION_LIMIT && ComesBack(cfg, tenant, subscriber, a, b, c)
    requires a.event in pool && b.event in pool && c.event in pool
    ensures RunOver(cfg, pool, ThreeVisits(cfg, tenant, subscriber, a, b, c))
  {
    hide VisitAt, InSight, Legal, Short;
    var visits := ThreeVisits(cfg, tenant, subscriber, a, b, c);
    var first := Received(cfg, [], a);
    var second := Received(cfg, first, b);
    VisitIsLegal(cfg, tenant, subscriber, [], a);
    VisitIsLegal(cfg, tenant, subscriber, first, b);
    VisitIsLegal(cfg, tenant, subscriber, second, c);
    VisitSubject(cfg, tenant, subscriber, [], a);
    VisitSubject(cfg, tenant, subscriber, first, b);
    VisitSubject(cfg, tenant, subscriber, second, c);
    assert first <= second <= Received(cfg, second, c);
    forall x | x in Received(cfg, second, c)
      ensures x in pool
    {
    }
  }

  /** An id can be stored twice for a subscriber, over events of a pool. */
  ghost predicate CanStoreTwice(cfg: Config, tenant: string, subscriber: string, pool: set<SessionEvent>) {
    exists visits: seq<Visit> :: RunOver(cfg, pool, visits) && StoresTwice(cfg, tenant, subscriber, visits)
  }

  /** Some three sightings of events of the pool come back. */
  ghost predicate HasComeback(cfg: Config, tenant: string, subscriber: string, pool: set<SessionEvent>) {
    exists a: Sighting, b: Sighting, c: Sighting ::
      a.event in pool && b.event in pool && c.event in pool && ComesBack(cfg, tenant, subscriber, a, b, c)
  }

  /**
   * Exactly when an id can be checkpointed a second time: when the events hold
   * the id, another id no older, and the first id again no older than that, a
   * cycle can see the three in that order, and the search limit lets MinEvents
   * be reached at all. Replayed copies alone never do it.
   */
  lemma IdComesBackExactly(cfg: Config, tenant: string, subscriber: string, pool: set<SessionEvent>)
    requires ValidConfig(cfg) && tenant in cfg.tenants && Storable(pool)
    ensures CanStoreTwice(cfg, tenant, subscriber, pool) <==>
              cfg.minEvents <= MAX_SESSION_LIMIT && HasComeback(cfg, tenant, subscriber, pool)
  {
    hide RunOver, TwiceAt, ValidConfig, HasComeback, StoresTwice, Storable;
    if CanStoreTwice(cfg, tenant, subscriber, pool) {
      var visits: seq<Visit> :| RunOver(cfg, pool, visits) && StoresTwice(cfg, tenant, subscriber, visits);
      OnlyWithComeback(cfg, tenant, subscriber, pool, visits);
    }
    if cfg.minEvents <= MAX_SESSION_LIMIT && HasComeback(cfg, tenant, subscriber, pool) {
      AlwaysWithComeback(cfg, tenant, subscriber, pool);
    }
  }

  lemma OnlyWithComeback(cfg: Config, tenant: string, subscriber: string, pool: set<SessionEvent>, visits: seq<Visit>)
    requires ValidConfig(cfg) && Storable(pool)
    requires RunOver(cfg, pool, visits) && StoresTwice(cfg, tenant, subscriber, visits)
    ensures cfg.minEvents <= MAX_SESSION_LIMIT && HasComeback(cfg, tenant, subscriber, pool)
  {
    hide ComesBack, RunOver, TwiceAt, ValidConfig, Storable;
    var i: nat, j: nat :| TwiceAt(cfg, tenant, subscriber, visits, i, j);
    ConfigFacts(cfg);
    var a, b, c := TwiceNeedsComeback(cfg, tenant, subscriber, pool, visits, i, j);
    WithinLimit(cfg, tenant, subscriber, pool, visits, i, j);
  }

  lemma AlwaysWithComeback(cfg: Config, tenant: string, subscriber: string, pool: set<SessionEvent>)
    requires ValidConfig(cfg) && tenant in cfg.tenants && Storable(pool)
    requires cfg.minEvents <= MAX_SESSION_LIMIT && HasComeback(cfg, tenant, subscriber, pool)
    ensures CanStoreTwice(cfg, tenant, subscriber, pool)
  {
    hide ComesBack, RunOver, TwiceAt, ValidConfig, Storable, ThreeVisits;
    var a: Sighting, b: Sighting, c: Sighting :|
      a.event in pool && b.event in pool && c.event in pool && ComesBack(cfg, tenant, subscriber, a, b, c);
    ConfigFacts(cfg);
    ThreeVisitsRun(cfg, tenant, subscriber, a, b, c, pool);
    ThreeVisitsLog(cfg, tenant, subscriber, a, b, c, pool);
    assert StoresTwice(cfg, tenant, subscriber, ThreeVisits(cfg, tenant, subscriber, a, b, c));
  }

  lemma ConfigFacts(cfg: Config)
    requires ValidConfig(cfg)
    ensures GoodKeys(cfg) && cfg.minEvents > 0
  {
    hide GoodKeys;
  }

  lemma WithinLimit(cfg: Config, tenant: string, subscriber: string, pool: set<SessionEvent>,
                    visits: seq<Visit>, i: nat, j: nat)
    requires GoodKeys(cfg) && RunOver(cfg, pool, visits) && TwiceAt(cfg, tenant, subscriber, visits, i, j)
    ensures cfg.minEvents <= MAX_SESSION_LIMIT
  {
    hide IsRun, DistinctKeys, Legal, Short;
    LogIsTriggers(cfg, visits);
    var u := Triggers(cfg, visits)[i];
    LatestIsPooled(cfg, pool, visits, u);
    FoundWithinLimit(cfg, u);
  }

  /** With ids that name moments, as under replay alone, nothing comes back. */
  lemma ReplayNeverComesBack(cfg: Config, tenant: string, subscriber: string, pool: set<SessionEvent>)
    requires forall e, f | e in pool && f in pool :: SameMoment(e, f) <==> e.eventId == f.eventId
    ensures !HasComeback(cfg, tenant, subscriber, pool)
  {
    hide InSight;
  }

  /** If ids carry the time of the event, as the adapters build them, the three happened at one time. */
  lemma ComebackIsTied(cfg: Config, tenant: string, subscriber: string, a: Sighting, b: Sighting, c: Sighting)
    requires ComesBack(cfg, tenant, subscriber, a, b, c)
    requires a.event.occurredAt == c.event.occurredAt
    ensures a.event.occurredAt == b.event.occurredAt == c.event.occurredAt
    ensures a.event.ingestedAt <= b.event.ingestedAt <= c.event.ingestedAt
  {
    hide InSight;
  }

  // ---------------------------------------------------------------- a record ingested again

  function BobAt(tenant: string, id: string, ingestedAt: Time): SessionEvent {
    SHORT_STOP.(tenantId := tenant, eventId := id, occurredAt := 10, ingestedAt := ingestedAt)
  }

  /**
   * Stops a at (10, 11), b at (10, 12), and a again at (10, 14): over these
   * valid events the watcher can checkpoint a, b and a.
   */
  lemma ReingestedIdComesBack(cfg: Config, tenant: string)
    requires ValidConfig(cfg) && tenant in cfg.tenants && cfg.minEvents <= MAX_SESSION_LIMIT
    requires cfg.threshold >= SECOND && cfg.window >= 2
    ensures var pool := {BobAt(tenant, "a", 11), BobAt(tenant, "b", 12), BobAt(tenant, "a", 14)};
            Storable(pool) && CanStoreTwice(cfg, tenant, "bob", pool)
  {
    hide RunOver, TwiceAt, CanStoreTwice, GoodKeys;
    var x, y, z := BobAt(tenant, "a", 11), BobAt(tenant, "b", 12), BobAt(tenant, "a", 14);
    var pool := {x, y, z};
    BobIsStorable(cfg, tenant, "a", 11, 10);
    BobIsStorable(cfg, tenant, "b", 12, 11);
    BobIsStorable(cfg, tenant, "a", 14, 12);
    assert "a" != "b" by {
      assert "a"[0] != "b"[0];
    }
    assert ComesBack(cfg, tenant, "bob", Sighting(x, 10), Sighting(y, 11), Sighting(z, 12)) by {
      hide InSight;
    }
    assert x in pool && y in pool && z in pool;
    IdComesBackExactly(cfg, tenant, "bob", pool);
  }

  lemma BobIsStorable(cfg: Config, tenant: string, id: string, ingestedAt: Time, now: Time)
    requires ValidConfig(cfg) && tenant in cfg.tenants && cfg.threshold >= SECOND
    requires |id| == 1 && !IsSpace(id[0]) && ingestedAt != ZERO_TIME && now != ZERO_TIME
    requires 10 <= now <= 10 + cfg.window
    ensures var e := BobAt(tenant, id, ingestedAt);
            && ValidSession(e) && Trimmed(e.eventId) && Trimmed(e.subscriberId)
            && InSight(cfg, tenant, "bob", Sighting(e, now))
  {
    hide GoodKeys;
    var e := BobAt(tenant, id, ingestedAt);
    assert !Blank(tenant) && Trimmed(tenant);
    NotBlank(id, 0);
    ShortStopIsValid();
    TrimBare(IsSpace, id);
    TrimBare(IsSpace, "bob");
    ShortSessionFor32Bits(1, cfg.threshold);
    assert Qualifies(e, cfg.threshold);
    BlankFilters(cfg, tenant, e, now);
  }

  lemma BlankFilters(cfg: Config, tenant: string, e: SessionEvent, now: Time)
    requires e.tenantId == tenant && now - cfg.window <= e.occurredAt <= now
    ensures SessionStore.Matches(SearchQuery(cfg, tenant, now), e)
  {
    BlankTrims("");
  }
}
