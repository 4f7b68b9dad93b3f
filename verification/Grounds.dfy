/**
 * What RunCycle of internal/agents/runtime/daemon.go may act on, in terms of
 * the stored events themselves: whose events a candidate counts, and when they
 * happened. Nothing is asked of the events.
 */
module Grounds {
  import opened Wrappers
  import opened Sorting
  import opened Text
  import opened Times
  import opened Events
  import opened SessionStore
  import opened Candidates
  import WatcherStore
  import opened Checkpoints

  // ---------------------------------------------------------------- positions in a list

  function Keep(p: SessionEvent -> bool, list: seq<SessionEvent>): seq<SessionEvent> {
    if list == [] then []
    else Keep(p, list[..|list| - 1]) + if p(list[|list| - 1]) then [list[|list| - 1]] else []
  }

  ghost function Positions(p: SessionEvent -> bool, list: seq<SessionEvent>): set<nat> {
    set i: nat | i < |list| && p(list[i])
  }

  lemma {:induction false} KeepCounts(p: SessionEvent -> bool, list: seq<SessionEvent>)
    ensures |Keep(p, list)| == |Positions(p, list)|
  {
    if list != [] {
      var n := |list| - 1;
      var before := list[..n];
      KeepCounts(p, before);
      assert forall i: nat | i < n :: before[i] == list[i];
      assert Positions(p, list) == Positions(p, before) + if p(list[n]) then {n} else {};
    }
  }

  lemma {:induction false} KeepTimes(p: SessionEvent -> bool, list: seq<SessionEvent>, x: SessionEvent)
    ensures multiset(Keep(p, list))[x] == if p(x) then multiset(list)[x] else 0
  {
    if list != [] {
      var n := |list| - 1;
      KeepTimes(p, list[..n], x);
      assert list == list[..n] + [list[n]];
    }
  }

  lemma MultisetSize(a: multiset<SessionEvent>, b: multiset<SessionEvent>)
    requires a <= b
    ensures |a| <= |b|
  {
    assert b == a + (b - a);
  }

  /** A list within another has no more positions of any kind. */
  lemma FewerPositions(p: SessionEvent -> bool, part: seq<SessionEvent>, whole: seq<SessionEvent>)
    requires multiset(part) <= multiset(whole)
    ensures |Positions(p, part)| <= |Positions(p, whole)|
  {
    KeepCounts(p, part);
    KeepCounts(p, whole);
    forall x
      ensures multiset(Keep(p, part))[x] <= multiset(Keep(p, whole))[x]
    {
      KeepTimes(p, part, x);
      KeepTimes(p, whole, x);
    }
    MultisetSize(multiset(Keep(p, part)), multiset(Keep(p, whole)));
  }

  // ---------------------------------------------------------------- the window of a cycle

  /** Of the tenant, up to case and outer spaces, and within the window that ends now. */
  predicate InWindow(cfg: Config, now: Time, tenant: string, e: SessionEvent) {
    Lower(TrimSpace(e.tenantId)) == Lower(TrimSpace(tenant)) && now - cfg.window <= e.occurredAt <= now
  }

  predicate NewerFirst(a: SessionEvent, b: SessionEvent) {
    a.occurredAt > b.occurredAt || (a.occurredAt == b.occurredAt && a.ingestedAt >= b.ingestedAt)
  }

  /** The newest 200 events of the window, each as often as it is stored; fewer only if there are no more. */
  predicate IsWindow(cfg: Config, now: Time, tenant: string, events: seq<SessionEvent>, results: seq<SessionEvent>) {
    && multiset(results) <= multiset(events) && |results| <= 200
    && (forall e | e in results :: InWindow(cfg, now, tenant, e))
    && (forall i: nat, j: nat | i < j < |results| :: NewerFirst(results[i], results[j]))
    && (forall e | e in events && InWindow(cfg, now, tenant, e) && multiset(results)[e] < multiset(events)[e] ::
          |results| == 200 && forall r | r in results :: NewerFirst(r, e))
  }

  lemma {:induction false} MatchingCounts(filter: Query, events: seq<SessionEvent>, e: SessionEvent)
    ensures multiset(Matching(filter, events))[e] == if Matches(filter, e) then multiset(events)[e] else 0
  {
    hide Matches;
    if events != [] {
      var n := |events| - 1;
      MatchingCounts(filter, events[..n], e);
      assert events == events[..n] + [events[n]];
    }
  }

  /** The query of a cycle asks for its window. */
  lemma QueryMeaning(cfg: Config, now: Time, tenant: string, e: SessionEvent)
    requires TrimSpace(tenant) != ""
    ensures Matches(SearchQuery(cfg, tenant, now), e) <==> InWindow(cfg, now, tenant, e)
  {
    hide Lower;
    BlankTrims("");
  }

  lemma CutLeavesOut(all: seq<SessionEvent>, results: seq<SessionEvent>, e: SessionEvent)
    requires Sorted(NewestLe, all) && results == Cut(200, all) && multiset(results)[e] < multiset(all)[e]
    ensures |results| == 200 && forall r | r in results :: NewerFirst(r, e)
  {
    var rest := all[200..];
    assert all == results + rest;
    assert e in multiset(rest);
    var k: nat :| k < |rest| && rest[k] == e;
    assert all[200 + k] == e;
  }

  /** A sorted arrangement of the matching events holds each event of the window as often as it is stored. */
  lemma MatchingIsWindow(cfg: Config, now: Time, tenant: string, events: seq<SessionEvent>, all: seq<SessionEvent>,
                         e: SessionEvent)
    requires TrimSpace(tenant) != "" && multiset(all) == multiset(Matching(SearchQuery(cfg, tenant, now), events))
    ensures multiset(all)[e] == if InWindow(cfg, now, tenant, e) then multiset(events)[e] else 0
  {
    hide Matches, InWindow, SearchQuery;
    MatchingCounts(SearchQuery(cfg, tenant, now), events, e);
    QueryMeaning(cfg, now, tenant, e);
  }

  lemma CutIsPart(all: seq<SessionEvent>, e: SessionEvent)
    ensures multiset(Cut(200, all))[e] <= multiset(all)[e] && (e in Cut(200, all) ==> multiset(all)[e] > 0)
  {
    assert all == Cut(200, all) + if |all| > 200 then all[200..] else [];
    assert e in Cut(200, all) ==> e in multiset(Cut(200, all));
  }

  /** The cut of such an arrangement holds nothing else, and nothing more often. */
  lemma CutIsWindow(cfg: Config, now: Time, tenant: string, events: seq<SessionEvent>, all: seq<SessionEvent>)
    requires TrimSpace(tenant) != "" && multiset(all) == multiset(Matching(SearchQuery(cfg, tenant, now), events))
    ensures multiset(Cut(200, all)) <= multiset(events)
    ensures forall e | e in Cut(200, all) :: InWindow(cfg, now, tenant, e)
  {
    hide Matching, InWindow, TrimSpace, Cut, SearchQuery;
    forall e
      ensures multiset(Cut(200, all))[e] <= multiset(events)[e]
      ensures e in Cut(200, all) ==> InWindow(cfg, now, tenant, e)
    {
      MatchingIsWindow(cfg, now, tenant, events, all, e);
      CutIsPart(all, e);
    }
  }

  lemma SearchIsWindow(cfg: Config, now: Time, tenant: string, events: seq<SessionEvent>, results: seq<SessionEvent>)
    requires TrimSpace(tenant) != "" && IsSearch(SearchQuery(cfg, tenant, now), events, results)
    ensures IsWindow(cfg, now, tenant, events, results)
  {
    hide Matching, InWindow, TrimSpace;
    var query := SearchQuery(cfg, tenant, now);
    var all :| IsSortOf(NewestLe, Matching(query, events), all) && results == Cut(query.limit, all);
    CutIsWindow(cfg, now, tenant, events, all);
    forall e | e in events && InWindow(cfg, now, tenant, e) && multiset(results)[e] < multiset(events)[e]
      ensures |results| == 200 && forall r | r in results :: NewerFirst(r, e)
    {
      MatchingIsWindow(cfg, now, tenant, events, all, e);
      CutLeavesOut(all, results, e);
    }
  }

  // ---------------------------------------------------------------- the events a candidate counts

  /** Up to 9223372036 seconds the session time is at most the threshold; beyond, as the 64-bit product has it. */
  predicate ShortEnough(seconds: nat, threshold: int) {
    if seconds <= 9_223_372_036 then seconds * 1_000_000_000 <= threshold else ShortSession(seconds, threshold)
  }

  /** A short stop of the subscriber in the window. */
  predicate Supports(cfg: Config, now: Time, tenant: string, subscriber: string, e: SessionEvent) {
    && InWindow(cfg, now, tenant, e) && subscriber != "" && TrimSpace(e.subscriberId) == subscriber
    && e.status == "stop" && e.sessionTimeSeconds.Some? && ShortEnough(e.sessionTimeSeconds.value, cfg.threshold)
  }

  ghost function Supporting(cfg: Config, now: Time, tenant: string, subscriber: string, events: seq<SessionEvent>)
    : set<nat>
  {
    Positions((e: SessionEvent) => Supports(cfg, now, tenant, subscriber, e), events)
  }

  lemma QualifiesMeaning(e: SessionEvent, threshold: int)
    ensures Qualifies(e, threshold) <==>
              && TrimSpace(e.subscriberId) != "" && e.status == "stop" && e.sessionTimeSeconds.Some?
              && ShortEnough(e.sessionTimeSeconds.value, threshold)
  {
    hide TrimSpace, Blank;
    BlankTrims(e.subscriberId);
    if e.sessionTimeSeconds.Some? && e.sessionTimeSeconds.value <= 9_223_372_036 {
      assert ShortSession(e.sessionTimeSeconds.value, threshold)
          <==> e.sessionTimeSeconds.value * 1_000_000_000 <= threshold;
    }
  }

  lemma {:induction false} ShortIsKept(p: SessionEvent -> bool, results: seq<SessionEvent>, id: string, threshold: int)
    requires forall e | e in results :: p(e) <==> Qualifies(e, threshold) && TrimSpace(e.subscriberId) == id
    ensures Short(results, id, threshold) == Keep(p, results)
  {
    hide Qualifies, TrimSpace;
    if results != [] {
      var n := |results| - 1;
      assert results == results[..n] + [results[n]];
      ShortIsKept(p, results[..n], id, threshold);
    }
  }

  /** What detection counts for a subscriber in the window are its supporting events, position by position. */
  lemma ShortCounts(cfg: Config, now: Time, tenant: string, results: seq<SessionEvent>, subscriber: string)
    requires forall e | e in results :: InWindow(cfg, now, tenant, e)
    ensures |Short(results, subscriber, cfg.threshold)| == |Supporting(cfg, now, tenant, subscriber, results)|
    ensures forall e | e in Short(results, subscriber, cfg.threshold) ::
              e in results && Supports(cfg, now, tenant, subscriber, e)
  {
    hide Qualifies, TrimSpace, InWindow, ShortEnough, Short;
    var p := (e: SessionEvent) => Supports(cfg, now, tenant, subscriber, e);
    forall e | e in results
      ensures p(e) <==> Qualifies(e, cfg.threshold) && TrimSpace(e.subscriberId) == subscriber
    {
      QualifiesMeaning(e, cfg.threshold);
    }
    ShortIsKept(p, results, subscriber, cfg.threshold);
    KeepCounts(p, results);
    ShortMembers(results, subscriber, cfg.threshold);
    assert Positions(p, results) == Supporting(cfg, now, tenant, subscriber, results);
  }

  // ---------------------------------------------------------------- candidates

  /** However the ids are written, a group counts no event twice, and its latest event is one it counts. */
  predicate CountsOwn(results: seq<SessionEvent>, threshold: int, key: string, g: Group) {
    var short := Short(results, g.subscriber, threshold);
    g.subscriber == TrimSpace(key) && g.count <= |short| && g.latest in short
  }

  lemma OwnAppend(before: seq<SessionEvent>, e: SessionEvent, threshold: int, key: string, g: Group)
    requires CountsOwn(before, threshold, key, g)
    ensures CountsOwn(before + [e], threshold, key, g)
    ensures Qualifies(e, threshold) && TrimSpace(e.subscriberId) == g.subscriber ==>
              CountsOwn(before + [e], threshold, e.subscriberId,
                        Group(g.subscriber, g.count + 1, if e.occurredAt > g.latest.occurredAt then e else g.latest))
  {
    hide TrimSpace, Qualifies, Short;
    ShortAppend(before, e, g.subscriber, threshold);
  }

  lemma OwnStart(before: seq<SessionEvent>, e: SessionEvent, threshold: int)
    requires Qualifies(e, threshold)
    ensures var id := TrimSpace(e.subscriberId); CountsOwn(before + [e], threshold, id, Group(id, 1, e))
  {
    hide Qualifies, Short;
    TrimTrim(IsSpace, e.subscriberId);
    ShortAppend(before, e, TrimSpace(e.subscriberId), threshold);
  }

  lemma {:induction false} GroupsCountOwn(results: seq<SessionEvent>, threshold: int, key: string)
    requires key in Grouped(results, threshold)
    ensures CountsOwn(results, threshold, key, Grouped(results, threshold)[key])
  {
    hide TrimSpace, Qualifies, CountsOwn;
    var n := |results| - 1;
    var before, e := results[..n], results[n];
    assert results == before + [e];
    var groups := Grouped(before, threshold);
    var id := TrimSpace(e.subscriberId);
    if Qualifies(e, threshold) && id in groups && key == e.subscriberId {
      GroupsCountOwn(before, threshold, id);
      SubscriberOfKey(before, threshold, id, groups[id], e);
      OwnAppend(before, e, threshold, id, groups[id]);
    } else if Qualifies(e, threshold) && id !in groups && key == id {
      OwnStart(before, e, threshold);
    } else {
      GroupsCountOwn(before, threshold, key);
      OwnAppend(before, e, threshold, key, groups[key]);
    }
  }

  lemma SubscriberOfKey(results: seq<SessionEvent>, threshold: int, id: string, g: Group, e: SessionEvent)
    requires CountsOwn(results, threshold, id, g) && id == TrimSpace(e.subscriberId)
    ensures g.subscriber == id
  {
    TrimTrim(IsSpace, e.subscriberId);
  }

  /** A candidate at now: enough stored events of the window support it, and its latest event is one of them. */
  ghost predicate Grounded(cfg: Config, now: Time, tenant: string, events: seq<SessionEvent>, c: Candidate) {
    && c.tenantId == tenant && TrimSpace(c.subscriber) == c.subscriber
    && |Supporting(cfg, now, tenant, c.subscriber, events)| >= cfg.minEvents
    && c.latest in events && Supports(cfg, now, tenant, c.subscriber, c.latest)
  }

  lemma GroupOfCandidate(tenant: string, results: seq<SessionEvent>, threshold: int, minEvents: int,
                         list: seq<Candidate>, c: Candidate) returns (key: string)
    requires IsDetected(tenant, results, threshold, minEvents, list) && c in list
    ensures key in Grouped(results, threshold) && Grouped(results, threshold)[key].count >= minEvents
    ensures c == CandidateOf(tenant, results, Grouped(results, threshold)[key])
  {
    hide Grouped, CandidateOf;
    var groups := Grouped(results, threshold);
    var unranked: seq<Candidate> :|
      ListsGroups(tenant, results, minEvents, groups, unranked) && multiset(unranked) == multiset(list);
    SameMembers(unranked, list);
    var keys: seq<string> :| ListedBy(tenant, results, minEvents, groups, keys, unranked);
    ListedKeys(tenant, results, minEvents, groups, keys, unranked);
    var i: nat :| i < |unranked| && unranked[i] == c;
    key := keys[i];
    assert key in keys;
  }

  lemma DetectedIsGrounded(cfg: Config, now: Time, tenant: string, events: seq<SessionEvent>,
                           results: seq<SessionEvent>, list: seq<Candidate>, c: Candidate)
    requires IsWindow(cfg, now, tenant, events, results) && c in list
    requires IsDetected(tenant, results, cfg.threshold, cfg.minEvents, list)
    ensures Grounded(cfg, now, tenant, events, c)
  {
    hide Supports, Short, Grouped, InWindow, IsDetected, TrimSpace, Timeline;
    var key := GroupOfCandidate(tenant, results, cfg.threshold, cfg.minEvents, list, c);
    GroupsCountOwn(results, cfg.threshold, key);
    ShortCounts(cfg, now, tenant, results, c.subscriber);
    FewerPositions((e: SessionEvent) => Supports(cfg, now, tenant, c.subscriber, e), results, events);
    assert Supporting(cfg, now, tenant, c.subscriber, results)
        == Positions((e: SessionEvent) => Supports(cfg, now, tenant, c.subscriber, e), results);
    AllTrimmed(key);
    assert c.latest in multiset(results);
  }

  // ---------------------------------------------------------------- checkpoints

  /** A checkpoint stored at now, and the stored events that call for it. */
  ghost predicate HasGrounds(cfg: Config, now: Time, tenant: string, events: seq<SessionEvent>,
                             s: WatcherStore.WatcherState) {
    && s.tenantId == TrimSpace(tenant) && s.watcherName == TrimSpace(cfg.watcherName) && s.updatedAt == now
    && s.key == TrimSpace(cfg.keyOf(tenant, s.subjectId))
    && |Supporting(cfg, now, tenant, s.subjectId, events)| >= cfg.minEvents
    && exists i :: i in Supporting(cfg, now, tenant, s.subjectId, events)
                   && s.lastEventId == TrimSpace(events[i].eventId) && s.lastOccurredAt == Some(events[i].occurredAt)
  }

  /** What a visit of a grounded candidate stores. */
  lemma StoredHasGrounds(cfg: Config, v: Visit)
    requires Grounded(cfg, v.now, v.tenant, v.events, v.candidate)
    ensures HasGrounds(cfg, v.now, v.tenant, v.events, WatcherStore.Normalize(NewState(cfg, v)))
  {
    hide Supports, TrimSpace;
    var c := v.candidate;
    var i: nat :| i < |v.events| && v.events[i] == c.latest;
    assert i in Supporting(cfg, v.now, v.tenant, c.subscriber, v.events);
  }

  // ---------------------------------------------------------------- ranking

  /** a goes before b: correlated first, then with access events, then more events, then newer, then by name. */
  predicate GoesBefore(a: Candidate, b: Candidate) {
    && (b.correlated ==> a.correlated)
    && (a.correlated == b.correlated ==>
          && (b.accessEvents != [] ==> a.accessEvents != [])
          && ((a.accessEvents == []) == (b.accessEvents == []) ==>
                && a.count >= b.count
                && (a.count == b.count ==>
                      && a.latest.occurredAt >= b.latest.occurredAt
                      && (a.latest.occurredAt == b.latest.occurredAt ==> StringLe(a.subscriber, b.subscriber)))))
  }

  lemma RankedGoesBefore(list: seq<Candidate>, i: nat, j: nat)
    requires Sorted(CandidateLe, list) && i < j < |list|
    ensures GoesBefore(list[i], list[j])
  {
    assert CandidateLe(list[i], list[j]);
  }

  /** With trimmed ids the count of a candidate is that of the events of the window that support it. */
  lemma CountIsExact(cfg: Config, now: Time, tenant: string, events: seq<SessionEvent>, results: seq<SessionEvent>,
                     list: seq<Candidate>, c: Candidate)
    requires IsWindow(cfg, now, tenant, events, results) && c in list && cfg.minEvents > 0
    requires IsDetected(tenant, results, cfg.threshold, cfg.minEvents, list)
    requires forall e | e in results :: Trimmed(e.subscriberId)
    ensures c.count == |Supporting(cfg, now, tenant, c.subscriber, results)|
  {
    hide Supports, Short, InWindow, IsDetected, TrimSpace, Timeline;
    assert LaterIdsTrimmed(results, cfg.threshold) by {
      assert forall i: nat | i < |results| :: results[i] in results;
    }
    DetectedMeaning(tenant, results, cfg.threshold, cfg.minEvents, list);
    assert IsExact(tenant, results, cfg.threshold, cfg.minEvents, c);
    ShortCounts(cfg, now, tenant, results, c.subscriber);
  }
}
