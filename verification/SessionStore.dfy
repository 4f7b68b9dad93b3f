/**
 * The windowed search of internal/storage/metadata/sessions/store.go: newest
 * first by (OccurredAt, IngestedAt), cut to the limit. A file is the sequence
 * of events appended to it, so both back ends search such a sequence.
 */
module SessionStore {
  import opened Wrappers
  import opened Sorting
  import opened Text
  import opened Times
  import opened Events

  datatype Query = Query(
    tenantId: string,
    subscriberId: string,
    sessionId: string,
    status: string,
    nasIp: string,
    clientIp: string,
    from: Option<Time>,
    to: Option<Time>,
    limit: int)

  predicate Matches(filter: Query, e: SessionEvent) {
    && FieldMatches(filter.tenantId, e.tenantId)
    && FieldMatches(filter.subscriberId, e.subscriberId)
    && FieldMatches(filter.sessionId, e.sessionId)
    && FieldMatches(filter.status, e.status)
    && FieldMatches(filter.nasIp, e.nasIp)
    && FieldMatches(filter.clientIp, e.clientIp)
    && (filter.from.Some? ==> e.occurredAt >= filter.from.value)
    && (filter.to.Some? ==> e.occurredAt <= filter.to.value)
  }

  /** Every field that the query names has the wanted text, up to case and outer spaces, and the time is within. */
  lemma MatchesExactly(filter: Query, e: SessionEvent)
    ensures Matches(filter, e) <==>
              && (forall pair | pair in [(filter.tenantId, e.tenantId), (filter.subscriberId, e.subscriberId),
                                         (filter.sessionId, e.sessionId), (filter.status, e.status),
                                         (filter.nasIp, e.nasIp), (filter.clientIp, e.clientIp)] ::
                    TrimSpace(pair.0) == "" || Lower(TrimSpace(pair.0)) == Lower(TrimSpace(pair.1)))
              && (filter.from == None || filter.from.value <= e.occurredAt)
              && (filter.to == None || e.occurredAt <= filter.to.value)
  {
    hide TrimSpace, Lower;
    var pairs := [(filter.tenantId, e.tenantId), (filter.subscriberId, e.subscriberId),
                  (filter.sessionId, e.sessionId), (filter.status, e.status),
                  (filter.nasIp, e.nasIp), (filter.clientIp, e.clientIp)];
    assert pairs[0] in pairs && pairs[1] in pairs && pairs[2] in pairs && pairs[3] in pairs;
    assert pairs[4] in pairs && pairs[5] in pairs;
  }

  /** Newest first. */
  predicate NewestLe(a: SessionEvent, b: SessionEvent) {
    a.occurredAt > b.occurredAt || (a.occurredAt == b.occurredAt && a.ingestedAt >= b.ingestedAt)
  }

  function Matching(filter: Query, events: seq<SessionEvent>): (r: seq<SessionEvent>)
    ensures forall e :: e in r <==> e in events && Matches(filter, e)
  {
    if events == [] then []
    else
      var n := |events| - 1;
      assert events == events[..n] + [events[n]];
      Matching(filter, events[..n]) + (if Matches(filter, events[n]) then [events[n]] else [])
  }

  /** results is a possible answer: sort.Slice leaves ties in any order. */
  ghost predicate IsSearch(filter: Query, events: seq<SessionEvent>, results: seq<SessionEvent>) {
    exists all: seq<SessionEvent> :: IsSortOf(NewestLe, Matching(filter, events), all)
        && results == Cut(filter.limit, all)
  }

  class MemoryStore {
    var events: seq<SessionEvent>

    constructor ()
      ensures events == []
    {
      events := [];
    }

    method Append(event: SessionEvent) returns (ok: bool)
      modifies this
      ensures ok == ValidSession(event)
      ensures events == if ok then old(events) + [event] else old(events)
    {
      ok := ValidSession(event);
      if ok {
        events := events + [event];
      }
    }

    method Search(filter: Query) returns (results: seq<SessionEvent>)
      ensures IsSearch(filter, events, results)
    {
      results := [];
      for n := 0 to |events|
        invariant results == Matching(filter, events[..n])
      {
        assert events[..n + 1][..n] == events[..n];
        if !Matches(filter, events[n]) {
          continue;
        }
        results := results + [events[n]];
      }
      assert events[..|events|] == events;
      SortIsSort(NewestLe, results);
      results := Sort(NewestLe, results);
      assert IsSortOf(NewestLe, Matching(filter, events), results);
      if filter.limit > 0 && |results| > filter.limit {
        results := results[..filter.limit];
      }
    }
  }

  /**
   * A search returns matching events only, newest first; when it leaves a
   * matching event out, everything it returns is at least as new.
   */
  lemma SearchKeepsNewest(filter: Query, events: seq<SessionEvent>, results: seq<SessionEvent>)
    requires IsSearch(filter, events, results)
    ensures Sorted(NewestLe, results)
    ensures forall e | e in results :: e in events && Matches(filter, e)
    ensures forall e, r | e in events && Matches(filter, e) && e !in results && r in results :: NewestLe(r, e)
    ensures filter.limit > 0 ==> |results| <= filter.limit
  {
    var all :| IsSortOf(NewestLe, Matching(filter, events), all) && results == Cut(filter.limit, all);
    SameMembers(all, Matching(filter, events));
    assert forall r | r in results :: r in all;
    forall e, r | e in events && Matches(filter, e) && e !in results && r in results
      ensures NewestLe(r, e)
    {
      CutKeepsBest(NewestLe, filter.limit, all, e);
    }
  }
}
