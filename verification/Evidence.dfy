/**
 * Merging in internal/agents/harness/investigation.go: searchSessions joins the
 * answers of several limited searches, combineEvidence the references of a
 * whole run. Both keep the last value under each key in a map, range over the
 * map, sort, and cut to five.
 */
module Evidence {
  import opened Wrappers
  import opened Sorting
  import opened Text
  import opened Events
  import opened Candidates
  import opened SessionStore
  import opened AgentStore
  import Retrieval

  const MAX_EVIDENCE_PER_STEP := 5

  // ---------------------------------------------------------------- the last value under each key

  function LastBy<K(==), V>(key: V -> K, list: seq<V>): (m: map<K, V>)
    ensures forall k | k in m :: key(m[k]) == k && m[k] in list
    ensures forall v | v in list :: key(v) in m
  {
    if list == [] then map[]
    else
      var n := |list| - 1;
      assert list == list[..n] + [list[n]];
      LastBy(key, list[..n])[key(list[n]) := list[n]]
  }

  /** v is in the list, and nothing after it has its key. */
  predicate IsLastOfKey<K(==), V(==)>(key: V -> K, list: seq<V>, v: V) {
    exists i: nat | i < |list| :: list[i] == v && forall j: nat | i < j < |list| :: key(list[j]) != key(v)
  }

  lemma LastByAppend<K, V>(key: V -> K, list: seq<V>, x: V)
    ensures LastBy(key, list + [x]) == LastBy(key, list)[key(x) := x]
  {
    assert (list + [x])[..|list|] == list;
  }

  lemma LastOfKeyAppend<K, V>(key: V -> K, list: seq<V>, x: V, v: V)
    ensures IsLastOfKey(key, list + [x], v) <==> v == x || (key(v) != key(x) && IsLastOfKey(key, list, v))
  {
    var longer := list + [x];
    assert longer[|list|] == x;
    if IsLastOfKey(key, list, v) {
      var i: nat :| i < |list| && list[i] == v && forall j: nat | i < j < |list| :: key(list[j]) != key(v);
      assert longer[i] == v;
    }
    if IsLastOfKey(key, longer, v) {
      var i: nat :| i < |longer| && longer[i] == v && forall j: nat | i < j < |longer| :: key(longer[j]) != key(v);
      forall j: nat | i < j < |list|
        ensures key(list[j]) != key(v)
      {
        assert longer[j] == list[j];
      }
      assert i < |list| ==> list[i] == v && key(longer[|list|]) != key(v);
    }
  }

  lemma {:induction false} LastByMeaning<K, V>(key: V -> K, list: seq<V>, v: V)
    ensures v in ValuesOf(LastBy(key, list)) <==> IsLastOfKey(key, list, v)
  {
    hide IsLastOfKey;
    if list == [] {
      LastOfNothing(key, v);
    } else {
      var n := |list| - 1;
      var before, x := list[..n], list[n];
      assert list == before + [x];
      LastByMeaning(key, before, v);
      LastOfKeyAppend(key, before, x, v);
      LastByAppend(key, before, x);
      var m, m' := LastBy(key, before), LastBy(key, list);
      assert v in ValuesOf(m) <==> key(v) in m && m[key(v)] == v;
      assert v in ValuesOf(m') <==> key(v) in m' && m'[key(v)] == v;
    }
  }

  lemma LastOfNothing<K, V>(key: V -> K, v: V)
    ensures !IsLastOfKey(key, [], v)
  {
  }

  /** The values of a map, once each. */
  ghost function ValuesOf<K, V>(m: map<K, V>): set<V> {
    set k | k in m :: m[k]
  }

  lemma NothingKept<K, V>(key: V -> K)
    ensures LastBy(key, []) == map[]
  {
  }

  /** One of the loops that put values into the map; before is what it holds already. */
  method PutAll<K(==), V>(key: V -> K, m: map<K, V>, ghost before: seq<V>, list: seq<V>) returns (r: map<K, V>)
    requires m == LastBy(key, before)
    ensures r == LastBy(key, before + list)
  {
    hide LastBy;
    r := m;
    assert before + list[..0] == before;
    for n := 0 to |list|
      invariant r == LastBy(key, before + list[..n])
    {
      LastByAppend(key, before + list[..n], list[n]);
      assert before + list[..n + 1] == before + list[..n] + [list[n]];
      r := r[key(list[n]) := list[n]];
    }
    assert list[..|list|] == list;
  }

  // ---------------------------------------------------------------- the best of them

  /** best is a possible answer: sort.Slice leaves ties in any order. */
  ghost predicate IsBest<V(!new)>(le: (V, V) -> bool, limit: int, values: set<V>, best: seq<V>) {
    exists all: seq<V> :: Sorted(le, all) && multiset(all) == multiset(values) && best == Cut(limit, all)
  }

  method TakeBest<K(==), V(==, !new)>(le: (V, V) -> bool, limit: int, key: V -> K, m: map<K, V>) returns (best: seq<V>)
    requires TotalPreorder(le) && forall k | k in m :: key(m[k]) == k
    ensures IsBest(le, limit, ValuesOf(m), best)
  {
    best := [];
    var left := m.Keys;
    while left != {}
      invariant left <= m.Keys && multiset(best) == multiset(ValuesOf(m - left))
      decreases left
    {
      var k :| k in left;
      OneMoreValue(key, m, left, k);
      left := left - {k};
      best := best + [m[k]];
    }
    assert m - left == m;
    SortIsSort(le, best);
    best := Sort(le, best);
    if limit > 0 && |best| > limit {
      best := best[..limit];
    }
  }

  lemma OneMoreValue<K, V>(key: V -> K, m: map<K, V>, left: set<K>, k: K)
    requires left <= m.Keys && k in left && forall k | k in m :: key(m[k]) == k
    ensures multiset(ValuesOf(m - (left - {k}))) == multiset(ValuesOf(m - left)) + multiset{m[k]}
  {
    var before, after := m - left, m - (left - {k});
    assert after.Keys == before.Keys + {k};
    assert forall x | x in before :: before[x] == m[x];
    assert forall x | x in after :: after[x] == m[x];
    assert ValuesOf(after) == ValuesOf(before) + {m[k]};
    assert m[k] !in ValuesOf(before);
  }

  /** best is in order, and what it leaves out of values it leaves out only for the limit, and is no better. */
  ghost predicate KeepsBest<V(!new)>(le: (V, V) -> bool, limit: int, values: set<V>, best: seq<V>) {
    && Sorted(le, best) && |best| <= limit
    && (forall v | v in best :: v in values)
    && (forall i: nat, j: nat | i < j < |best| :: best[i] != best[j])
    && (forall v | v in values && v !in best :: |best| == limit && forall b | b in best :: le(b, v))
  }

  lemma BestMeaning<V(!new)>(le: (V, V) -> bool, limit: int, values: set<V>, best: seq<V>)
    requires TotalPreorder(le) && IsBest(le, limit, values, best) && limit > 0
    ensures KeepsBest(le, limit, values, best)
  {
    var all :| Sorted(le, all) && multiset(all) == multiset(values) && best == Cut(limit, all);
    forall v
      ensures v in all <==> v in values
    {
      assert v in all <==> v in multiset(all);
    }
    assert forall v | v in best :: v in all;
    forall i: nat, j: nat | i < j < |best|
      ensures best[i] != best[j]
    {
      DistinctPositions(all, values, i, j);
    }
    forall v | v in values && v !in best
      ensures |best| == limit && forall b | b in best :: le(b, v)
    {
      CutKeepsBest(le, limit, all, v);
    }
  }

  ghost function SetOf<V>(list: seq<V>): set<V> {
    set v | v in list
  }

  lemma {:induction false} DistinctSize<V>(list: seq<V>)
    requires forall i: nat, j: nat | i < j < |list| :: list[i] != list[j]
    ensures |SetOf(list)| == |list|
  {
    if list != [] {
      var n := |list| - 1;
      DistinctSize(list[..n]);
      assert SetOf(list) == SetOf(list[..n]) + {list[n]};
    }
  }

  /** The values that are no worse than v. */
  ghost function NoWorse<V>(le: (V, V) -> bool, values: set<V>, v: V): set<V> {
    set b | b in values && le(b, v)
  }

  lemma SubsetSize<V>(a: set<V>, b: set<V>)
    requires a <= b
    ensures |a| <= |b|
  {
    assert b == a + (b - a);
  }

  /** With limit values no worse than v to choose from, the best are that many, and all no worse than v. */
  lemma CrowdedOut<V(!new)>(le: (V, V) -> bool, limit: int, values: set<V>, best: seq<V>, v: V)
    requires TotalPreorder(le) && KeepsBest(le, limit, values, best) && |NoWorse(le, values, v)| >= limit
    ensures |best| == limit && forall b | b in best :: le(b, v)
  {
    var crowd := NoWorse(le, values, v);
    DistinctSize(best);
    if |best| < limit {
      assert crowd <= SetOf(best);
      SubsetSize(crowd, SetOf(best));
    }
    forall b | b in best
      ensures le(b, v)
    {
      if !le(b, v) {
        assert b !in crowd && crowd + {b} <= SetOf(best);
        SubsetSize(crowd + {b}, SetOf(best));
      }
    }
  }

  /**
   * The best of some of the sources are the best of all of them if and only if
   * everything that was not among the some is crowded out by limit others there.
   */
  lemma MergeKeepsBestExactly<V(!new)>(le: (V, V) -> bool, limit: int, source: set<V>, values: set<V>, best: seq<V>)
    requires TotalPreorder(le) && limit > 0 && values <= source && KeepsBest(le, limit, values, best)
    ensures KeepsBest(le, limit, source, best) <==>
              forall v | v in source && v !in values :: |NoWorse(le, values, v)| >= limit
  {
    if KeepsBest(le, limit, source, best) {
      forall v | v in source && v !in values
        ensures |NoWorse(le, values, v)| >= limit
      {
        DistinctSize(best);
        assert SetOf(best) <= NoWorse(le, values, v);
        SubsetSize(SetOf(best), NoWorse(le, values, v));
      }
    }
    if forall v | v in source && v !in values :: |NoWorse(le, values, v)| >= limit {
      forall v | v in source && v !in best
        ensures |best| == limit && forall b | b in best :: le(b, v)
      {
        if v !in values {
          CrowdedOut(le, limit, values, best, v);
        }
      }
    }
  }

  // ---------------------------------------------------------------- searchSessions

  type Search = Query -> Option<seq<SessionEvent>>

  function IdOf(e: SessionEvent): string {
    e.eventId
  }

  /** The answers of the queries, one after another. */
  function Joined(queries: seq<Query>, search: Search): seq<SessionEvent> {
    if queries == [] then []
    else
      var n := |queries| - 1;
      Joined(queries[..n], search) + AnswerOf(queries[n], search)
  }

  method SearchSessions(queries: seq<Query>, search: Search) returns (events: Option<seq<SessionEvent>>)
    ensures events.None? <==> exists q | q in queries :: search(q).None?
    ensures events.Some? ==>
              IsBest(NewestLe, MAX_EVIDENCE_PER_STEP, Answered(queries, search), events.value)
  {
    hide LastBy, NewestLe, IsBest;
    NothingKept(IdOf);
    var eventsById: map<string, SessionEvent> := map[];
    for n := 0 to |queries|
      invariant eventsById == LastBy(IdOf, Joined(queries[..n], search))
      invariant forall k: nat | k < n :: search(queries[k]).Some?
    {
      assert queries[..n + 1][..n] == queries[..n];
      var answer := search(queries[n]);
      if answer.None? {
        assert queries[n] in queries;
        return None;
      }
      eventsById := PutAll(IdOf, eventsById, Joined(queries[..n], search), answer.value);
    }
    assert queries[..|queries|] == queries;
    NewestOrder();
    var best := TakeBest(NewestLe, MAX_EVIDENCE_PER_STEP, IdOf, eventsById);
    return Some(best);
  }

  lemma NewestOrder()
    ensures TotalPreorder(NewestLe)
  {
  }

  /** Every query has the limit of a step and is answered by a search of the store. */
  ghost predicate AnsweredFrom(events: seq<SessionEvent>, queries: seq<Query>, search: Search) {
    forall q | q in queries ::
      q.limit == MAX_EVIDENCE_PER_STEP && search(q).Some? && IsSearch(q, events, search(q).value)
  }

  /** A limited search is in order, matches, and leaves a match out only when full of events no older. */
  lemma SearchFills(query: Query, events: seq<SessionEvent>, results: seq<SessionEvent>)
    requires IsSearch(query, events, results) && query.limit > 0
    ensures Sorted(NewestLe, results) && |results| <= query.limit
    ensures forall e | e in results :: e in events && SessionStore.Matches(query, e)
    ensures forall e | e in events && SessionStore.Matches(query, e) && e !in results ::
              |results| == query.limit && forall r | r in results :: NewestLe(r, e)
  {
    hide SessionStore.Matches;
    SearchKeepsNewest(query, events, results);
    NewestOrder();
    var all :| IsSortOf(NewestLe, Matching(query, events), all) && results == Cut(query.limit, all);
    SameMembers(all, Matching(query, events));
    forall e | e in events && SessionStore.Matches(query, e) && e !in results
      ensures |results| == query.limit
    {
      CutKeepsBest(NewestLe, query.limit, all, e);
    }
  }

  lemma {:induction false} JoinedMembers(queries: seq<Query>, search: Search, e: SessionEvent)
    requires forall q | q in queries :: search(q).Some?
    ensures e in Joined(queries, search) <==> exists i: nat | i < |queries| :: e in search(queries[i]).value
  {
    if queries != [] {
      var n := |queries| - 1;
      assert forall i: nat | i < n :: queries[..n][i] == queries[i];
      assert queries[n] in queries;
      JoinedMembers(queries[..n], search, e);
    }
  }

  function AnswerOf(q: Query, search: Search): seq<SessionEvent> {
    match search(q) case None => [] case Some(events) => events
  }

  /** The events that some query matches. */
  ghost function AnyMatch(queries: seq<Query>, events: seq<SessionEvent>): set<SessionEvent> {
    set e | e in events && exists q | q in queries :: SessionStore.Matches(q, e)
  }

  /** The answers by id: what the map holds before the sort. */
  ghost function Answered(queries: seq<Query>, search: Search): set<SessionEvent> {
    ValuesOf(LastBy(IdOf, Joined(queries, search)))
  }

  lemma AnsweredMatch(events: seq<SessionEvent>, queries: seq<Query>, search: Search)
    requires AnsweredFrom(events, queries, search)
    ensures Answered(queries, search) <= AnyMatch(queries, events)
  {
    hide SessionStore.Matches, IsSearch;
    forall e | e in Answered(queries, search)
      ensures e in AnyMatch(queries, events)
    {
      JoinedMembers(queries, search, e);
      var i: nat :| i < |queries| && e in search(queries[i]).value;
      assert queries[i] in queries;
      SearchKeepsNewest(queries[i], events, search(queries[i]).value);
    }
  }

  /**
   * searchSessions answers with the newest five of all the events that any of
   * its queries matches if and only if every match that no answer brought, or
   * that another event of its id replaced, is no newer than five answered
   * events of different ids. Nothing is asked of the store.
   */
  lemma SessionsAreNewestExactly(events: seq<SessionEvent>, queries: seq<Query>, search: Search,
                                 found: seq<SessionEvent>)
    requires AnsweredFrom(events, queries, search)
    requires IsBest(NewestLe, MAX_EVIDENCE_PER_STEP, Answered(queries, search), found)
    ensures KeepsBest(NewestLe, MAX_EVIDENCE_PER_STEP, AnyMatch(queries, events), found) <==>
              forall e | e in AnyMatch(queries, events) && e !in Answered(queries, search) ::
                |NoWorse(NewestLe, Answered(queries, search), e)| >= MAX_EVIDENCE_PER_STEP
  {
    hide SessionStore.Matches, NewestLe, IsSearch, Answered, IsBest, KeepsBest, NoWorse, AnyMatch;
    NewestOrder();
    BestMeaning(NewestLe, MAX_EVIDENCE_PER_STEP, Answered(queries, search), found);
    AnsweredMatch(events, queries, search);
    MergeKeepsBestExactly(NewestLe, MAX_EVIDENCE_PER_STEP, AnyMatch(queries, events), Answered(queries, search), found);
  }

  /** No answer repeats an id, and an id means one event in all of them. */
  predicate AnswersNameEvents(queries: seq<Query>, search: Search) {
    && (forall q | q in queries :: DistinctIds(AnswerOf(q, search)))
    && (forall x, y | x in Joined(queries, search) && y in Joined(queries, search) && x.eventId == y.eventId :: x == y)
  }

  predicate DistinctIds(events: seq<SessionEvent>) {
    forall i: nat, j: nat | i < j < |events| :: events[i].eventId != events[j].eventId
  }

  /** A match that a full answer without repeated ids left out is crowded out by that answer. */
  lemma AnswerCrowds(events: seq<SessionEvent>, queries: seq<Query>, search: Search, q: Query, e: SessionEvent)
    requires AnsweredFrom(events, queries, search) && AnswersNameEvents(queries, search)
    requires q in queries && e in events && SessionStore.Matches(q, e) && e !in Answered(queries, search)
    ensures |NoWorse(NewestLe, Answered(queries, search), e)| >= MAX_EVIDENCE_PER_STEP
  {
    hide SessionStore.Matches, NewestLe, IsSearch, LastBy;
    var answer := AnswerOf(q, search);
    var answered := Answered(queries, search);
    forall x | x in answer
      ensures x in answered
    {
      AnswerIsAnswered(queries, search, q, x);
    }
    SearchFills(q, events, answer);
    DistinctSize(answer);
    assert SetOf(answer) <= NoWorse(NewestLe, answered, e);
    SubsetSize(SetOf(answer), NoWorse(NewestLe, answered, e));
  }

  lemma AnswerIsAnswered(queries: seq<Query>, search: Search, q: Query, x: SessionEvent)
    requires AnswersNameEvents(queries, search) && (forall r | r in queries :: search(r).Some?)
    requires q in queries && x in AnswerOf(q, search)
    ensures x in Answered(queries, search)
  {
    hide DistinctIds;
    var i: nat :| i < |queries| && queries[i] == q;
    JoinedMembers(queries, search, x);
    var m := LastBy(IdOf, Joined(queries, search));
    assert IdOf(x) in m && m[IdOf(x)] in Joined(queries, search) && m[IdOf(x)].eventId == x.eventId;
    assert m[IdOf(x)] == x;
  }

  /** So with answers that name events, as from a store without repeated ids, nothing newer is ever missed. */
  lemma SessionsAreNewest(events: seq<SessionEvent>, queries: seq<Query>, search: Search, found: seq<SessionEvent>)
    requires AnsweredFrom(events, queries, search) && AnswersNameEvents(queries, search)
    requires IsBest(NewestLe, MAX_EVIDENCE_PER_STEP, Answered(queries, search), found)
    ensures KeepsBest(NewestLe, MAX_EVIDENCE_PER_STEP, AnyMatch(queries, events), found)
  {
    hide SessionStore.Matches, NewestLe, AnsweredFrom, AnswersNameEvents, Answered, IsBest, KeepsBest, NoWorse;
    SessionsAreNewestExactly(events, queries, search, found);
    forall e | e in AnyMatch(queries, events) && e !in Answered(queries, search)
      ensures |NoWorse(NewestLe, Answered(queries, search), e)| >= MAX_EVIDENCE_PER_STEP
    {
      var q :| q in queries && SessionStore.Matches(q, e);
      AnswerCrowds(events, queries, search, q, e);
    }
  }

  // ---------------------------------------------------------------- a replayed event

  /** An event, and five copies of a newer one. */
  function Replayed(older: SessionEvent, newer: SessionEvent): seq<SessionEvent> {
    [older, newer, newer, newer, newer, newer]
  }

  lemma {:induction false} AllMatch(events: seq<SessionEvent>, q: Query)
    requires forall e | e in events :: SessionStore.Matches(q, e)
    ensures Matching(q, events) == events
  {
    hide SessionStore.Matches;
    if events != [] {
      var n := |events| - 1;
      assert events == events[..n] + [events[n]];
      AllMatch(events[..n], q);
    }
  }

  lemma CountedTwice<V>(s: seq<V>, i: nat, j: nat)
    requires i < j < |s| && s[i] == s[j]
    ensures multiset(s)[s[i]] >= 2
  {
    assert s == s[..i] + [s[i]] + s[i + 1..j] + [s[j]] + s[j + 1..];
  }

  lemma OlderIsLast(all: seq<SessionEvent>, older: SessionEvent, newer: SessionEvent, k: nat)
    requires Sorted(NewestLe, all) && multiset(all)[older] == 1 && k < |all| - 1 && !NewestLe(older, newer)
    requires forall e | e in all :: e == older || e == newer
    ensures all[k] == newer
  {
    hide NewestLe;
    assert all[k] in all && all[k + 1] in all;
    assert NewestLe(all[k], all[k + 1]);
    if all[k] == older && all[k + 1] == older {
      CountedTwice(all, k, k + 1);
    }
  }

  lemma ReplayedMembers(older: SessionEvent, newer: SessionEvent)
    requires older != newer
    ensures var events := Replayed(older, newer);
            |events| == 6 && multiset(events)[older] == 1 && forall e | e in events :: e == older || e == newer
  {
  }

  /** Five copies fill the answer, so the older match is not in it. */
  lemma CopiesFillAnswer(older: SessionEvent, newer: SessionEvent, q: Query, answer: seq<SessionEvent>)
    requires SessionStore.Matches(q, older) && SessionStore.Matches(q, newer)
    requires q.limit == MAX_EVIDENCE_PER_STEP && !NewestLe(older, newer) && older != newer
    requires IsSearch(q, Replayed(older, newer), answer)
    ensures |answer| == MAX_EVIDENCE_PER_STEP && forall e | e in answer :: e == newer
  {
    hide SessionStore.Matches, NewestLe, Replayed;
    var events := Replayed(older, newer);
    ReplayedMembers(older, newer);
    AllMatch(events, q);
    var all :| IsSortOf(NewestLe, Matching(q, events), all) && answer == Cut(q.limit, all);
    SameMembers(all, events);
    forall k: nat | k < 5
      ensures all[k] == newer
    {
      OlderIsLast(all, older, newer, k);
    }
  }

  /**
   * Over a store that holds one event five times, as replaying the raw log
   * leaves it, and any older match of another id, searchSessions finds the one
   * event alone and misses the other.
   */
  lemma ReplayHidesMatches(older: SessionEvent, newer: SessionEvent, q: Query, search: Search, found: seq<SessionEvent>)
    requires SessionStore.Matches(q, older) && SessionStore.Matches(q, newer)
    requires !NewestLe(older, newer) && older.eventId != newer.eventId
    requires AnsweredFrom(Replayed(older, newer), [q], search)
    requires IsBest(NewestLe, MAX_EVIDENCE_PER_STEP, Answered([q], search), found)
    ensures older in AnyMatch([q], Replayed(older, newer)) && |found| == 1 && older !in found
    ensures !KeepsBest(NewestLe, MAX_EVIDENCE_PER_STEP, AnyMatch([q], Replayed(older, newer)), found)
  {
    hide SessionStore.Matches, IsSearch, LastBy, IsBest, Answered, NewestLe;
    assert q in [q] && older in Replayed(older, newer);
    CopiesFillAnswer(older, newer, q, search(q).value);
    forall e
      ensures e in Answered([q], search) <==> e == newer
    {
      OneQueryAnswers(q, search, newer, e);
    }
    NewestOrder();
    BestMeaning(NewestLe, MAX_EVIDENCE_PER_STEP, Answered([q], search), found);
    DistinctSize(found);
    assert SetOf(found) <= {newer};
    SubsetSize(SetOf(found), {newer});
    assert newer in Answered([q], search);
  }

  lemma OneQueryAnswers(q: Query, search: Search, only: SessionEvent, e: SessionEvent)
    requires search(q).Some? && search(q).value != [] && forall x | x in search(q).value :: x == only
    ensures e in Answered([q], search) <==> e == only
  {
    var queries := [q];
    var m := LastBy(IdOf, Joined(queries, search));
    assert queries[0] == q;
    JoinedMembers(queries, search, e);
    JoinedMembers(queries, search, only);
    assert search(queries[0]).value[0] in search(queries[0]).value;
    assert only in Joined(queries, search) && IdOf(only) in m;
    JoinedMembers(queries, search, m[IdOf(only)]);
    assert m[IdOf(only)] == only;
  }

  /** Two valid events and a query of a tenant for a subscriber are such a case. */
  lemma ReplayExample()
    ensures var older, newer := SHORT_STOP.(eventId := "b"), SHORT_STOP.(occurredAt := 2);
            var q := Query("t", "bob", "", "", "", "", None, None, MAX_EVIDENCE_PER_STEP);
            && ValidSession(older) && ValidSession(newer) && older.eventId != newer.eventId && !NewestLe(older, newer)
            && SessionStore.Matches(q, older) && SessionStore.Matches(q, newer)
  {
    ShortStopIsValid();
    NotBlank("b", 0);
    assert "b"[0] != "a"[0];
    BlankTrims("");
  }

  // ---------------------------------------------------------------- combineEvidence

  const URI_DOCUMENT := "/v1/retrieve#document:"

  function HitEvidence(h: Retrieval.Hit): EvidenceRef {
    EvidenceRef("retrieval_document", h.document.documentId, h.document.source, h.document.title,
                URI_DOCUMENT + h.document.documentId, h.score)
  }

  function AccessEvidence(e: AccessEvent): EvidenceRef {
    var selector := if Blank(e.requestId) then "&subscriber_id=" + e.subscriberId
                    else "&request_id=" + TrimSpace(e.requestId);
    EvidenceRef("network_access", e.eventId, e.source, e.semanticText,
                "/v1/access-events?tenant_id=" + e.tenantId + selector, 1.0)
  }

  function SessionEvidence(e: SessionEvent): EvidenceRef {
    EvidenceRef("network_session", e.eventId, e.source, e.semanticText,
                "/v1/sessions?tenant_id=" + e.tenantId + "&session_id=" + e.sessionId, 1.0)
  }

  /** The loop of the three evidenceFrom functions. */
  method Convert<T>(convert: T -> EvidenceRef, limit: int, values: seq<T>) returns (refs: seq<EvidenceRef>)
    ensures refs == Converted(convert, Cut(limit, values))
  {
    var count := if limit <= 0 || |values| < limit then |values| else limit;
    refs := [];
    for n := 0 to count
      invariant |refs| == n && forall i: nat | i < n :: refs[i] == convert(values[i])
    {
      refs := refs + [convert(values[n])];
    }
  }

  function Converted<T>(convert: T -> EvidenceRef, values: seq<T>): (refs: seq<EvidenceRef>)
    ensures |refs| == |values| && forall i: nat | i < |refs| :: refs[i] == convert(values[i])
  {
    seq(|values|, (i: nat) requires i < |values| => convert(values[i]))
  }

  function KeyOf(ref: EvidenceRef): string {
    ref.kind + [':'] + ref.id
  }

  function StepEvidence(steps: seq<Step>): seq<EvidenceRef> {
    if steps == [] then [] else StepEvidence(steps[..|steps| - 1]) + steps[|steps| - 1].evidence
  }

  /** Every reference of a run, in the order combineEvidence comes to it. */
  function AllEvidence(steps: seq<Step>, hits: seq<Retrieval.Hit>, access: seq<AccessEvent>,
                       sessions: seq<SessionEvent>): seq<EvidenceRef> {
    StepEvidence(steps) + Converted(HitEvidence, Cut(MAX_EVIDENCE_PER_STEP, hits))
    + Converted(AccessEvidence, Cut(MAX_EVIDENCE_PER_STEP, access))
    + Converted(SessionEvidence, Cut(MAX_EVIDENCE_PER_STEP, sessions))
  }

  method CombineEvidence(steps: seq<Step>, hits: seq<Retrieval.Hit>, access: seq<AccessEvent>,
                         sessions: seq<SessionEvent>)
    returns (combined: seq<EvidenceRef>)
    ensures IsBest(EvidenceLe, MAX_EVIDENCE_PER_STEP,
            ValuesOf(LastBy(KeyOf, AllEvidence(steps, hits, access, sessions))), combined)
  {
    hide LastBy, EvidenceLe, IsBest, HitEvidence, AccessEvidence, SessionEvidence;
    NothingKept(KeyOf);
    var evidence: map<string, EvidenceRef> := map[];
    for n := 0 to |steps|
      invariant evidence == LastBy(KeyOf, StepEvidence(steps[..n]))
    {
      assert steps[..n + 1][..n] == steps[..n];
      evidence := PutAll(KeyOf, evidence, StepEvidence(steps[..n]), steps[n].evidence);
    }
    assert steps[..|steps|] == steps;
    ghost var before := StepEvidence(steps);
    var refs := Convert(HitEvidence, MAX_EVIDENCE_PER_STEP, hits);
    evidence := PutAll(KeyOf, evidence, before, refs);
    before := before + refs;
    refs := Convert(AccessEvidence, MAX_EVIDENCE_PER_STEP, access);
    evidence := PutAll(KeyOf, evidence, before, refs);
    before := before + refs;
    refs := Convert(SessionEvidence, MAX_EVIDENCE_PER_STEP, sessions);
    evidence := PutAll(KeyOf, evidence, before, refs);
    EvidenceOrder();
    combined := TakeBest(EvidenceLe, MAX_EVIDENCE_PER_STEP, KeyOf, evidence);
  }

  /** The kinds of evidence have no colon, so a key names one kind and one id. */
  lemma KeysNameEvidence(a: EvidenceRef, b: EvidenceRef)
    requires NoColon(a.kind) && NoColon(b.kind)
    ensures KeyOf(a) == KeyOf(b) <==> a.kind == b.kind && a.id == b.id
  {
    if KeyOf(a) == KeyOf(b) {
      FirstColon(a.kind, a.id, b.kind, b.id);
    }
  }

  /**
   * The summary's evidence is the best five of the run's references, each as it
   * was last made, and no kind and id twice: what is left out is left out only
   * for the limit and scores no higher than anything kept.
   */
  lemma CombinedMeaning(refs: seq<EvidenceRef>, combined: seq<EvidenceRef>)
    requires IsBest(EvidenceLe, MAX_EVIDENCE_PER_STEP, ValuesOf(LastBy(KeyOf, refs)), combined)
    ensures Sorted(EvidenceLe, combined) && |combined| <= MAX_EVIDENCE_PER_STEP
    ensures forall r | r in combined :: IsLastOfKey(KeyOf, refs, r)
    ensures forall i: nat, j: nat | i < j < |combined| :: KeyOf(combined[i]) != KeyOf(combined[j])
    ensures forall r | r in refs && IsLastOfKey(KeyOf, refs, r) && r !in combined ::
              |combined| == MAX_EVIDENCE_PER_STEP && forall c | c in combined :: c.score >= r.score
  {
    hide IsLastOfKey, IsBest;
    var values := ValuesOf(LastBy(KeyOf, refs));
    EvidenceOrder();
    BestMeaning(EvidenceLe, MAX_EVIDENCE_PER_STEP, values, combined);
    forall r
      ensures r in values <==> IsLastOfKey(KeyOf, refs, r)
    {
      LastByMeaning(KeyOf, refs, r);
    }
    forall i: nat, j: nat | i < j < |combined|
      ensures KeyOf(combined[i]) != KeyOf(combined[j])
    {
      assert combined[i] in combined && combined[j] in combined;
      assert combined[i] != combined[j];
    }
  }

  // ---------------------------------------------------------------- where a reference comes from

  predicate FromHit(h: Retrieval.Hit, r: EvidenceRef) {
    && r.kind == "retrieval_document" && r.id == h.document.documentId && r.source == h.document.source
    && r.summary == h.document.title && r.score == h.score
    && r.uri == "/v1/retrieve#document:" + h.document.documentId
  }

  predicate FromAccess(e: AccessEvent, r: EvidenceRef) {
    && r.kind == "network_access" && r.id == e.eventId && r.source == e.source && r.summary == e.semanticText
    && r.score == 1.0
    && r.uri == "/v1/access-events?tenant_id=" + e.tenantId
                + (if TrimSpace(e.requestId) == "" then "&subscriber_id=" + e.subscriberId
                   else "&request_id=" + TrimSpace(e.requestId))
  }

  predicate FromSession(e: SessionEvent, r: EvidenceRef) {
    && r.kind == "network_session" && r.id == e.eventId && r.source == e.source && r.summary == e.semanticText
    && r.score == 1.0 && r.uri == "/v1/sessions?tenant_id=" + e.tenantId + "&session_id=" + e.sessionId
  }

  function FirstFive(n: nat): nat {
    if n < 5 then n else 5
  }

  /** The references of a run in four parts: those of its steps, and of the first five hits and events. */
  ghost predicate InParts(steps: seq<Step>, hits: seq<Retrieval.Hit>, access: seq<AccessEvent>,
                          sessions: seq<SessionEvent>, refs: seq<EvidenceRef>, a: nat, b: nat, c: nat) {
    && a <= b <= c <= |refs| && refs[..a] == StepEvidence(steps)
    && b - a == FirstFive(|hits|) && c - b == FirstFive(|access|) && |refs| - c == FirstFive(|sessions|)
    && (forall i: nat | i < b - a :: FromHit(hits[i], refs[a + i]))
    && (forall i: nat | i < c - b :: FromAccess(access[i], refs[b + i]))
    && (forall i: nat | i < |refs| - c :: FromSession(sessions[i], refs[c + i]))
  }

  lemma AccessIsFrom(e: AccessEvent)
    ensures FromAccess(e, AccessEvidence(e))
  {
    hide TrimSpace, Blank;
    BlankTrims(e.requestId);
    var start := "/v1/access-events?tenant_id=" + e.tenantId;
    assert AccessEvidence(e).uri
        == start + (if Blank(e.requestId) then "&subscriber_id=" + e.subscriberId
                    else "&request_id=" + TrimSpace(e.requestId));
  }

  lemma HitIsFrom(h: Retrieval.Hit)
    ensures FromHit(h, HitEvidence(h))
  {
  }

  lemma SessionIsFrom(e: SessionEvent)
    ensures FromSession(e, SessionEvidence(e))
  {
  }

  lemma FirstFiveAre<T>(convert: T -> EvidenceRef, values: seq<T>)
    ensures var refs := Converted(convert, Cut(5, values));
            |refs| == FirstFive(|values|) && forall i: nat | i < |refs| :: refs[i] == convert(values[i])
  {
  }

  lemma AllEvidenceInParts(steps: seq<Step>, hits: seq<Retrieval.Hit>, access: seq<AccessEvent>,
                           sessions: seq<SessionEvent>) returns (a: nat, b: nat, c: nat)
    ensures InParts(steps, hits, access, sessions, AllEvidence(steps, hits, access, sessions), a, b, c)
  {
    hide StepEvidence, HitEvidence, AccessEvidence, SessionEvidence, FromHit, FromAccess, FromSession, Cut;
    FirstFiveAre(HitEvidence, hits);
    FirstFiveAre(AccessEvidence, access);
    FirstFiveAre(SessionEvidence, sessions);
    var refs := AllEvidence(steps, hits, access, sessions);
    a := |StepEvidence(steps)|;
    b := a + FirstFive(|hits|);
    c := b + FirstFive(|access|);
    forall i: nat | i < b - a
      ensures FromHit(hits[i], refs[a + i])
    {
      HitIsFrom(hits[i]);
    }
    forall i: nat | i < c - b
      ensures FromAccess(access[i], refs[b + i])
    {
      AccessIsFrom(access[i]);
    }
    forall i: nat | i < |refs| - c
      ensures FromSession(sessions[i], refs[c + i])
    {
      SessionIsFrom(sessions[i]);
    }
  }

  /** r is the reference kept under its key, and an earlier one of the list has the same key. */
  lemma KeptIsNoEarlier(refs: seq<EvidenceRef>, r: EvidenceRef, k: nat) returns (p: nat)
    requires IsLastOfKey(KeyOf, refs, r) && k < |refs| && refs[k].kind == r.kind && refs[k].id == r.id
    ensures k <= p < |refs| && refs[p] == r
  {
    p :| p < |refs| && refs[p] == r && forall j: nat | p < j < |refs| :: KeyOf(refs[j]) != KeyOf(r);
    assert KeyOf(refs[k]) == KeyOf(r);
  }

  /**
   * What the summary shows of a document or an event that the run found last is
   * made of that finding, the last one of its id, whatever the steps recorded
   * under the same kind and id.
   */
  lemma LastFindingIsShown(steps: seq<Step>, hits: seq<Retrieval.Hit>, access: seq<AccessEvent>,
                           sessions: seq<SessionEvent>, combined: seq<EvidenceRef>, r: EvidenceRef, i: nat)
    requires IsBest(EvidenceLe, MAX_EVIDENCE_PER_STEP,
                    ValuesOf(LastBy(KeyOf, AllEvidence(steps, hits, access, sessions))), combined)
    requires r in combined
    ensures r.kind == "retrieval_document" && i < FirstFive(|hits|) && hits[i].document.documentId == r.id ==>
              exists j: nat :: i <= j < FirstFive(|hits|) && FromHit(hits[j], r)
    ensures r.kind == "network_access" && i < FirstFive(|access|) && access[i].eventId == r.id ==>
              exists j: nat :: i <= j < FirstFive(|access|) && FromAccess(access[j], r)
    ensures r.kind == "network_session" && i < FirstFive(|sessions|) && sessions[i].eventId == r.id ==>
              exists j: nat :: i <= j < FirstFive(|sessions|) && FromSession(sessions[j], r)
  {
    hide IsLastOfKey, AllEvidence, LastBy, IsBest, EvidenceLe, KeyOf, StepEvidence;
    var refs := AllEvidence(steps, hits, access, sessions);
    var a, b, c := AllEvidenceInParts(steps, hits, access, sessions);
    CombinedMeaning(refs, combined);
    if r.kind == "retrieval_document" && i < FirstFive(|hits|) && hits[i].document.documentId == r.id {
      assert FromHit(hits[i], refs[a + i]);
      var p := KeptIsNoEarlier(refs, r, a + i);
      PartOfKind(steps, hits, access, sessions, refs, a, b, c, p);
      assert FromHit(hits[p - a], r);
    }
    if r.kind == "network_access" && i < FirstFive(|access|) && access[i].eventId == r.id {
      assert FromAccess(access[i], refs[b + i]);
      var p := KeptIsNoEarlier(refs, r, b + i);
      PartOfKind(steps, hits, access, sessions, refs, a, b, c, p);
      assert FromAccess(access[p - b], r);
    }
    if r.kind == "network_session" && i < FirstFive(|sessions|) && sessions[i].eventId == r.id {
      assert FromSession(sessions[i], refs[c + i]);
      var p := KeptIsNoEarlier(refs, r, c + i);
      assert FromSession(sessions[p - c], r);
    }
  }

  /** Past the steps the kind of a reference tells its part. */
  lemma PartOfKind(steps: seq<Step>, hits: seq<Retrieval.Hit>, access: seq<AccessEvent>, sessions: seq<SessionEvent>,
                   refs: seq<EvidenceRef>, a: nat, b: nat, c: nat, p: nat)
    requires InParts(steps, hits, access, sessions, refs, a, b, c) && a <= p < |refs|
    ensures refs[p].kind == "retrieval_document" ==> p < b
    ensures b <= p && refs[p].kind == "network_access" ==> p < c
  {
    hide StepEvidence;
    if b <= p < c {
      assert FromAccess(access[p - b], refs[p]);
    } else if c <= p {
      assert FromSession(sessions[p - c], refs[p]);
    }
  }

  /** A reference is shown only if a step recorded it, or one of the last findings makes it. */
  lemma ShownIsMade(steps: seq<Step>, hits: seq<Retrieval.Hit>, access: seq<AccessEvent>, sessions: seq<SessionEvent>,
                    combined: seq<EvidenceRef>, r: EvidenceRef)
    requires IsBest(EvidenceLe, MAX_EVIDENCE_PER_STEP,
                    ValuesOf(LastBy(KeyOf, AllEvidence(steps, hits, access, sessions))), combined)
    requires r in combined
    ensures || (exists step | step in steps :: r in step.evidence)
            || (exists j: nat | j < FirstFive(|hits|) :: FromHit(hits[j], r))
            || (exists j: nat | j < FirstFive(|access|) :: FromAccess(access[j], r))
            || (exists j: nat | j < FirstFive(|sessions|) :: FromSession(sessions[j], r))
  {
    hide AllEvidence, LastBy, IsBest, EvidenceLe, KeyOf, FromHit, FromAccess, FromSession;
    var refs := AllEvidence(steps, hits, access, sessions);
    var a, b, c := AllEvidenceInParts(steps, hits, access, sessions);
    CombinedMeaning(refs, combined);
    var p: nat :| p < |refs| && refs[p] == r;
    if p < a {
      assert refs[..a][p] == r;
      RecordedInStep(steps, r);
    } else if p < b {
      assert FromHit(hits[p - a], refs[a + (p - a)]);
    } else if p < c {
      assert FromAccess(access[p - b], refs[b + (p - b)]);
    } else {
      assert FromSession(sessions[p - c], refs[c + (p - c)]);
    }
  }

  lemma {:induction false} RecordedInStep(steps: seq<Step>, r: EvidenceRef)
    requires r in StepEvidence(steps)
    ensures exists step | step in steps :: r in step.evidence
  {
    var n := |steps| - 1;
    if r in steps[n].evidence {
      assert steps[n] in steps;
    } else {
      RecordedInStep(steps[..n], r);
    }
  }
}
