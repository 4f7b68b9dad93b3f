/**
 * Candidate detection of internal/agents/runtime/daemon.go: grouping short
 * sessions by subscriber and ranking the groups.
 */
module Candidates {
  import opened Wrappers
  import opened Sorting
  import opened Text
  import opened Events

  // ---------------------------------------------------------------- the short-session test

  const INT64_HALF := 0x8000_0000_0000_0000
  const SECOND := 1_000_000_000

  /** A Go conversion or multiplication in int64. */
  function WrapInt64(x: int): int {
    (x + INT64_HALF) % (2 * INT64_HALF) - INT64_HALF
  }

  /** time.Duration(seconds) * time.Second <= threshold */
  predicate ShortSession(seconds: nat, threshold: int) {
    WrapInt64(WrapInt64(seconds) * SECOND) <= threshold
  }

  /** Session times that fit the 32 bits of section 5.7 of RFC 2866 are compared exactly. */
  lemma ShortSessionFor32Bits(seconds: nat, threshold: int)
    requires seconds < 0x1_0000_0000
    ensures ShortSession(seconds, threshold) <==> seconds * SECOND <= threshold
  {
  }

  /** The comparison is right for every threshold a configuration can hold exactly when the product fits. */
  lemma ShortSessionExactly(seconds: nat)
    requires seconds < 2 * INT64_HALF
    ensures (forall threshold: int | 0 < threshold < INT64_HALF ::
               (ShortSession(seconds, threshold) <==> seconds * SECOND <= threshold))
            <==> seconds <= 9_223_372_036
  {
    if seconds > 9_223_372_036 {
      assert ShortSession(seconds, INT64_HALF - 1);
      assert !(seconds * SECOND <= INT64_HALF - 1);
    }
  }

  predicate Qualifies(e: SessionEvent, threshold: int) {
    && !Blank(e.subscriberId)
    && e.status == STATUS_STOP
    && e.sessionTimeSeconds.Some?
    && ShortSession(e.sessionTimeSeconds.value, threshold)
  }

  // ---------------------------------------------------------------- grouping

  datatype Group = Group(subscriber: string, count: nat, latest: SessionEvent)

  datatype Candidate = Candidate(
    tenantId: string,
    subscriber: string,
    count: nat,
    latest: SessionEvent,
    sessionEvents: seq<SessionEvent>,
    accessEvents: seq<AccessEvent>,
    correlated: bool)                 // the correlation summary is not blank

  /**
   * The map grouped of detectCandidates. It is read under the trimmed
   * subscriber but written back under the subscriber as it came.
   */
  function Grouped(events: seq<SessionEvent>, threshold: int): map<string, Group> {
    if events == [] then map[]
    else
      var before := Grouped(events[..|events| - 1], threshold);
      var e := events[|events| - 1];
      var id := TrimSpace(e.subscriberId);
      if !Qualifies(e, threshold) then before
      else if id !in before then before[id := Group(id, 1, e)]
      else
        var g := before[id];
        before[e.subscriberId := Group(g.subscriber, g.count + 1,
                                       if e.occurredAt > g.latest.occurredAt then e else g.latest)]
  }

  function Timeline(events: seq<SessionEvent>, id: string): seq<SessionEvent> {
    if events == [] then []
    else
      var e := events[|events| - 1];
      Timeline(events[..|events| - 1], id)
      + (if TrimSpace(e.subscriberId) == id && id != "" then [e] else [])
  }

  // ---------------------------------------------------------------- what the grouping means

  /** The qualifying events of one subscriber. */
  function Short(events: seq<SessionEvent>, id: string, threshold: int): seq<SessionEvent> {
    if events == [] then []
    else
      var e := events[|events| - 1];
      Short(events[..|events| - 1], id, threshold)
      + (if Qualifies(e, threshold) && TrimSpace(e.subscriberId) == id then [e] else [])
  }

  /** e is the first of the latest events of a list. */
  predicate IsLatestOf(list: seq<SessionEvent>, e: SessionEvent) {
    exists i: nat | i < |list| :: list[i] == e
      && (forall j: nat | j < |list| :: list[j].occurredAt <= e.occurredAt)
      && (forall j: nat | j < i :: list[j].occurredAt < e.occurredAt)
  }

  predicate GroupFits(events: seq<SessionEvent>, threshold: int, id: string, g: Group) {
    var short := Short(events, id, threshold);
    g.subscriber == id && g.count == |short| > 0 && IsLatestOf(short, g.latest)
  }

  /** One group a subscriber with a qualifying event: exact count, first latest event. */
  predicate IsGroupBy(events: seq<SessionEvent>, threshold: int, groups: map<string, Group>) {
    && (forall e | e in events && Qualifies(e, threshold) :: TrimSpace(e.subscriberId) in groups)
    && (forall id | id in groups :: GroupFits(events, threshold, id, groups[id]))
  }

  /** Past the first qualifying event of a subscriber, the others carry the id already trimmed. */
  predicate LaterIdsTrimmed(events: seq<SessionEvent>, threshold: int) {
    forall i: nat, j: nat | i < j < |events| && Qualifies(events[i], threshold) && Qualifies(events[j], threshold)
      && TrimSpace(events[i].subscriberId) == TrimSpace(events[j].subscriberId) :: Trimmed(events[j].subscriberId)
  }

  lemma {:induction false} ShortMembers(events: seq<SessionEvent>, id: string, threshold: int)
    ensures forall e :: e in Short(events, id, threshold) <==>
              e in events && Qualifies(e, threshold) && TrimSpace(e.subscriberId) == id
  {
    if events != [] {
      var n := |events| - 1;
      ShortMembers(events[..n], id, threshold);
      assert events == events[..n] + [events[n]];
    }
  }

  lemma LatestAppend(list: seq<SessionEvent>, latest: SessionEvent, e: SessionEvent)
    requires IsLatestOf(list, latest)
    ensures IsLatestOf(list + [e], if e.occurredAt > latest.occurredAt then e else latest)
  {
    var longer := list + [e];
    if e.occurredAt > latest.occurredAt {
      assert longer[|list|] == e;
    } else {
      var i: nat :| i < |list| && list[i] == latest
        && (forall j: nat | j < |list| :: list[j].occurredAt <= latest.occurredAt)
        && (forall j: nat | j < i :: list[j].occurredAt < latest.occurredAt);
      assert longer[i] == latest;
    }
  }

  lemma NoGroupNoShort(events: seq<SessionEvent>, id: string, threshold: int)
    requires forall e | e in events && Qualifies(e, threshold) :: TrimSpace(e.subscriberId) != id
    ensures Short(events, id, threshold) == []
  {
    ShortMembers(events, id, threshold);
    assert Short(events, id, threshold) != [] ==> Short(events, id, threshold)[0] in Short(events, id, threshold);
  }

  /** What one more event does to the events of a subscriber. */
  lemma ShortAppend(before: seq<SessionEvent>, e: SessionEvent, id: string, threshold: int)
    ensures Short(before + [e], id, threshold)
         == Short(before, id, threshold) + (if Qualifies(e, threshold)
             && TrimSpace(e.subscriberId) == id then [e] else [])
  {
    assert (before + [e])[..|before|] == before;
  }

  lemma GroupFitsAppend(before: seq<SessionEvent>, e: SessionEvent, threshold: int, id: string, g: Group)
    requires GroupFits(before, threshold, id, g)
    ensures !(Qualifies(e, threshold) && TrimSpace(e.subscriberId) == id) ==> GroupFits(before + [e], threshold, id, g)
    ensures Qualifies(e, threshold) && TrimSpace(e.subscriberId) == id ==>
              GroupFits(before + [e], threshold, id,
                        Group(g.subscriber, g.count + 1, if e.occurredAt > g.latest.occurredAt then e else g.latest))
  {
    hide TrimSpace, Qualifies, Short;
    ShortAppend(before, e, id, threshold);
    assert Short(before, id, threshold) + [] == Short(before, id, threshold);
    LatestAppend(Short(before, id, threshold), g.latest, e);
  }

  lemma NewGroupFits(before: seq<SessionEvent>, e: SessionEvent, threshold: int)
    requires Qualifies(e, threshold)
    requires forall f | f in before && Qualifies(f, threshold) :: TrimSpace(f.subscriberId) != TrimSpace(e.subscriberId)
    ensures GroupFits(before + [e], threshold, TrimSpace(e.subscriberId), Group(TrimSpace(e.subscriberId), 1, e))
  {
    hide TrimSpace, Qualifies, Short;
    var id := TrimSpace(e.subscriberId);
    ShortAppend(before, e, id, threshold);
    NoGroupNoShort(before, id, threshold);
    var short := Short(before + [e], id, threshold);
    assert short == [e] && short[0] == e;
  }

  lemma GroupByAppend(before: seq<SessionEvent>, e: SessionEvent, threshold: int)
    requires IsGroupBy(before, threshold, Grouped(before, threshold))
    requires Qualifies(e, threshold) && TrimSpace(e.subscriberId) in Grouped(before, threshold)
             ==> Trimmed(e.subscriberId)
    ensures IsGroupBy(before + [e], threshold, Grouped(before + [e], threshold))
  {
    hide TrimSpace, Qualifies, GroupFits;
    var groups := Grouped(before, threshold);
    var after := Grouped(before + [e], threshold);
    assert (before + [e])[..|before|] == before;
    var id := TrimSpace(e.subscriberId);
    forall k | k in after
      ensures GroupFits(before + [e], threshold, k, after[k])
    {
      if k in groups {
        GroupFitsAppend(before, e, threshold, k, groups[k]);
      } else {
        NewGroupFits(before, e, threshold);
      }
    }
  }

  lemma {:induction false} TrimmedIdsGroup(events: seq<SessionEvent>, threshold: int)
    requires LaterIdsTrimmed(events, threshold)
    ensures IsGroupBy(events, threshold, Grouped(events, threshold))
  {
    hide TrimSpace, Qualifies;
    if events != [] {
      var n := |events| - 1;
      var before := events[..n];
      var e := events[n];
      assert forall k: nat | k < n :: before[k] == events[k];
      assert events == before + [e];
      TrimmedIdsGroup(before, threshold);
      var id := TrimSpace(e.subscriberId);
      if Qualifies(e, threshold) && id in Grouped(before, threshold) {
        var short := Short(before, id, threshold);
        ShortMembers(before, id, threshold);
        assert GroupFits(before, threshold, id, Grouped(before, threshold)[id]);
        assert short[0] in before;
        var i: nat :| i < n && before[i] == short[0];
        assert events[i] == short[0];
      }
      GroupByAppend(before, e, threshold);
    }
  }

  lemma {:induction false} TrimmedKeyGrouped(events: seq<SessionEvent>, e: SessionEvent, threshold: int)
    requires e in events && Qualifies(e, threshold)
    ensures TrimSpace(e.subscriberId) in Grouped(events, threshold)
  {
    var n := |events| - 1;
    assert events == events[..n] + [events[n]];
    if e in events[..n] {
      TrimmedKeyGrouped(events[..n], e, threshold);
    }
  }

  /** A later event of a subscriber leaves a group under its id as it came. */
  lemma {:induction false} RawKeyGrouped(events: seq<SessionEvent>, i: nat, j: nat, threshold: int)
    requires i < j < |events| && Qualifies(events[i], threshold) && Qualifies(events[j], threshold)
    requires TrimSpace(events[i].subscriberId) == TrimSpace(events[j].subscriberId)
    ensures events[j].subscriberId in Grouped(events, threshold)
  {
    var n := |events| - 1;
    if j < n {
      RawKeyGrouped(events[..n], i, j, threshold);
    } else {
      assert events[i] == events[..n][i];
      TrimmedKeyGrouped(events[..n], events[i], threshold);
    }
  }

  /**
   * detectCandidates groups correctly if and only if, past the first qualifying
   * event of each subscriber, ids come without outer spaces.
   */
  lemma GroupingExactly(events: seq<SessionEvent>, threshold: int)
    ensures IsGroupBy(events, threshold, Grouped(events, threshold)) <==> LaterIdsTrimmed(events, threshold)
  {
    if LaterIdsTrimmed(events, threshold) {
      TrimmedIdsGroup(events, threshold);
    }
    var groups := Grouped(events, threshold);
    if IsGroupBy(events, threshold, groups) {
      forall i: nat, j: nat | i < j < |events| && Qualifies(events[i], threshold) && Qualifies(events[j], threshold)
        && TrimSpace(events[i].subscriberId) == TrimSpace(events[j].subscriberId)
        ensures Trimmed(events[j].subscriberId)
      {
        RawKeyGrouped(events, i, j, threshold);
        var raw := events[j].subscriberId;
        assert GroupFits(events, threshold, raw, groups[raw]);
        var short := Short(events, raw, threshold);
        ShortMembers(events, raw, threshold);
        assert short[0] in short;
        TrimTrim(IsSpace, short[0].subscriberId);
      }
    }
  }

  const SHORT_STOP := SessionEvent("a", "r", "radius", "k", "v", "session", "t", 1, 1, "bob", "s", STATUS_STOP, "", "",
                                 Some(1), [], "stop", map[])

  lemma ShortStopIsValid()
    ensures ValidSession(SHORT_STOP)
  {
    NotBlank("a", 0);
    NotBlank("r", 0);
    NotBlank("radius", 0);
    NotBlank("k", 0);
    NotBlank("v", 0);
    NotBlank("session", 0);
    NotBlank("t", 0);
    NotBlank("bob", 0);
    NotBlank("s", 0);
    NotBlank("stop", 0);
  }

  /** Two valid events of bob, the second with a space: two groups, and the first one's count is short. */
  lemma SpacedIdSplitsGroup()
    ensures var events := [SHORT_STOP, SHORT_STOP.(eventId := "b", subscriberId := " bob")];
            var groups := Grouped(events, SECOND);
            && (forall e | e in events :: ValidSession(e))
            && "bob" in groups && " bob" in groups && groups["bob"].count == 1 && |Short(events, "bob", SECOND)| == 2
  {
    ShortStopIsValid();
    NotBlank("b", 0);
    NotBlank(" bob", 1);
    var second := SHORT_STOP.(eventId := "b", subscriberId := " bob");
    var events := [SHORT_STOP, second];
    assert events[..1] == [SHORT_STOP] && events[..1][..0] == [];
    assert TrimSpace("bob") == "bob" by {
      TrimBare(IsSpace, "bob");
    }
    assert TrimSpace(" bob") == "bob" by {
      assert " bob"[1..] == "bob";
    }
    assert !IsSpace("bob"[0]) && !IsSpace(" bob"[1]);
    assert Grouped([SHORT_STOP], SECOND) == map["bob" := Group("bob", 1, SHORT_STOP)];
    assert |Short([SHORT_STOP], "bob", SECOND)| == 1;
  }

  // ---------------------------------------------------------------- ranking

  /** The comparison of sortCandidates: left goes first, or nothing tells the two apart. */
  predicate CandidateLe(a: Candidate, b: Candidate) {
    if a.correlated != b.correlated then a.correlated
    else
      var aHas, bHas := |a.accessEvents| > 0, |b.accessEvents| > 0;
      if aHas != bHas then aHas
      else if a.count != b.count then a.count > b.count
      else if a.latest.occurredAt == b.latest.occurredAt then StringLe(a.subscriber, b.subscriber)
      else a.latest.occurredAt > b.latest.occurredAt
  }

  lemma CandidateOrder()
    ensures TotalPreorder(CandidateLe)
  {
    forall a: Candidate, b: Candidate
      ensures CandidateLe(a, b) || CandidateLe(b, a)
    {
      StringLeTotal(a.subscriber, b.subscriber);
    }
    forall a: Candidate, b: Candidate, c: Candidate | CandidateLe(a, b) && CandidateLe(b, c)
      ensures CandidateLe(a, c)
    {
      if StringLe(a.subscriber, b.subscriber) && StringLe(b.subscriber, c.subscriber) {
        StringLeTransitive(a.subscriber, b.subscriber, c.subscriber);
      }
    }
  }

  predicate DistinctSubscribers(list: seq<Candidate>) {
    forall i: nat, j: nat | i < j < |list| :: list[i].subscriber != list[j].subscriber
  }

  /** On distinct subscribers the ranking is unique: the range over the map leaves no trace. */
  lemma RankingUnique(a: seq<Candidate>, b: seq<Candidate>)
    requires Sorted(CandidateLe, a) && Sorted(CandidateLe, b) && multiset(a) == multiset(b)
    requires DistinctSubscribers(a)
    ensures a == b
  {
    CandidateOrder();
    forall x: Candidate, y: Candidate | x in a && y in a && Equivalent(CandidateLe, x, y)
      ensures x == y
    {
      StringLeAntisymmetric(x.subscriber, y.subscriber);
    }
    SortUnique(CandidateLe, a, b);
  }

  function CandidateOf(tenantId: string, events: seq<SessionEvent>, g: Group): Candidate {
    Candidate(tenantId, g.subscriber, g.count, g.latest, Timeline(events, g.subscriber), [], false)
  }

  /** The candidates of a map of groups, one a key, unranked. */
  ghost predicate ListsGroups(tenantId: string, events: seq<SessionEvent>, minEvents: int,
                              groups: map<string, Group>, list: seq<Candidate>) {
    exists keys: seq<string> :: ListedBy(tenantId, events, minEvents, groups, keys, list)
  }

  ghost predicate IsDetected(tenantId: string, events: seq<SessionEvent>, threshold: int, minEvents: int,
                             list: seq<Candidate>) {
    && Sorted(CandidateLe, list)
    && exists unranked: seq<Candidate> ::
         ListsGroups(tenantId, events, minEvents, Grouped(events, threshold), unranked)
         && multiset(unranked) == multiset(list)
  }

  method DetectCandidates(tenantId: string, events: seq<SessionEvent>, threshold: int, minEvents: int)
    returns (candidates: seq<Candidate>)
    ensures IsDetected(tenantId, events, threshold, minEvents, candidates)
  {
    var grouped, timelines := GroupEvents(events, threshold);
    var unranked := ListGroups(tenantId, events, minEvents, grouped, timelines);
    CandidateOrder();
    SortIsSort(CandidateLe, unranked);
    candidates := Sort(CandidateLe, unranked);
  }

  /** The loop over the events. */
  method GroupEvents(events: seq<SessionEvent>, threshold: int)
    returns (grouped: map<string, Group>, timelines: map<string, seq<SessionEvent>>)
    ensures grouped == Grouped(events, threshold)
    ensures TimelinesOf(events, timelines)
  {
    grouped, timelines := map[], map[];
    for n := 0 to |events|
      invariant grouped == Grouped(events[..n], threshold)
      invariant TimelinesOf(events[..n], timelines)
    {
      var event := events[n];
      assert events[..n + 1] == events[..n] + [event];
      TimelinesGrow(events[..n], event, timelines);
      GroupedGrows(events[..n], event, threshold);
      var id := TrimSpace(event.subscriberId);
      if id == "" {
        continue;
      }
      timelines := timelines[id := (if id in timelines then timelines[id] else []) + [event]];
      if !Qualifies(event, threshold) {
        continue;
      }
      if id !in grouped {
        grouped := grouped[id := Group(id, 1, event)];
        continue;
      }
      var existing := grouped[id];
      existing := existing.(count := existing.count + 1);
      if event.occurredAt > existing.latest.occurredAt {
        existing := existing.(latest := event);
      }
      grouped := grouped[event.subscriberId := existing];
    }
    assert events[..|events|] == events;
  }

  lemma GroupedGrows(before: seq<SessionEvent>, e: SessionEvent, threshold: int)
    ensures var g := Grouped(before, threshold);
            var id := TrimSpace(e.subscriberId);
            && (id == "" || !Qualifies(e, threshold) ==> Grouped(before + [e], threshold) == g)
            && (Qualifies(e, threshold) && id !in g ==> Grouped(before + [e], threshold) == g[id := Group(id, 1, e)])
            && (Qualifies(e, threshold) && id in g ==>
                  Grouped(before + [e], threshold) ==
                  g[e.subscriberId := Group(g[id].subscriber, g[id].count + 1,
                                            if e.occurredAt > g[id].latest.occurredAt then e else g[id].latest)])
  {
    BlankTrims(e.subscriberId);
    assert (before + [e])[..|before|] == before;
  }

  ghost predicate TimelinesOf(events: seq<SessionEvent>, timelines: map<string, seq<SessionEvent>>) {
    forall id :: Timeline(events, id) == (if id in timelines then timelines[id] else [])
  }

  lemma TimelinesGrow(before: seq<SessionEvent>, e: SessionEvent, timelines: map<string, seq<SessionEvent>>)
    requires TimelinesOf(before, timelines)
    ensures var id := TrimSpace(e.subscriberId);
            TimelinesOf(before + [e],
              if id == "" then timelines
              else timelines[id := (if id in timelines then timelines[id] else []) + [e]])
  {
    assert (before + [e])[..|before|] == before;
    forall id
      ensures Timeline(before + [e], id)
           == Timeline(before, id) + (if TrimSpace(e.subscriberId) == id && id != "" then [e] else [])
    {
    }
  }

  /** The range over grouped, in any order. */
  method ListGroups(tenantId: string, events: seq<SessionEvent>, minEvents: int,
                    grouped: map<string, Group>, timelines: map<string, seq<SessionEvent>>)
    returns (list: seq<Candidate>)
    requires TimelinesOf(events, timelines)
    ensures ListsGroups(tenantId, events, minEvents, grouped, list)
  {
    list := [];
    ghost var keys: seq<string> := [];
    var left := grouped.Keys;
    while left != {}
      invariant left <= grouped.Keys
      invariant multiset(keys) == multiset(set k | k in grouped && k !in left && grouped[k].count >= minEvents)
      invariant |list| == |keys|
      invariant forall i: nat | i < |list| ::
                  keys[i] in grouped && list[i] == CandidateOf(tenantId, events, grouped[keys[i]])
      decreases left
    {
      var key :| key in left;
      ghost var seen := set k | k in grouped && k !in left && grouped[k].count >= minEvents;
      ghost var seen' := set k | k in grouped && k !in left - {key} && grouped[k].count >= minEvents;
      assert seen' == if grouped[key].count >= minEvents then seen + {key} else seen;
      left := left - {key};
      var g := grouped[key];
      if g.count < minEvents {
        continue;
      }
      var timeline := if g.subscriber in timelines then timelines[g.subscriber] else [];
      list := list + [Candidate(tenantId, g.subscriber, g.count, g.latest, timeline, [], false)];
      keys := keys + [key];
    }
    assert (set k | k in grouped && k !in left && grouped[k].count >= minEvents)
        == (set k | k in grouped && grouped[k].count >= minEvents);
    assert ListedBy(tenantId, events, minEvents, grouped, keys, list);
  }

  ghost predicate ListedBy(tenantId: string, events: seq<SessionEvent>, minEvents: int,
                           groups: map<string, Group>, keys: seq<string>, list: seq<Candidate>) {
    && multiset(keys) == multiset(set k | k in groups && groups[k].count >= minEvents)
    && |list| == |keys|
    && forall i: nat | i < |list| :: keys[i] in groups && list[i] == CandidateOf(tenantId, events, groups[keys[i]])
  }

  /** An exact candidate: every qualifying event counted, the latest one found, the timeline whole. */
  predicate IsExact(tenantId: string, events: seq<SessionEvent>, threshold: int, minEvents: int, c: Candidate) {
    var short := Short(events, c.subscriber, threshold);
    && c.tenantId == tenantId && c.count == |short| >= minEvents && IsLatestOf(short, c.latest)
    && c.sessionEvents == Timeline(events, c.subscriber) && c.accessEvents == [] && !c.correlated
  }

  lemma ListedKeys(tenantId: string, events: seq<SessionEvent>, minEvents: int,
                   groups: map<string, Group>, keys: seq<string>, list: seq<Candidate>)
    requires ListedBy(tenantId, events, minEvents, groups, keys, list)
    ensures forall k :: k in keys <==> k in groups && groups[k].count >= minEvents
    ensures forall i: nat, j: nat | i < j < |keys| :: keys[i] != keys[j]
  {
    var wanted := set k | k in groups && groups[k].count >= minEvents;
    assert forall k :: k in keys <==> k in multiset(keys);
    forall i: nat, j: nat | i < j < |keys|
      ensures keys[i] != keys[j]
    {
      DistinctPositions(keys, wanted, i, j);
    }
  }

  lemma ListedMeaning(tenantId: string, events: seq<SessionEvent>, threshold: int, minEvents: int,
                      keys: seq<string>, list: seq<Candidate>)
    requires ListedBy(tenantId, events, minEvents, Grouped(events, threshold), keys, list)
    requires IsGroupBy(events, threshold, Grouped(events, threshold))
    ensures DistinctSubscribers(list)
    ensures forall c | c in list :: IsExact(tenantId, events, threshold, minEvents, c)
  {
    var groups := Grouped(events, threshold);
    ListedKeys(tenantId, events, minEvents, groups, keys, list);
    forall i: nat | i < |list|
      ensures list[i].subscriber == keys[i] && IsExact(tenantId, events, threshold, minEvents, list[i])
    {
      assert keys[i] in keys;
      assert GroupFits(events, threshold, keys[i], groups[keys[i]]);
    }
  }

  lemma ListedComplete(tenantId: string, events: seq<SessionEvent>, threshold: int, minEvents: int,
                       keys: seq<string>, list: seq<Candidate>, id: string)
    requires ListedBy(tenantId, events, minEvents, Grouped(events, threshold), keys, list)
    requires IsGroupBy(events, threshold, Grouped(events, threshold))
    requires |Short(events, id, threshold)| >= minEvents > 0
    ensures exists c | c in list :: c.subscriber == id
  {
    var groups := Grouped(events, threshold);
    ListedKeys(tenantId, events, minEvents, groups, keys, list);
    ShortMembers(events, id, threshold);
    assert Short(events, id, threshold)[0] in Short(events, id, threshold);
    assert GroupFits(events, threshold, id, groups[id]);
    assert id in keys;
    var i: nat :| i < |keys| && keys[i] == id;
    assert list[i] in list && list[i].subscriber == id;
  }

  /**
   * With trimmed ids the candidates are exactly the subscribers with MinEvents
   * qualifying events, each once, with its exact count, its latest event and
   * its whole timeline.
   */
  lemma DetectedMeaning(tenantId: string, events: seq<SessionEvent>, threshold: int, minEvents: int,
                        list: seq<Candidate>)
    requires IsDetected(tenantId, events, threshold, minEvents, list) && LaterIdsTrimmed(events, threshold)
    requires minEvents > 0
    ensures DistinctSubscribers(list)
    ensures forall c | c in list :: IsExact(tenantId, events, threshold, minEvents, c)
    ensures forall id: string | |Short(events, id, threshold)| >= minEvents ::
              exists c | c in list :: c.subscriber == id
  {
    TrimmedIdsGroup(events, threshold);
    var unranked: seq<Candidate> :|
      ListsGroups(tenantId, events, minEvents, Grouped(events, threshold), unranked)
          && multiset(unranked) == multiset(list);
    var keys: seq<string> :| ListedBy(tenantId, events, minEvents, Grouped(events, threshold), keys, unranked);
    ListedMeaning(tenantId, events, threshold, minEvents, keys, unranked);
    SameMembers(unranked, list);
    PermutedDistinct(unranked, list);
    forall id: string | |Short(events, id, threshold)| >= minEvents
      ensures exists c | c in list :: c.subscriber == id
    {
      ListedComplete(tenantId, events, threshold, minEvents, keys, unranked, id);
    }
  }

  /** Whatever order the maps were ranged over in, the same events give the same ranked list. */
  lemma DetectedUnique(tenantId: string, events: seq<SessionEvent>, threshold: int, minEvents: int,
                       a: seq<Candidate>, b: seq<Candidate>)
    requires IsDetected(tenantId, events, threshold, minEvents, a)
            && IsDetected(tenantId, events, threshold, minEvents, b)
    requires LaterIdsTrimmed(events, threshold) && minEvents > 0
    ensures a == b
  {
    hide IsExact, LaterIdsTrimmed, Short;
    DetectedMeaning(tenantId, events, threshold, minEvents, a);
    DetectedMeaning(tenantId, events, threshold, minEvents, b);
    DetectedSubset(tenantId, events, threshold, minEvents, a, b);
    DetectedSubset(tenantId, events, threshold, minEvents, b, a);
    DistinctPermuted(a, b);
    RankingUnique(a, b);
  }

  lemma DetectedSubset(tenantId: string, events: seq<SessionEvent>, threshold: int, minEvents: int,
                       a: seq<Candidate>, b: seq<Candidate>)
    requires forall c | c in a :: IsExact(tenantId, events, threshold, minEvents, c)
    requires forall c | c in b :: IsExact(tenantId, events, threshold, minEvents, c)
    requires forall id: string | |Short(events, id, threshold)| >= minEvents :: exists c | c in b :: c.subscriber == id
    ensures forall c | c in a :: c in b
  {
    forall c | c in a
      ensures c in b
    {
      assert |Short(events, c.subscriber, threshold)| >= minEvents;
      var d :| d in b && d.subscriber == c.subscriber;
      LatestUnique(Short(events, c.subscriber, threshold), c.latest, d.latest);
      assert c == d;
    }
  }

  lemma LatestUnique(list: seq<SessionEvent>, x: SessionEvent, y: SessionEvent)
    requires IsLatestOf(list, x) && IsLatestOf(list, y)
    ensures x == y
  {
  }

  lemma DistinctPermuted(a: seq<Candidate>, b: seq<Candidate>)
    requires DistinctSubscribers(a) && DistinctSubscribers(b) && forall c :: c in a <==> c in b
    ensures multiset(a) == multiset(b)
  {
    forall c
      ensures multiset(a)[c] == multiset(b)[c]
    {
      OnceIn(a, c);
      OnceIn(b, c);
      assert c in multiset(a) <==> c in a;
      assert c in multiset(b) <==> c in b;
    }
  }

  lemma PermutedDistinct(a: seq<Candidate>, b: seq<Candidate>)
    requires DistinctSubscribers(a) && multiset(a) == multiset(b)
    ensures DistinctSubscribers(b)
  {
    SameMembers(a, b);
    forall i: nat, j: nat | i < j < |b|
      ensures b[i].subscriber != b[j].subscriber
    {
      assert b[i] in a && b[j] in a;
      if b[i] == b[j] {
        TwiceInA(a, b, i, j);
      }
    }
  }

  lemma TwiceInA(a: seq<Candidate>, b: seq<Candidate>, i: nat, j: nat)
    requires multiset(a) == multiset(b) && i < j < |b|
    requires DistinctSubscribers(a)
    ensures b[i] != b[j]
  {
    assert b == b[..i] + [b[i]] + b[i + 1..j] + [b[j]] + b[j + 1..];
    if b[i] == b[j] {
      assert multiset(b)[b[i]] >= 2;
      OnceIn(a, b[i]);
    }
  }

  lemma {:induction false} OnceIn(a: seq<Candidate>, c: Candidate)
    requires DistinctSubscribers(a)
    ensures multiset(a)[c] <= 1
  {
    if a != [] {
      OnceIn(a[1..], c);
      assert a == [a[0]] + a[1..];
      assert c in a[1..] <==> c in multiset(a[1..]);
    }
  }
}
