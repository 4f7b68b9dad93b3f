/**
 * RunCycle of internal/agents/runtime/daemon.go, over a session store and a
 * checkpoint store, with every failure of a search, of the access service, of
 * the checkpoint store or of the harness chosen by an environment.
 */
module Daemon {
  import opened Wrappers
  import opened Sorting
  import opened Text
  import opened Times
  import opened Events
  import SessionStore
  import Timelines = Timeline
  import opened Candidates
  import WatcherStore
  import opened Checkpoints
  import opened Grounds
  import opened Progress

  // ---------------------------------------------------------------- keys

  const WATCHER_NAME := "repeated-short-session-disconnects"

  predicate IsKeyChar(c: char) {
    'a' <= c <= 'z' || IsDigit(c) || c == '-' || c == '_' || c == '.'
  }

  function SanitizePart(value: string): string {
    Sanitize(IsKeyChar, value)
  }

  function JoinColon(parts: seq<string>): string {
    if parts == [] then "" else if |parts| == 1 then parts[0] else parts[0] + [':'] + JoinColon(parts[1..])
  }

  function WatcherStateKey(tenant: string, subscriber: string): string {
    JoinColon(["watcher-state", SanitizePart(WATCHER_NAME), SanitizePart(tenant), SanitizePart(subscriber)])
  }

  lemma SanitizedHasNoColon(value: string)
    ensures NoColon(SanitizePart(value))
  {
    SanitizedChars(IsKeyChar, value);
  }

  /**
   * The key of a subscriber: two fixed parts, then tenant and subscriber in
   * lower case with dashes for everything but letters, digits and - _ . inside.
   */
  lemma KeyMeaning(tenant: string, subscriber: string)
    ensures WatcherStateKey(tenant, subscriber)
         == "watcher-state" + [':'] + ("repeated-short-session-disconnects" + [':']
            + (SanitizePart(tenant) + [':'] + SanitizePart(subscriber)))
    ensures Sanitized(IsKeyChar, tenant, SanitizePart(tenant))
    ensures Sanitized(IsKeyChar, subscriber, SanitizePart(subscriber))
  {
    hide Sanitize, Sanitized, JoinColon, WatcherStateKey;
    SanitizeMeaning(IsKeyChar, tenant);
    SanitizeMeaning(IsKeyChar, subscriber);
    NameIsClean();
    KeyJoins(tenant, subscriber);
  }

  lemma KeyJoins(tenant: string, subscriber: string)
    ensures WatcherStateKey(tenant, subscriber)
         == "watcher-state" + [':'] + (SanitizePart(WATCHER_NAME) + [':']
            + (SanitizePart(tenant) + [':'] + SanitizePart(subscriber)))
  {
    hide SanitizePart, JoinColon;
    JoinFour("watcher-state", SanitizePart(WATCHER_NAME), SanitizePart(tenant), SanitizePart(subscriber));
  }

  lemma KeyCharacters(c: char)
    ensures IsKeyChar(c) <==> 97 <= c as int <= 122 || 48 <= c as int <= 57 || c in {'-', '_', '.'}
  {
  }

  lemma NameIsClean()
    ensures SanitizePart(WATCHER_NAME) == WATCHER_NAME
  {
    var name := WATCHER_NAME;
    assert forall i: nat | i < |name| :: IsKeyChar(name[i]) && !IsSpace(name[i]);
    assert Lower(name) == name;
    TrimBare(IsSpace, name);
    assert ReplaceOthers(IsKeyChar, name) == name;
    TrimBare(IsDash, name);
  }

  /** Two subscribers share a key exactly when both parts sanitize to the same text. */
  lemma KeysCollideExactly(t1: string, s1: string, t2: string, s2: string)
    ensures WatcherStateKey(t1, s1) == WatcherStateKey(t2, s2) <==>
              SanitizePart(t1) == SanitizePart(t2) && SanitizePart(s1) == SanitizePart(s2)
  {
    var p, w := "watcher-state", SanitizePart(WATCHER_NAME);
    JoinFour(p, w, SanitizePart(t1), SanitizePart(s1));
    JoinFour(p, w, SanitizePart(t2), SanitizePart(s2));
    if WatcherStateKey(t1, s1) == WatcherStateKey(t2, s2) {
      SanitizedHasNoColon(WATCHER_NAME);
      SanitizedHasNoColon(t1);
      SanitizedHasNoColon(t2);
      var x1 := SanitizePart(t1) + [':'] + SanitizePart(s1);
      var x2 := SanitizePart(t2) + [':'] + SanitizePart(s2);
      FirstColon(p, w + [':'] + x1, p, w + [':'] + x2);
      FirstColon(w, x1, w, x2);
      FirstColon(SanitizePart(t1), SanitizePart(s1), SanitizePart(t2), SanitizePart(s2));
    }
  }

  lemma JoinFour(a: string, b: string, c: string, d: string)
    ensures JoinColon([a, b, c, d]) == a + [':'] + (b + [':'] + (c + [':'] + d))
  {
    assert [a, b, c, d][1..] == [b, c, d];
    assert [b, c, d][1..] == [c, d];
    assert [c, d][1..] == [d];
    assert JoinColon([c, d]) == c + [':'] + d;
    assert JoinColon([b, c, d]) == b + [':'] + (c + [':'] + d);
  }

  /** Keys are never blank and never carry outer spaces, as the stores need. */
  lemma KeysAreGood(cfg: Config)
    requires forall t: string, s: string :: cfg.keyOf(t, s) == WatcherStateKey(t, s)
    ensures GoodKeys(cfg)
  {
    forall t: string, s: string
      ensures !Blank(cfg.keyOf(t, s)) && Trimmed(cfg.keyOf(t, s))
    {
      var d := SanitizePart(s);
      JoinFour("watcher-state", SanitizePart(WATCHER_NAME), SanitizePart(t), d);
      var key := WatcherStateKey(t, s);
      assert key[0] == 'w';
      assert key[|key| - 1] == if d == "" then ':' else d[|d| - 1];
      if d != "" {
        SanitizedChars(IsKeyChar, s);
      }
      TrimBare(IsSpace, key);
      NotBlank(key, 0);
    }
  }

  // ---------------------------------------------------------------- the environment of a cycle

  datatype CycleEnv = CycleEnv(
    arrivals: string -> seq<SessionEvent>,   // appended to the store before the tenant's search
    searchUp: string -> bool,
    accessService: bool,
    access: (string, string) -> Option<seq<AccessEvent>>,
    getUp: (string, string) -> bool,
    run: (string, string) -> RunAnswer,
    putUp: (string, string) -> bool)

  // ---------------------------------------------------------------- enrichment

  function EnrichOne(env: CycleEnv, c: Candidate): Candidate {
    match env.access(c.tenantId, c.subscriber)
    case None => c
    case Some(events) =>
      c.(accessEvents := events, correlated := Timelines.HasFinding(events, c.sessionEvents))
  }

  ghost predicate EnrichedInPlace(env: CycleEnv, before: seq<Candidate>, after: seq<Candidate>) {
    |after| == |before| && forall i: nat | i < |before| :: after[i] == EnrichOne(env, before[i])
  }

  ghost predicate IsEnriched(env: CycleEnv, before: seq<Candidate>, after: seq<Candidate>) {
    if !env.accessService || before == [] then after == before
    else exists mid: seq<Candidate> :: EnrichedInPlace(env, before, mid) && IsSortOf(CandidateLe, mid, after)
  }

  /** Some candidate's access search fails. */
  predicate LookupFails(env: CycleEnv, candidates: seq<Candidate>) {
    env.accessService && exists c | c in candidates :: env.access(c.tenantId, c.subscriber).None?
  }

  method Enrich(env: CycleEnv, candidates: seq<Candidate>) returns (enriched: seq<Candidate>, errors: nat)
    ensures IsEnriched(env, candidates, enriched)
    ensures errors > 0 <==> LookupFails(env, candidates)
  {
    hide CandidateLe;
    errors := 0;
    if !env.accessService || candidates == [] {
      return candidates, 0;
    }
    enriched := candidates;
    for n := 0 to |candidates|
      invariant |enriched| == |candidates|
      invariant errors > 0 <==> exists k: nat | k < n ::
              env.access(candidates[k].tenantId, candidates[k].subscriber).None?
      invariant forall i: nat | i < n :: enriched[i] == EnrichOne(env, candidates[i])
      invariant forall i: nat | n <= i < |candidates| :: enriched[i] == candidates[i]
    {
      var c := enriched[n];
      var events := env.access(c.tenantId, c.subscriber);
      if events.None? {
        errors := errors + 1;
        continue;
      }
      var finding := Timelines.Correlate(events.value, c.sessionEvents);
      enriched := enriched[n := c.(accessEvents := events.value, correlated := !finding.NoFinding?)];
    }
    assert EnrichedInPlace(env, candidates, enriched);
    CandidateOrder();
    SortIsSort(CandidateLe, enriched);
    enriched := Sort(CandidateLe, enriched);
  }

  /** The same candidate before and after its access events are looked up. */
  predicate SameFinding(b: Candidate, c: Candidate) {
    b == c.(accessEvents := b.accessEvents, correlated := b.correlated)
  }

  /** Enriching re-ranks the candidates; it keeps who they are and what they found. */
  lemma EnrichedKeeps(env: CycleEnv, before: seq<Candidate>, after: seq<Candidate>)
    requires IsEnriched(env, before, after) && DistinctSubscribers(before)
    ensures DistinctSubscribers(after)
    ensures |after| == |before|
    ensures forall c | c in after :: exists b | b in before :: SameFinding(b, c)
  {
    if env.accessService && before != [] {
      var mid: seq<Candidate> :| EnrichedInPlace(env, before, mid) && IsSortOf(CandidateLe, mid, after);
      PermutedDistinct(mid, after);
      SameMembers(mid, after);
      forall c | c in after
        ensures exists b | b in before :: SameFinding(b, c)
      {
        var i: nat :| i < |mid| && mid[i] == c;
        assert before[i] in before && SameFinding(before[i], c);
      }
    } else {
      assert forall c :: SameFinding(c, c);
    }
  }

  /** The ranking after enriching is determined by the candidates and the access answers. */
  lemma EnrichedUnique(env: CycleEnv, before: seq<Candidate>, a: seq<Candidate>, b: seq<Candidate>)
    requires IsEnriched(env, before, a) && IsEnriched(env, before, b) && DistinctSubscribers(before)
    ensures a == b
  {
    if env.accessService && before != [] {
      var x: seq<Candidate> :| EnrichedInPlace(env, before, x) && IsSortOf(CandidateLe, x, a);
      var y: seq<Candidate> :| EnrichedInPlace(env, before, y) && IsSortOf(CandidateLe, y, b);
      assert x == y;
      PermutedDistinct(x, a);
      RankingUnique(a, b);
    }
  }

  lemma SameLookups(env: CycleEnv, before: seq<Candidate>, after: seq<Candidate>)
    requires IsEnriched(env, before, after)
    ensures LookupFails(env, after) <==> LookupFails(env, before)
  {
    if env.accessService && before != [] {
      var mid: seq<Candidate> :| EnrichedInPlace(env, before, mid) && IsSortOf(CandidateLe, mid, after);
      SameMembers(mid, after);
      if LookupFails(env, before) {
        var i: nat :| i < |before| && env.access(before[i].tenantId, before[i].subscriber).None?;
        assert mid[i] in mid;
      }
      if LookupFails(env, after) {
        var c :| c in after && env.access(c.tenantId, c.subscriber).None?;
        var i: nat :| i < |mid| && mid[i] == c;
        assert before[i] in before;
      }
    }
  }

  // ---------------------------------------------------------------- one tenant

  function VisitOf(now: Time, tenant: string, events: seq<SessionEvent>, results: seq<SessionEvent>,
                   env: CycleEnv, c: Candidate): Visit {
    Visit(now, tenant, events, results, c,
          Answers(env.getUp(tenant, c.subscriber), env.run(tenant, c.subscriber), env.putUp(tenant, c.subscriber)))
  }

  function VisitsOf(now: Time, tenant: string, events: seq<SessionEvent>, results: seq<SessionEvent>,
                    env: CycleEnv, cands: seq<Candidate>): (vs: seq<Visit>)
    ensures |vs| == |cands| && forall i: nat | i < |vs| :: vs[i] == VisitOf(now, tenant, events, results, env, cands[i])
  {
    seq(|cands|, (i: nat) requires i < |cands| => VisitOf(now, tenant, events, results, env, cands[i]))
  }

  /** The ranked candidates of a tenant at a time. */
  ghost predicate IsRanked(cfg: Config, tenant: string, results: seq<SessionEvent>, env: CycleEnv,
                           cands: seq<Candidate>) {
    exists detected: seq<Candidate> ::
      IsDetected(tenant, results, cfg.threshold, cfg.minEvents, detected) && IsEnriched(env, detected, cands)
  }

  /** vs are the visits a cycle would make of all the candidates of a tenant. */
  ghost predicate IsTurn(cfg: Config, now: Time, tenant: string, events: seq<SessionEvent>, env: CycleEnv,
                         vs: seq<Visit>) {
    exists results: seq<SessionEvent>, cands: seq<Candidate> ::
      && SessionStore.IsSearch(SearchQuery(cfg, tenant, now), events, results)
      && IsRanked(cfg, tenant, results, env, cands)
      && vs == VisitsOf(now, tenant, events, results, env, cands)
  }

  predicate TrimmedIds(events: seq<SessionEvent>) {
    forall e | e in events :: Trimmed(e.subscriberId)
  }

  /** The visits of a turn are all of one tenant, time and store. */
  predicate Stamped(now: Time, tenant: string, events: seq<SessionEvent>, vs: seq<Visit>) {
    forall i: nat | i < |vs| :: vs[i].now == now && vs[i].tenant == tenant && vs[i].events == events
  }

  /** The visits of a turn are legal and of distinct subscribers. */
  ghost predicate SoundTurn(cfg: Config, now: Time, tenant: string, events: seq<SessionEvent>, vs: seq<Visit>) {
    && Stamped(now, tenant, events, vs)
    && (forall i: nat | i < |vs| :: Legal(cfg, vs[i]))
    && (forall i: nat, j: nat | i < j < |vs| :: vs[i].candidate.subscriber != vs[j].candidate.subscriber)
  }

  lemma TurnIsSound(cfg: Config, now: Time, tenant: string, events: seq<SessionEvent>,
                    results: seq<SessionEvent>, env: CycleEnv, detected: seq<Candidate>, cands: seq<Candidate>)
    requires cfg.minEvents > 0 && TrimmedIds(events)
    requires SessionStore.IsSearch(SearchQuery(cfg, tenant, now), events, results)
    requires IsDetected(tenant, results, cfg.threshold, cfg.minEvents, detected) && IsEnriched(env, detected, cands)
    ensures var vs := VisitsOf(now, tenant, events, results, env, cands);
            SoundTurn(cfg, now, tenant, events, vs) && IsTurn(cfg, now, tenant, events, env, vs)
  {
    assert IsRanked(cfg, tenant, results, env, cands);
    SessionStore.SearchKeepsNewest(SearchQuery(cfg, tenant, now), events, results);
    assert LaterIdsTrimmed(results, cfg.threshold) by {
      assert forall i: nat | i < |results| :: results[i] in results;
    }
    DetectedMeaning(tenant, results, cfg.threshold, cfg.minEvents, detected);
    EnrichedKeeps(env, detected, cands);
    var vs := VisitsOf(now, tenant, events, results, env, cands);
    forall i: nat | i < |vs|
      ensures Legal(cfg, vs[i])
    {
      assert cands[i] in cands;
      var b :| b in detected && SameFinding(b, cands[i]);
      assert IsExact(tenant, results, cfg.threshold, cfg.minEvents, b);
    }
  }

  /** Everything visited so far is before this turn: earlier, or another tenant's in the same cycle. */
  predicate BeforeTurn(visits: seq<Visit>, now: Time, tenant: string, events: seq<SessionEvent>) {
    forall i: nat | i < |visits| ::
      visits[i].events <= events && (visits[i].now < now || (visits[i].now == now && visits[i].tenant != tenant))
  }

  lemma RunExtends(cfg: Config, visits: seq<Visit>, vs: seq<Visit>, now: Time, tenant: string,
                   events: seq<SessionEvent>)
    requires IsRun(cfg, visits) && BeforeTurn(visits, now, tenant, events)
    requires SoundTurn(cfg, now, tenant, events, vs)
    ensures IsRun(cfg, visits + vs)
  {
    var all := visits + vs;
    forall i: nat, j: nat | i < j < |all|
      ensures InOrder(all[i], all[j])
    {
      if j >= |visits| && i >= |visits| {
        assert vs[i - |visits|].candidate.subscriber != vs[j - |visits|].candidate.subscriber;
      }
    }
  }

  lemma NothingTaken(cfg: Config, log: seq<WatcherStore.WatcherState>)
    ensures Taken(cfg, log, [], 0) == [] && LogFrom(cfg, log, []) == log
  {
  }

  lemma SoundPrefix(cfg: Config, now: Time, tenant: string, events: seq<SessionEvent>, vs: seq<Visit>, k: nat)
    requires SoundTurn(cfg, now, tenant, events, vs) && k <= |vs|
    ensures SoundTurn(cfg, now, tenant, events, vs[..k])
  {
  }

  datatype Tally = Tally(triggered: nat, skipped: nat, errors: nat, runIds: seq<string>)

  const NO_TALLY := Tally(0, 0, 0, [])

  function Add(a: Tally, b: Tally): Tally {
    Tally(a.triggered + b.triggered, a.skipped + b.skipped, a.errors + b.errors, a.runIds + b.runIds)
  }

  lemma AddAssociative(a: Tally, b: Tally, c: Tally)
    ensures Add(Add(a, b), c) == Add(a, Add(b, c)) && Add(a, NO_TALLY) == a && Add(NO_TALLY, a) == a
  {
  }

  function RunIdOf(v: Visit): string {
    if v.answers.run.RunFailed? then "" else v.answers.run.runId
  }

  function TallyMove(move: Move, v: Visit): Tally {
    match move
    case Trigger => Tally(1, 0, 0, [RunIdOf(v)])
    case Skip => Tally(0, 1, 0, [])
    case _ => Tally(0, 0, 1, [])
  }

  lemma MoveTally(move: Move, v: Visit)
    ensures var tally := TallyMove(move, v);
            && tally.triggered == |tally.runIds| == (if move == Trigger then 1 else 0)
            && tally.skipped == (if move == Skip then 1 else 0)
            && tally.triggered + tally.skipped + tally.errors == 1
  {
  }

  /** What RunCycle counts over these visits, and the runs it lists. */
  function TallyOf(cfg: Config, log: seq<WatcherStore.WatcherState>, vs: seq<Visit>): Tally
    decreases |vs|
  {
    if vs == [] then NO_TALLY
    else Add(TallyMove(MoveOf(cfg, log, vs[0]), vs[0]), TallyOf(cfg, LogAfter(cfg, log, vs[0]), vs[1..]))
  }

  lemma {:induction false} TallyMeaning(cfg: Config, log: seq<WatcherStore.WatcherState>, vs: seq<Visit>)
    ensures TallyOf(cfg, log, vs).triggered == CountMoves(cfg, log, vs, Trigger)
    ensures TallyOf(cfg, log, vs).skipped == CountMoves(cfg, log, vs, Skip)
    decreases |vs|
  {
    hide LogAfter, MoveOf, TallyMove;
    if vs != [] {
      MoveTally(MoveOf(cfg, log, vs[0]), vs[0]);
      TallyMeaning(cfg, LogAfter(cfg, log, vs[0]), vs[1..]);
    }
  }

  /** Every visit counts once. */
  lemma {:induction false} TallyTotal(cfg: Config, log: seq<WatcherStore.WatcherState>, vs: seq<Visit>)
    ensures var tally := TallyOf(cfg, log, vs); tally.triggered + tally.skipped + tally.errors == |vs|
    decreases |vs|
  {
    hide LogAfter, MoveOf, TallyMove;
    if vs != [] {
      MoveTally(MoveOf(cfg, log, vs[0]), vs[0]);
      TallyTotal(cfg, LogAfter(cfg, log, vs[0]), vs[1..]);
    }
  }

  lemma TallyCons(cfg: Config, log: seq<WatcherStore.WatcherState>, v: Visit, rest: seq<Visit>)
    ensures TallyOf(cfg, log, [v] + rest)
            == Add(TallyMove(MoveOf(cfg, log, v), v), TallyOf(cfg, LogAfter(cfg, log, v), rest))
    ensures LogFrom(cfg, log, [v] + rest) == LogFrom(cfg, LogAfter(cfg, log, v), rest)
  {
    assert ([v] + rest)[1..] == rest;
  }

  /** Having done head of whole, with rest to come. */
  predicate Joined(cfg: Config, start: seq<WatcherStore.WatcherState>, whole: seq<Visit>,
                   log: seq<WatcherStore.WatcherState>, head: seq<Visit>, rest: seq<Visit>, tally: Tally) {
    && head + rest == whole
    && Add(tally, TallyOf(cfg, log, rest)) == TallyOf(cfg, start, whole)
    && LogFrom(cfg, log, rest) == LogFrom(cfg, start, whole)
  }

  lemma JoinedStep(cfg: Config, start: seq<WatcherStore.WatcherState>, whole: seq<Visit>,
                   log: seq<WatcherStore.WatcherState>, head: seq<Visit>, v: Visit, rest: seq<Visit>, tally: Tally)
    requires Joined(cfg, start, whole, log, head, [v] + rest, tally)
    ensures Joined(cfg, start, whole, LogAfter(cfg, log, v), head + [v], rest,
            Add(tally, TallyMove(MoveOf(cfg, log, v), v)))
  {
    hide TallyMove;
    TallyCons(cfg, log, v, rest);
    AddAssociative(tally, TallyMove(MoveOf(cfg, log, v), v), TallyOf(cfg, LogAfter(cfg, log, v), rest));
    assert head + ([v] + rest) == (head + [v]) + rest;
  }

  /** The inner loop after n candidates: what it did and what is left make up the whole turn. */
  predicate Midway(cfg: Config, start: seq<WatcherStore.WatcherState>, log: seq<WatcherStore.WatcherState>,
                   vs: seq<Visit>, n: nat, tally: Tally)
    requires n <= |vs|
  {
    Joined(cfg, start, Taken(cfg, start, vs, 0), log, vs[..n], Taken(cfg, log, vs[n..], tally.triggered), tally)
  }

  lemma MidwayStart(cfg: Config, start: seq<WatcherStore.WatcherState>, vs: seq<Visit>)
    ensures Midway(cfg, start, start, vs, 0, NO_TALLY)
  {
    hide MoveOf, LogAfter, LogFrom, TallyOf;
    assert vs[0..] == vs;
    var whole := Taken(cfg, start, vs, 0);
    assert vs[..0] + whole == whole;
    AddAssociative(TallyOf(cfg, start, whole), NO_TALLY, NO_TALLY);
  }

  lemma TakenStep(cfg: Config, log: seq<WatcherStore.WatcherState>, vs: seq<Visit>, n: nat, triggered: nat)
    requires n < |vs| && triggered < cfg.maxRunsPerCycle
    ensures Taken(cfg, log, vs[n..], triggered) ==
            [vs[n]] + Taken(cfg, LogAfter(cfg, log, vs[n]), vs[n + 1..],
                            triggered + TallyMove(MoveOf(cfg, log, vs[n]), vs[n]).triggered)
  {
    var tail := vs[n..];
    assert tail[0] == vs[n] && tail[1..] == vs[n + 1..];
  }

  lemma MidwayStep(cfg: Config, start: seq<WatcherStore.WatcherState>, log: seq<WatcherStore.WatcherState>,
                   vs: seq<Visit>, n: nat, tally: Tally, next: Tally)
    requires n < |vs| && Midway(cfg, start, log, vs, n, tally) && tally.triggered < cfg.maxRunsPerCycle
    requires next == Add(tally, TallyMove(MoveOf(cfg, log, vs[n]), vs[n]))
    ensures Midway(cfg, start, LogAfter(cfg, log, vs[n]), vs, n + 1, next)
  {
    hide MoveOf, LogAfter;
    TakenStep(cfg, log, vs, n, tally.triggered);
    assert vs[..n + 1] == vs[..n] + [vs[n]];
    JoinedStep(cfg, start, Taken(cfg, start, vs, 0), log, vs[..n], vs[n],
               Taken(cfg, LogAfter(cfg, log, vs[n]), vs[n + 1..], next.triggered), tally);
  }

  lemma MidwayEnd(cfg: Config, start: seq<WatcherStore.WatcherState>, log: seq<WatcherStore.WatcherState>,
                  vs: seq<Visit>, n: nat, tally: Tally)
    requires n <= |vs| && Midway(cfg, start, log, vs, n, tally)
    requires n == |vs| || tally.triggered >= cfg.maxRunsPerCycle
    ensures log == LogFrom(cfg, start, Taken(cfg, start, vs, 0))
    ensures tally == TallyOf(cfg, start, Taken(cfg, start, vs, 0))
  {
    assert Taken(cfg, log, vs[n..], tally.triggered) == [];
    assert vs[..n] + [] == vs[..n];
    AddAssociative(tally, NO_TALLY, NO_TALLY);
  }

  /** The inner loop of RunCycle over one tenant's candidates. */
  method VisitCandidates(cfg: Config, now: Time, tenant: string, env: CycleEnv, cands: seq<Candidate>,
                         states: WatcherStore.FileStore, ghost vs: seq<Visit>)
    returns (tally: Tally)
    requires GoodKeys(cfg) && states.Valid() && |vs| == |cands|
    requires forall i: nat | i < |vs| :: vs[i] == VisitOf(now, tenant, vs[i].events, vs[i].results, env, cands[i])
    modifies states
    ensures states.Valid()
    ensures states.log == LogFrom(cfg, old(states.log), Taken(cfg, old(states.log), vs, 0))
    ensures tally == TallyOf(cfg, old(states.log), Taken(cfg, old(states.log), vs, 0))
  {
    hide Midway, TallyOf, LogFrom, Taken, MoveOf, LogAfter, VisitOf;
    tally := NO_TALLY;
    ghost var start := states.log;
    MidwayStart(cfg, start, vs);
    var n := 0;
    while n < |cands|
      invariant n <= |cands| && states.Valid()
      invariant Midway(cfg, start, states.log, vs, n, tally)
    {
      if tally.triggered >= cfg.maxRunsPerCycle {
        break;
      }
      ghost var log := states.log;
      var move, runId := VisitCandidate(cfg, now, tenant, env, cands[n], states, vs[n]);
      ghost var next := Add(tally, TallyMove(move, vs[n]));
      MidwayStep(cfg, start, log, vs, n, tally, next);
      match move {
        case Trigger => tally := tally.(triggered := tally.triggered + 1, runIds := tally.runIds + [runId]);
        case Skip => tally := tally.(skipped := tally.skipped + 1);
        case _ => tally := tally.(errors := tally.errors + 1);
      }
      assert tally == next;
      n := n + 1;
    }
    MidwayEnd(cfg, start, states.log, vs, n, tally);
  }

  /** One pass of the inner loop. */
  method VisitCandidate(cfg: Config, now: Time, tenant: string, env: CycleEnv, c: Candidate,
                        states: WatcherStore.FileStore, ghost v: Visit)
    returns (move: Move, runId: string)
    requires GoodKeys(cfg) && states.Valid() && v == VisitOf(now, tenant, v.events, v.results, env, c)
    modifies states
    ensures states.Valid()
    ensures move == MoveOf(cfg, old(states.log), v) && (move.Trigger? ==> runId == RunIdOf(v))
    ensures states.log == LogAfter(cfg, old(states.log), v)
  {
    var key := cfg.keyOf(tenant, c.subscriber);
    assert !Blank(key) && Trimmed(key);
    if !env.getUp(tenant, c.subscriber) {
      return LoadFails, "";
    }
    var state := states.Get(key);
    if state.Ok? && state.value.lastEventId == c.latest.eventId {
      return Skip, "";
    }
    var run := env.run(tenant, c.subscriber);
    if run.RunFailed? {
      return RunFails, "";
    }
    var next := WatcherStore.WatcherState(key, cfg.watcherName, tenant, c.subscriber, c.latest.eventId,
                                          Some(c.latest.occurredAt), run.runId, now);
    assert next == NewState(cfg, v);
    if !env.putUp(tenant, c.subscriber) {
      return StoreFails, "";
    }
    var stored := states.Upsert(next);
    if stored.Err? {
      return StoreFails, "";
    }
    return Trigger, run.runId;
  }

  // ---------------------------------------------------------------- RunCycle

  datatype CycleResult = CycleResult(candidates: nat, tally: Tally)

  /**
   * What a cycle counts for a tenant whose ranked candidates give the visits
   * of turn. Failed access searches join into one error of the tenant.
   */
  function TenantResult(cfg: Config, env: CycleEnv, tenant: string, log: seq<WatcherStore.WatcherState>,
                        turn: seq<Visit>): CycleResult {
    if !env.searchUp(tenant) then CycleResult(0, NO_TALLY.(errors := 1))
    else
      var tally := TallyOf(cfg, log, Taken(cfg, log, turn, 0));
      CycleResult(|turn|, tally.(errors := tally.errors + if LookupFails(env, CandidatesOf(turn)) then 1 else 0))
  }

  function CandidatesOf(turn: seq<Visit>): (cands: seq<Candidate>)
    ensures |cands| == |turn| && forall i: nat | i < |cands| :: cands[i] == turn[i].candidate
  {
    seq(|turn|, (i: nat) requires i < |turn| => turn[i].candidate)
  }

  ghost predicate IsTenantTurn(cfg: Config, now: Time, tenant: string, events: seq<SessionEvent>, env: CycleEnv,
                               turn: seq<Visit>) {
    if env.searchUp(tenant) then IsTurn(cfg, now, tenant, events, env, turn) else turn == []
  }

  /** The events that the store accepts. */
  function Accepted(list: seq<SessionEvent>): seq<SessionEvent> {
    if list == [] then []
    else Accepted(list[..|list| - 1]) + (if ValidSession(list[|list| - 1]) then [list[|list| - 1]] else [])
  }

  /** The store after what arrives before the searches of a cycle's first t tenants. */
  function StoreAfter(cfg: Config, env: CycleEnv, events: seq<SessionEvent>, t: nat): seq<SessionEvent>
    requires t <= |cfg.tenants|
  {
    if t == 0 then events else StoreAfter(cfg, env, events, t - 1) + Accepted(env.arrivals(cfg.tenants[t - 1]))
  }

  /** The turns of the first |turns| tenants. */
  ghost predicate AreTurns(cfg: Config, now: Time, events: seq<SessionEvent>, env: CycleEnv, turns: seq<seq<Visit>>) {
    && |turns| <= |cfg.tenants|
    && forall i: nat | i < |turns| :: IsTenantTurn(cfg, now, cfg.tenants[i], StoreAfter(cfg, env, events, i + 1), env,
        turns[i])
  }

  function Plus(a: CycleResult, b: CycleResult): CycleResult {
    CycleResult(a.candidates + b.candidates, Add(a.tally, b.tally))
  }

  /** What a cycle with these turns counts. */
  function Total(cfg: Config, env: CycleEnv, log: seq<WatcherStore.WatcherState>, turns: seq<seq<Visit>>): CycleResult
    requires |turns| <= |cfg.tenants|
  {
    if turns == [] then CycleResult(0, NO_TALLY)
    else
      var n := |turns| - 1;
      Plus(Total(cfg, env, log, turns[..n]),
           TenantResult(cfg, env, cfg.tenants[n], AfterTurns(cfg, log, turns[..n]), turns[n]))
  }

  /** The visits a cycle with these turns makes before the cap. */
  function AllTaken(cfg: Config, log: seq<WatcherStore.WatcherState>, turns: seq<seq<Visit>>): seq<Visit> {
    if turns == [] then []
    else
      var n := |turns| - 1;
      AllTaken(cfg, log, turns[..n]) + Taken(cfg, AfterTurns(cfg, log, turns[..n]), turns[n], 0)
  }

  lemma AfterOneMore(cfg: Config, log: seq<WatcherStore.WatcherState>, turns: seq<seq<Visit>>, turn: seq<Visit>)
    ensures var before := AfterTurns(cfg, log, turns);
            AfterTurns(cfg, log, turns + [turn]) == LogFrom(cfg, before, Taken(cfg, before, turn, 0))
  {
    assert (turns + [turn])[..|turns|] == turns;
  }

  lemma TakenOneMore(cfg: Config, log: seq<WatcherStore.WatcherState>, turns: seq<seq<Visit>>, turn: seq<Visit>)
    ensures AllTaken(cfg, log, turns + [turn])
            == AllTaken(cfg, log, turns) + Taken(cfg, AfterTurns(cfg, log, turns), turn, 0)
  {
    assert (turns + [turn])[..|turns|] == turns;
  }

  lemma NoTurns(cfg: Config, env: CycleEnv, log: seq<WatcherStore.WatcherState>)
    ensures AfterTurns(cfg, log, []) == log && Total(cfg, env, log, []) == CycleResult(0, NO_TALLY)
  {
  }

  lemma TotalOneMore(cfg: Config, env: CycleEnv, log: seq<WatcherStore.WatcherState>, turns: seq<seq<Visit>>,
                     turn: seq<Visit>)
    requires |turns| < |cfg.tenants|
    ensures Total(cfg, env, log, turns + [turn]) ==
            Plus(Total(cfg, env, log, turns),
                TenantResult(cfg, env, cfg.tenants[|turns|], AfterTurns(cfg, log, turns), turn))
  {
    hide TenantResult, AfterTurns, Plus;
    assert (turns + [turn])[..|turns|] == turns;
  }

  lemma {:induction false} AfterTurnsIsLogFrom(cfg: Config, log: seq<WatcherStore.WatcherState>, turns: seq<seq<Visit>>)
    ensures AfterTurns(cfg, log, turns) == LogFrom(cfg, log, AllTaken(cfg, log, turns))
  {
    if turns != [] {
      var n := |turns| - 1;
      AfterTurnsIsLogFrom(cfg, log, turns[..n]);
      LogFromConcat(cfg, log, AllTaken(cfg, log, turns[..n]),
          Taken(cfg, AfterTurns(cfg, log, turns[..n]), turns[n], 0));
    }
  }

  lemma TenantTriggers(cfg: Config, env: CycleEnv, tenant: string, log: seq<WatcherStore.WatcherState>,
                       turn: seq<Visit>)
    requires cfg.maxRunsPerCycle >= 0 && (!env.searchUp(tenant) ==> turn == [])
    ensures var after := LogFrom(cfg, log, Taken(cfg, log, turn, 0));
            && log <= after
            && TenantResult(cfg, env, tenant, log, turn).tally.triggered == |after| - |log| <= cfg.maxRunsPerCycle
  {
    CapHolds(cfg, log, turn, 0);
    TriggersGrowLog(cfg, log, Taken(cfg, log, turn, 0));
    TallyMeaning(cfg, log, Taken(cfg, log, turn, 0));
  }

  /** A cycle appends one checkpoint for each run it reports as triggered, and at most the cap for each tenant. */
  lemma {:induction false} CycleGrowsLog(cfg: Config, env: CycleEnv, log: seq<WatcherStore.WatcherState>,
                                         turns: seq<seq<Visit>>)
    requires |turns| <= |cfg.tenants| && cfg.maxRunsPerCycle >= 0
    requires forall i: nat | i < |turns| && !env.searchUp(cfg.tenants[i]) :: turns[i] == []
    ensures log <= AfterTurns(cfg, log, turns)
    ensures Total(cfg, env, log, turns).tally.triggered == |AfterTurns(cfg, log, turns)| - |log|
    ensures |AfterTurns(cfg, log, turns)| - |log| <= |turns| * cfg.maxRunsPerCycle
  {
    hide TenantResult, Taken, LogFrom, TallyOf, AfterTurns, Total;
    if turns == [] {
      NoTurns(cfg, env, log);
    } else {
      var n := |turns| - 1;
      var first := turns[..n];
      assert turns == first + [turns[n]];
      CycleGrowsLog(cfg, env, log, first);
      AfterOneMore(cfg, log, first, turns[n]);
      TotalOneMore(cfg, env, log, first, turns[n]);
      TenantTriggers(cfg, env, cfg.tenants[n], AfterTurns(cfg, log, first), turns[n]);
      assert |turns| * cfg.maxRunsPerCycle == n * cfg.maxRunsPerCycle + cfg.maxRunsPerCycle;
    }
  }

  // ---------------------------------------------------------------- what a cycle acts on

  lemma NamedTenant(cfg: Config, t: nat)
    requires ValidConfig(cfg) && t < |cfg.tenants|
    ensures TrimSpace(cfg.tenants[t]) == cfg.tenants[t] != ""
  {
    hide TrimSpace, Blank;
    BlankTrims(cfg.tenants[t]);
    assert Trimmed(cfg.tenants[t]) && !Blank(cfg.tenants[t]);
  }

  /** What a tenant's visits are of: the window of its search, and candidates that stored events support. */
  ghost predicate GroundedTurn(cfg: Config, now: Time, tenant: string, events: seq<SessionEvent>, turn: seq<Visit>) {
    forall v | v in turn ::
      && v.now == now && v.tenant == tenant && v.events == events
      && IsWindow(cfg, now, tenant, events, v.results) && Grounded(cfg, now, tenant, events, v.candidate)
  }

  lemma CandidatesAreGrounded(cfg: Config, now: Time, tenant: string, events: seq<SessionEvent>, env: CycleEnv,
                              results: seq<SessionEvent>, cands: seq<Candidate>, c: Candidate)
    requires IsWindow(cfg, now, tenant, events, results) && IsRanked(cfg, tenant, results, env, cands) && c in cands
    ensures Grounded(cfg, now, tenant, events, c)
  {
    hide IsDetected, IsWindow, Supporting, Supports, CandidateLe;
    var detected: seq<Candidate> :|
      IsDetected(tenant, results, cfg.threshold, cfg.minEvents, detected) && IsEnriched(env, detected, cands);
    var b := FoundBefore(env, detected, cands, c);
    DetectedIsGrounded(cfg, now, tenant, events, results, detected, b);
  }

  lemma FoundBefore(env: CycleEnv, before: seq<Candidate>, after: seq<Candidate>, c: Candidate) returns (b: Candidate)
    requires IsEnriched(env, before, after) && c in after
    ensures b in before && SameFinding(b, c)
  {
    hide CandidateLe;
    if env.accessService && before != [] {
      var mid: seq<Candidate> :| EnrichedInPlace(env, before, mid) && IsSortOf(CandidateLe, mid, after);
      SameMembers(mid, after);
      var i: nat :| i < |mid| && mid[i] == c;
      b := before[i];
    } else {
      b := c;
    }
  }

  lemma TurnIsGrounded(cfg: Config, now: Time, tenant: string, events: seq<SessionEvent>, env: CycleEnv,
                       turn: seq<Visit>)
    requires TrimSpace(tenant) != "" && IsTenantTurn(cfg, now, tenant, events, env, turn)
    ensures GroundedTurn(cfg, now, tenant, events, turn)
  {
    hide IsRanked, IsWindow, Grounded, TrimSpace, SessionStore.IsSearch;
    if env.searchUp(tenant) {
      var results: seq<SessionEvent>, cands: seq<Candidate> :|
        && SessionStore.IsSearch(SearchQuery(cfg, tenant, now), events, results)
        && IsRanked(cfg, tenant, results, env, cands)
        && turn == VisitsOf(now, tenant, events, results, env, cands);
      SearchIsWindow(cfg, now, tenant, events, results);
      forall v | v in turn
        ensures Grounded(cfg, now, tenant, events, v.candidate)
      {
        var i: nat :| i < |turn| && turn[i] == v;
        CandidatesAreGrounded(cfg, now, tenant, events, env, results, cands, cands[i]);
      }
    }
  }

  /** Every checkpoint past the old ones was stored by one of the visits. */
  lemma {:induction false} NewEntryAt(cfg: Config, log: seq<WatcherStore.WatcherState>, vs: seq<Visit>, k: nat)
    returns (v: Visit)
    requires |log| <= k < |LogFrom(cfg, log, vs)|
    ensures v in vs && LogFrom(cfg, log, vs)[k] == WatcherStore.Normalize(NewState(cfg, v))
    decreases |vs|
  {
    hide MoveOf;
    var after := LogAfter(cfg, log, vs[0]);
    if k < |after| {
      v := vs[0];
      TriggersGrowLog(cfg, after, vs[1..]);
    } else {
      v := NewEntryAt(cfg, after, vs[1..], k);
    }
  }

  lemma TurnEntries(cfg: Config, now: Time, tenant: string, events: seq<SessionEvent>,
                    log: seq<WatcherStore.WatcherState>, turn: seq<Visit>, k: nat)
    requires GroundedTurn(cfg, now, tenant, events, turn)
    requires |log| <= k < |LogFrom(cfg, log, Taken(cfg, log, turn, 0))|
    ensures HasGrounds(cfg, now, tenant, events, LogFrom(cfg, log, Taken(cfg, log, turn, 0))[k])
  {
    hide LogFrom, Taken, IsWindow, Grounded, HasGrounds;
    TakenPrefix(cfg, log, turn, 0);
    var v := NewEntryAt(cfg, log, Taken(cfg, log, turn, 0), k);
    assert v in turn;
    StoredHasGrounds(cfg, v);
  }

  /** The checkpoint is of one of the tenants, and the store as its turn found it supports it. */
  ghost predicate CycleCallsFor(cfg: Config, now: Time, events: seq<SessionEvent>, env: CycleEnv,
                                s: WatcherStore.WatcherState, turns: nat) {
    exists t: nat | t < turns && t < |cfg.tenants| ::
      HasGrounds(cfg, now, cfg.tenants[t], StoreAfter(cfg, env, events, t + 1), s)
  }

  /**
   * For every checkpoint that a cycle stores there are MinEvents short stops of
   * its subscriber, stored for its tenant and within the window, and the event
   * it names is one of them: whatever ids look like, and whatever fails.
   */
  lemma {:induction false} CheckpointsHaveGrounds(cfg: Config, now: Time, events: seq<SessionEvent>, env: CycleEnv,
                                                  log: seq<WatcherStore.WatcherState>, turns: seq<seq<Visit>>, k: nat)
    requires ValidConfig(cfg) && AreTurns(cfg, now, events, env, turns)
    requires |log| <= k < |AfterTurns(cfg, log, turns)|
    ensures CycleCallsFor(cfg, now, events, env, AfterTurns(cfg, log, turns)[k], |turns|)
  {
    hide IsTenantTurn, LogFrom, Taken, HasGrounds, StoreAfter, GoodKeys, TrimSpace, Blank;
    var n := |turns| - 1;
    var first := turns[..n];
    assert turns == first + [turns[n]];
    var before := AfterTurns(cfg, log, first);
    AfterOneMore(cfg, log, first, turns[n]);
    if k < |before| {
      CheckpointsHaveGrounds(cfg, now, events, env, log, first, k);
      TriggersGrowLog(cfg, before, Taken(cfg, before, turns[n], 0));
      assert AfterTurns(cfg, log, turns)[k] == before[k];
    } else {
      NamedTenant(cfg, n);
      var stored := StoreAfter(cfg, env, events, n + 1);
      TurnIsGrounded(cfg, now, cfg.tenants[n], stored, env, turns[n]);
      TurnEntries(cfg, now, cfg.tenants[n], stored, before, turns[n], k);
    }
  }

  /** The count of the candidate is the number of events in the window that support it. */
  ghost predicate CountsExactly(cfg: Config, now: Time, tenant: string, v: Visit) {
    v.candidate.count == |Supporting(cfg, now, tenant, v.candidate.subscriber, v.results)|
  }

  /** A turn visits candidates in their order, and with trimmed ids counts exactly the events that support them. */
  lemma TurnIsRanked(cfg: Config, now: Time, tenant: string, events: seq<SessionEvent>, env: CycleEnv,
                     turn: seq<Visit>, i: nat, j: nat)
    requires ValidConfig(cfg) && TrimSpace(tenant) != "" && IsTenantTurn(cfg, now, tenant, events, env, turn)
    requires i < j < |turn|
    ensures GoesBefore(turn[i].candidate, turn[j].candidate)
    ensures TrimmedIds(events) ==>
              CountsExactly(cfg, now, tenant, turn[i]) && CountsExactly(cfg, now, tenant, turn[j])
  {
    hide IsWindow, Supporting, GoesBefore, CandidateLe, GoodKeys, TrimSpace, SessionStore.IsSearch, IsDetected, Blank;
    var results: seq<SessionEvent>, cands: seq<Candidate> :|
      && SessionStore.IsSearch(SearchQuery(cfg, tenant, now), events, results)
      && IsRanked(cfg, tenant, results, env, cands)
      && turn == VisitsOf(now, tenant, events, results, env, cands);
    SearchIsWindow(cfg, now, tenant, events, results);
    var detected: seq<Candidate> :|
      IsDetected(tenant, results, cfg.threshold, cfg.minEvents, detected) && IsEnriched(env, detected, cands);
    EnrichedIsSorted(cfg, tenant, results, env, detected, cands);
    RankedGoesBefore(cands, i, j);
    if TrimmedIds(events) {
      ResultsAreTrimmed(cfg, now, tenant, events, results);
      var a := FoundBefore(env, detected, cands, cands[i]);
      var b := FoundBefore(env, detected, cands, cands[j]);
      CountIsExact(cfg, now, tenant, events, results, detected, a);
      CountIsExact(cfg, now, tenant, events, results, detected, b);
    }
  }

  lemma ResultsAreTrimmed(cfg: Config, now: Time, tenant: string, events: seq<SessionEvent>,
                          results: seq<SessionEvent>)
    requires TrimmedIds(events) && IsWindow(cfg, now, tenant, events, results)
    ensures forall e | e in results :: Trimmed(e.subscriberId)
  {
    hide InWindow, Trimmed;
    forall e | e in results
      ensures Trimmed(e.subscriberId)
    {
      assert e in multiset(results) && e in multiset(events);
    }
  }

  lemma EnrichedIsSorted(cfg: Config, tenant: string, results: seq<SessionEvent>, env: CycleEnv,
                         detected: seq<Candidate>, cands: seq<Candidate>)
    requires IsDetected(tenant, results, cfg.threshold, cfg.minEvents, detected) && IsEnriched(env, detected, cands)
    ensures Sorted(CandidateLe, cands)
  {
    hide CandidateLe, ListsGroups;
  }

  /**
   * The cap takes the best: a candidate that a cycle did not come to has no
   * more supporting events in the window than one it visited, if both are or
   * are not correlated, and both have or have no access events.
   */
  lemma CapTakesTheBest(cfg: Config, now: Time, tenant: string, events: seq<SessionEvent>, env: CycleEnv,
                        log: seq<WatcherStore.WatcherState>, turn: seq<Visit>, i: nat, j: nat)
    requires ValidConfig(cfg) && TrimSpace(tenant) != "" && IsTenantTurn(cfg, now, tenant, events, env, turn)
    requires TrimmedIds(events) && i < |Taken(cfg, log, turn, 0)| <= j < |turn|
    requires turn[i].candidate.correlated == turn[j].candidate.correlated
    requires (turn[i].candidate.accessEvents == []) == (turn[j].candidate.accessEvents == [])
    ensures Taken(cfg, log, turn, 0)[i] == turn[i]
    ensures |Supporting(cfg, now, tenant, turn[i].candidate.subscriber, turn[i].results)|
         >= |Supporting(cfg, now, tenant, turn[j].candidate.subscriber, turn[j].results)|
  {
    hide IsTenantTurn, Supporting, GoodKeys, TrimSpace, TrimmedIds, Taken, Blank;
    TakenPrefix(cfg, log, turn, 0);
    TurnIsRanked(cfg, now, tenant, events, env, turn, i, j);
  }

  class Watcher {
    const cfg: Config
    const sessions: SessionStore.MemoryStore
    const states: WatcherStore.FileStore
    ghost var visits: seq<Visit>            // every visit so far
    ghost var lastNow: Time

    /** The visits make up a run as long as every stored subscriber id is trimmed. */
    ghost predicate Valid()
      reads this, sessions, states
    {
      && ValidConfig(cfg) && states.Valid()
      && states.log == LogOf(cfg, visits) && Older(visits, lastNow, sessions.events)
      && (TrimmedIds(sessions.events) ==> IsRun(cfg, visits))
    }

    constructor (cfg: Config, sessions: SessionStore.MemoryStore, states: WatcherStore.FileStore)
      requires ValidConfig(cfg) && states.Valid() && states.log == []
      ensures Valid() && this.cfg == cfg && this.sessions == sessions && this.states == states
      ensures visits == []
    {
      this.cfg, this.sessions, this.states := cfg, sessions, states;
      visits, lastNow := [], 0;
    }

    /** Any new event arrives. */
    method Ingest(event: SessionEvent) returns (ok: bool)
      requires Valid()
      modifies sessions
      ensures Valid()
      ensures ok == ValidSession(event)
      ensures sessions.events == if ok then old(sessions.events) + [event] else old(sessions.events)
    {
      hide IsRun, LogOf;
      ok := sessions.Append(event);
      OlderStays(visits, lastNow, old(sessions.events), sessions.events);
    }

    /** Events arrive, one after another. */
    method Receive(list: seq<SessionEvent>)
      requires Valid()
      modifies sessions
      ensures Valid() && sessions.events == old(sessions.events) + Accepted(list)
    {
      hide IsRun, LogOf, Older, ValidSession;
      assert old(sessions.events) + [] == old(sessions.events);
      for n := 0 to |list|
        invariant Valid() && sessions.events == old(sessions.events) + Accepted(list[..n])
      {
        assert list[..n + 1][..n] == list[..n];
        ghost var before := sessions.events;
        var ok := Ingest(list[n]);
        assert before + [] == before;
        assert old(sessions.events) + Accepted(list[..n]) + [list[n]]
            == old(sessions.events) + (Accepted(list[..n]) + [list[n]]);
      }
      assert list[..|list|] == list;
    }

    /** The ranked candidates of a tenant, and the access searches that failed. */
    method FindCandidates(now: Time, tenant: string, env: CycleEnv)
      returns (cands: seq<Candidate>, errors: nat, ghost turn: seq<Visit>)
      requires Valid()
      ensures IsTurn(cfg, now, tenant, sessions.events, env, turn)
      ensures Stamped(now, tenant, sessions.events, turn)
      ensures TrimmedIds(sessions.events) ==> SoundTurn(cfg, now, tenant, sessions.events, turn)
      ensures cands == CandidatesOf(turn) && (errors > 0 <==> LookupFails(env, cands))
      ensures forall i: nat | i < |turn| ::
                turn[i] == VisitOf(now, tenant, turn[i].events, turn[i].results, env, cands[i])
    {
      hide IsRun, LogOf, Older, IsDetected, IsEnriched, SoundTurn, LookupFails;
      var results := sessions.Search(SearchQuery(cfg, tenant, now));
      var detected := DetectCandidates(tenant, results, cfg.threshold, cfg.minEvents);
      cands, errors := Enrich(env, detected);
      turn := VisitsOf(now, tenant, sessions.events, results, env, cands);
      assert IsRanked(cfg, tenant, results, env, cands);
      SameLookups(env, detected, cands);
      if TrimmedIds(sessions.events) {
        TurnIsSound(cfg, now, tenant, sessions.events, results, env, detected, cands);
      }
      assert CandidatesOf(turn) == cands;
    }

    /** One tenant's part of a cycle. */
    method RunTenant(now: Time, tenant: string, env: CycleEnv) returns (result: CycleResult, ghost turn: seq<Visit>)
      requires Valid() && BeforeTurn(visits, now, tenant, sessions.events) && lastNow <= now
      modifies this`visits, this`lastNow, states
      ensures Valid() && lastNow == now
      ensures IsTenantTurn(cfg, now, tenant, sessions.events, env, turn)
      ensures visits == old(visits) + Taken(cfg, old(states.log), turn, 0)
      ensures states.log == LogFrom(cfg, old(states.log), Taken(cfg, old(states.log), turn, 0))
      ensures result == TenantResult(cfg, env, tenant, old(states.log), turn)
      ensures Stamped(now, tenant, sessions.events, turn)
    {
      hide IsRun, LogOf, LogFrom, Taken, TallyOf, Older, BeforeTurn, IsTurn, SoundTurn, LookupFails, TrimmedIds;
      turn := [];
      OlderLater(visits, lastNow, now, sessions.events);
      assert visits + [] == visits;
      lastNow := now;
      if !env.searchUp(tenant) {
        NothingTaken(cfg, states.log);
        return CycleResult(0, NO_TALLY.(errors := 1)), turn;
      }
      var cands: seq<Candidate>, errors: nat;
      cands, errors, turn := FindCandidates(now, tenant, env);
      var tally := VisitCandidates(cfg, now, tenant, env, cands, states, turn);
      TurnExtends(cfg, visits, turn, now, tenant, sessions.events);
      visits := visits + Taken(cfg, old(states.log), turn, 0);
      result := CycleResult(|cands|, tally.(errors := tally.errors + if errors > 0 then 1 else 0));
    }

    /**
     * One cycle over the configured tenants, with events arriving before each
     * tenant's search and any failures. The visits it makes continue the run,
     * so everything proved of runs holds after any number of cycles.
     */
    method RunCycle(now: Time, env: CycleEnv) returns (result: CycleResult, ghost turns: seq<seq<Visit>>)
      requires Valid() && now > lastNow
      modifies this`visits, this`lastNow, states, sessions
      ensures Valid() && lastNow == now
      ensures |turns| == |cfg.tenants| && AreTurns(cfg, now, old(sessions.events), env, turns)
      ensures sessions.events == StoreAfter(cfg, env, old(sessions.events), |cfg.tenants|)
      ensures visits == old(visits) + AllTaken(cfg, old(states.log), turns)
      ensures states.log == AfterTurns(cfg, old(states.log), turns)
      ensures result == Total(cfg, env, old(states.log), turns)
      ensures forall k: nat | |old(states.log)| <= k < |states.log| ::
                CycleCallsFor(cfg, now, old(sessions.events), env, states.log[k], |cfg.tenants|)
    {
      hide IsRun, LogOf, TrimmedIds, Accepted, AreTurns, AfterTurns, AllTaken, Total, ThisCycle, Older, IsTenantTurn,
           TenantResult, LogFrom, Taken, BeforeTurn, Stamped, CycleCallsFor;
      result := CycleResult(0, NO_TALLY);
      turns := [];
      SoFarStart(cfg, now, sessions.events, env, states.log, visits);
      for t := 0 to |cfg.tenants|
        invariant Valid() && |turns| == t && lastNow == (if t == 0 then old(lastNow) else now)
        invariant sessions.events == StoreAfter(cfg, env, old(sessions.events), t)
        invariant Older(old(visits), old(lastNow), sessions.events)
        invariant SoFar(cfg, now, old(sessions.events), env, old(states.log), old(visits), turns, states.log, visits,
                result)
      {
        ghost var stored := sessions.events;
        Receive(env.arrivals(cfg.tenants[t]));
        OlderStays(old(visits), old(lastNow), stored, sessions.events);
        CanVisit(cfg, old(lastNow), lastNow, now, sessions.events, old(visits), visits, t);
        ghost var log, before := states.log, visits;
        var part, turn := RunTenant(now, cfg.tenants[t], env);
        SoFarStep(cfg, now, old(sessions.events), env, old(states.log), old(visits), turns, log, before, result, turn);
        turns := turns + [turn];
        result := Plus(result, part);
      }
      forall k: nat | |old(states.log)| <= k < |states.log|
        ensures CycleCallsFor(cfg, now, old(sessions.events), env, states.log[k], |cfg.tenants|)
      {
        CheckpointsHaveGrounds(cfg, now, old(sessions.events), env, old(states.log), turns, k);
      }
    }
  }

  /**
   * After any cycles with any failures and any replays: no event id is stored
   * twice under a key, if keys do not collide and ids name moments.
   */
  lemma WatcherStoresOnce(w: Watcher, i: nat, j: nat)
    requires w.Valid() && TrimmedIds(w.sessions.events) && DistinctKeys(w.cfg, w.visits)
    requires MomentsNameIds(w.sessions.events) && IdsNameMoments(w.sessions.events)
    requires i < j < |w.states.log| && w.states.log[i].key == w.states.log[j].key
    ensures w.states.log[i].lastEventId != w.states.log[j].lastEventId
    ensures w.states.log[i].updatedAt < w.states.log[j].updatedAt
  {
    hide IsRun, DistinctKeys, MomentsNameIds, IdsNameMoments, LogOf;
    NoEventTwice(w.cfg, w.visits, w.sessions.events, i, j);
  }

  /** A cycle after the tenants of turns. */
  ghost predicate SoFar(cfg: Config, now: Time, events: seq<SessionEvent>, env: CycleEnv,
                        start: seq<WatcherStore.WatcherState>, first: seq<Visit>, turns: seq<seq<Visit>>,
                        log: seq<WatcherStore.WatcherState>, visits: seq<Visit>, result: CycleResult) {
    && AreTurns(cfg, now, events, env, turns)
    && log == AfterTurns(cfg, start, turns)
    && visits == first + AllTaken(cfg, start, turns)
    && result == Total(cfg, env, start, turns)
    && ThisCycle(cfg, now, first, visits, |turns|)
  }

  /** The visits after those of first are of now and of the first t tenants. */
  ghost predicate ThisCycle(cfg: Config, now: Time, first: seq<Visit>, visits: seq<Visit>, t: nat) {
    && first <= visits
    && forall i: nat | |first| <= i < |visits| ::
         visits[i].now == now && exists k: nat | k < t && k < |cfg.tenants| :: visits[i].tenant == cfg.tenants[k]
  }

  lemma SoFarStart(cfg: Config, now: Time, events: seq<SessionEvent>, env: CycleEnv,
                   start: seq<WatcherStore.WatcherState>, first: seq<Visit>)
    ensures SoFar(cfg, now, events, env, start, first, [], start, first, CycleResult(0, NO_TALLY))
  {
  }

  lemma SoFarStep(cfg: Config, now: Time, events: seq<SessionEvent>, env: CycleEnv,
                  start: seq<WatcherStore.WatcherState>, first: seq<Visit>, turns: seq<seq<Visit>>,
                  log: seq<WatcherStore.WatcherState>, visits: seq<Visit>, result: CycleResult, turn: seq<Visit>)
    requires SoFar(cfg, now, events, env, start, first, turns, log, visits, result) && |turns| < |cfg.tenants|
    requires IsTenantTurn(cfg, now, cfg.tenants[|turns|], StoreAfter(cfg, env, events, |turns| + 1), env, turn)
    requires Stamped(now, cfg.tenants[|turns|], StoreAfter(cfg, env, events, |turns| + 1), turn)
    ensures SoFar(cfg, now, events, env, start, first, turns + [turn],
                  LogFrom(cfg, log, Taken(cfg, log, turn, 0)), visits + Taken(cfg, log, turn, 0),
                  Plus(result, TenantResult(cfg, env, cfg.tenants[|turns|], log, turn)))
  {
    hide TenantResult, Taken, LogFrom, TallyOf, IsTurn, Total, AfterTurns, AllTaken, StoreAfter;
    AfterOneMore(cfg, start, turns, turn);
    TakenOneMore(cfg, start, turns, turn);
    TotalOneMore(cfg, env, start, turns, turn);
    TakenPrefix(cfg, log, turn, 0);
    var taken := Taken(cfg, log, turn, 0);
    assert (first + AllTaken(cfg, start, turns)) + taken == first + (AllTaken(cfg, start, turns) + taken);
    ThisCycleStep(cfg, now, first, visits, |turns|, turn, taken);
  }

  lemma ThisCycleStep(cfg: Config, now: Time, first: seq<Visit>, visits: seq<Visit>, t: nat, turn: seq<Visit>,
                      taken: seq<Visit>)
    requires ThisCycle(cfg, now, first, visits, t) && t < |cfg.tenants| && taken <= turn
    requires forall v | v in turn :: v.now == now && v.tenant == cfg.tenants[t]
    ensures ThisCycle(cfg, now, first, visits + taken, t + 1)
  {
    var all := visits + taken;
    forall i: nat | |first| <= i < |all|
      ensures all[i].now == now && exists k: nat | k < t + 1 && k < |cfg.tenants| :: all[i].tenant == cfg.tenants[k]
    {
      if i < |visits| {
        assert all[i] == visits[i];
      } else {
        assert all[i] == turn[i - |visits|];
      }
    }
  }

  /** Earlier cycles are before now, and this cycle has not come to tenant t yet. */
  lemma CanVisit(cfg: Config, earlier: Time, last: Time, now: Time, events: seq<SessionEvent>, first: seq<Visit>,
                 visits: seq<Visit>, t: nat)
    requires ValidConfig(cfg) && t < |cfg.tenants| && earlier < now && last <= now
    requires Older(first, earlier, events) && Older(visits, last, events) && ThisCycle(cfg, now, first, visits, t)
    ensures BeforeTurn(visits, now, cfg.tenants[t], events)
  {
    forall i: nat | i < |visits|
      ensures visits[i].events <= events && (visits[i].now < now
              || (visits[i].now == now && visits[i].tenant != cfg.tenants[t]))
    {
      if i < |first| {
        assert visits[i] == first[i];
      }
    }
  }

  predicate Older(visits: seq<Visit>, now: Time, events: seq<SessionEvent>) {
    forall i: nat | i < |visits| :: visits[i].events <= events && visits[i].now <= now
  }

  lemma OlderStays(visits: seq<Visit>, now: Time, before: seq<SessionEvent>, after: seq<SessionEvent>)
    requires Older(visits, now, before) && before <= after
    ensures Older(visits, now, after)
  {
  }

  lemma OlderLater(visits: seq<Visit>, before: Time, now: Time, events: seq<SessionEvent>)
    requires Older(visits, before, events) && before <= now
    ensures Older(visits, now, events)
  {
  }

  lemma OlderAppend(cfg: Config, visits: seq<Visit>, vs: seq<Visit>, now: Time, tenant: string,
                    events: seq<SessionEvent>)
    requires Older(visits, now, events) && Stamped(now, tenant, events, vs)
    ensures Older(visits + vs, now, events)
  {
  }

  /** What a tenant's visits do to the run and its log. */
  lemma TurnExtends(cfg: Config, visits: seq<Visit>, turn: seq<Visit>, now: Time, tenant: string,
                    events: seq<SessionEvent>)
    requires BeforeTurn(visits, now, tenant, events) && Older(visits, now, events) && Stamped(now, tenant, events, turn)
    ensures var taken := Taken(cfg, LogOf(cfg, visits), turn, 0);
            && Older(visits + taken, now, events)
            && LogOf(cfg, visits + taken) == LogFrom(cfg, LogOf(cfg, visits), taken)
            && (IsRun(cfg, visits) && SoundTurn(cfg, now, tenant, events, turn) ==> IsRun(cfg, visits + taken))
  {
    hide LogFrom, IsRun, Taken;
    var taken := Taken(cfg, LogOf(cfg, visits), turn, 0);
    TakenPrefix(cfg, LogOf(cfg, visits), turn, 0);
    assert taken == turn[..|taken|];
    LogOfAppend(cfg, visits, taken);
    OlderAppend(cfg, visits, taken, now, tenant, events);
    if IsRun(cfg, visits) && SoundTurn(cfg, now, tenant, events, turn) {
      SoundPrefix(cfg, now, tenant, events, turn, |taken|);
      RunExtends(cfg, visits, taken, now, tenant, events);
    }
  }

  // ---------------------------------------------------------------- the reported runs

  /** The runs counted over some visits are those of the checkpoints they append, in order. */
  lemma {:induction false} RunIdsAreStored(cfg: Config, log: seq<WatcherStore.WatcherState>, vs: seq<Visit>)
    ensures var runIds, after := TallyOf(cfg, log, vs).runIds, LogFrom(cfg, log, vs);
            && log <= after && |after| == |log| + |runIds|
            && forall k: nat | k < |runIds| :: after[|log| + k].lastRunId == TrimSpace(runIds[k])
    decreases |vs|
  {
    hide MoveOf, TrimSpace;
    if vs != [] {
      var after := LogAfter(cfg, log, vs[0]);
      RunIdsAreStored(cfg, after, vs[1..]);
      OneRunId(cfg, log, vs[0]);
    }
  }

  lemma OneRunId(cfg: Config, log: seq<WatcherStore.WatcherState>, v: Visit)
    ensures var runIds, after := TallyMove(MoveOf(cfg, log, v), v).runIds, LogAfter(cfg, log, v);
            && log <= after && |after| == |log| + |runIds|
            && forall k: nat | k < |runIds| :: after[|log| + k].lastRunId == TrimSpace(runIds[k])
  {
  }

  /** So the runs a cycle reports are those of the checkpoints it appended, in order. */
  lemma {:induction false} ReportedRunsAreStored(cfg: Config, env: CycleEnv, log: seq<WatcherStore.WatcherState>,
                                                 turns: seq<seq<Visit>>)
    requires |turns| <= |cfg.tenants|
    requires forall i: nat | i < |turns| && !env.searchUp(cfg.tenants[i]) :: turns[i] == []
    ensures var runIds, after := Total(cfg, env, log, turns).tally.runIds, AfterTurns(cfg, log, turns);
            && log <= after && |after| == |log| + |runIds|
            && forall k: nat | k < |runIds| :: after[|log| + k].lastRunId == TrimSpace(runIds[k])
  {
    hide TenantResult, Taken, LogFrom, TallyOf, AfterTurns, Total, TrimSpace;
    if turns == [] {
      NoTurns(cfg, env, log);
    } else {
      var n := |turns| - 1;
      var first := turns[..n];
      assert turns == first + [turns[n]];
      ReportedRunsAreStored(cfg, env, log, first);
      AfterOneMore(cfg, log, first, turns[n]);
      TotalOneMore(cfg, env, log, first, turns[n]);
      TenantRunIds(cfg, env, cfg.tenants[n], AfterTurns(cfg, log, first), turns[n]);
    }
  }

  lemma TenantRunIds(cfg: Config, env: CycleEnv, tenant: string, log: seq<WatcherStore.WatcherState>, turn: seq<Visit>)
    requires !env.searchUp(tenant) ==> turn == []
    ensures var runIds := TenantResult(cfg, env, tenant, log, turn).tally.runIds;
            var after := LogFrom(cfg, log, Taken(cfg, log, turn, 0));
            && log <= after && |after| == |log| + |runIds|
            && forall k: nat | k < |runIds| :: after[|log| + k].lastRunId == TrimSpace(runIds[k])
  {
    hide MoveOf, LogAfter, TrimSpace, TallyMove;
    RunIdsAreStored(cfg, log, Taken(cfg, log, turn, 0));
  }
}
