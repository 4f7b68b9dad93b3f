/**
 * Consecutive cycles of internal/agents/runtime/daemon.go, as RunCycle leaves
 * them: how many it takes until every candidate of a tenant is processed.
 */
module Cycles {
  import opened Wrappers
  import opened Text
  import opened Times
  import opened Events
  import opened SessionStore
  import opened Candidates
  import opened WatcherStore
  import opened Checkpoints
  import opened Progress
  import opened Daemon

  /** What one call of RunCycle was given and the turns it made. */
  datatype Cycle = Cycle(now: Time, env: CycleEnv, events: seq<SessionEvent>, turns: seq<seq<Visit>>)

  /** The turns are as RunCycle promises, over a store of events with trimmed ids. */
  ghost predicate IsCycle(cfg: Config, c: Cycle) {
    && |c.turns| == |cfg.tenants| && AreTurns(cfg, c.now, c.events, c.env, c.turns)
    && forall e | e in StoreAfter(cfg, c.env, c.events, |cfg.tenants|) ::
         ValidSession(e) && Trimmed(e.eventId) && Trimmed(e.subscriberId)
  }

  /** Cycles one after another, the first after every checkpoint of log. */
  ghost predicate Consecutive(cfg: Config, log: seq<WatcherState>, cycles: seq<Cycle>) {
    && (forall c | c in cycles :: IsCycle(cfg, c) && c.now != ZERO_TIME)
    && (forall i: nat, j: nat | i < j < |cycles| :: cycles[i].now < cycles[j].now)
    && (forall c, s | c in cycles && s in log :: s.updatedAt < c.now)
  }

  function AllTurns(cycles: seq<Cycle>): seq<seq<Visit>> {
    if cycles == [] then [] else AllTurns(cycles[..|cycles| - 1]) + cycles[|cycles| - 1].turns
  }

  /** Nothing fails for the tenant. */
  ghost predicate FailureFree(env: CycleEnv, tenant: string) {
    && env.searchUp(tenant)
    && forall subscriber: string ::
         env.getUp(tenant, subscriber) && !env.run(tenant, subscriber).RunFailed? && env.putUp(tenant, subscriber)
  }

  /** Subscribers visited in any of the turns do not share keys. */
  ghost predicate KeysApart(cfg: Config, turns: seq<seq<Visit>>) {
    forall a, b, u, v | a in turns && b in turns && u in a && v in b && KeyOf(cfg, u) == KeyOf(cfg, v) ::
      u.tenant == v.tenant && u.candidate.subscriber == v.candidate.subscriber
  }

  /** The t-th tenant never fails and always finds the candidates of pairs. */
  ghost predicate Steady(cfg: Config, cycles: seq<Cycle>, t: nat, pairs: set<Pair>)
    requires t < |cfg.tenants|
  {
    forall c | c in cycles :: FailureFree(c.env, cfg.tenants[t]) && t < |c.turns| && Pairs(cfg, c.turns[t]) == pairs
  }

  // ---------------------------------------------------------------- the turns of a cycle

  lemma {:induction false} StoreGrows(cfg: Config, env: CycleEnv, events: seq<SessionEvent>, i: nat, j: nat)
    requires i <= j <= |cfg.tenants|
    ensures StoreAfter(cfg, env, events, i) <= StoreAfter(cfg, env, events, j)
    decreases j
  {
    if i < j {
      StoreGrows(cfg, env, events, i, j - 1);
    }
  }

  lemma TurnFacts(cfg: Config, now: Time, tenant: string, events: seq<SessionEvent>, env: CycleEnv, turn: seq<Visit>)
    requires cfg.minEvents > 0 && TrimmedIds(events) && IsTenantTurn(cfg, now, tenant, events, env, turn)
    ensures SoundTurn(cfg, now, tenant, events, turn)
    ensures forall v | v in turn :: v.answers == Answers(env.getUp(tenant, v.candidate.subscriber),
                                                         env.run(tenant, v.candidate.subscriber),
                                                         env.putUp(tenant, v.candidate.subscriber))
  {
    hide IsSearch, IsDetected, IsEnriched, SoundTurn;
    if env.searchUp(tenant) {
      var results: seq<SessionEvent>, cands: seq<Candidate> :|
        && IsSearch(SearchQuery(cfg, tenant, now), events, results)
        && IsRanked(cfg, tenant, results, env, cands)
        && turn == VisitsOf(now, tenant, events, results, env, cands);
      var detected: seq<Candidate> :|
        IsDetected(tenant, results, cfg.threshold, cfg.minEvents, detected) && IsEnriched(env, detected, cands);
      TurnIsSound(cfg, now, tenant, events, results, env, detected, cands);
    } else {
      NoVisitsAreSound(cfg, now, tenant, events);
    }
  }

  lemma NoVisitsAreSound(cfg: Config, now: Time, tenant: string, events: seq<SessionEvent>)
    ensures SoundTurn(cfg, now, tenant, events, [])
  {
  }

  /** What is known of the turn of the k-th tenant of a cycle. */
  ghost predicate GoodVisits(cfg: Config, c: Cycle, k: nat)
    requires k < |cfg.tenants| && k < |c.turns|
  {
    && (forall i: nat | i < |c.turns[k]| :: GoodVisit(cfg, c, k, c.turns[k][i]))
    && (forall i: nat, j: nat | i < j < |c.turns[k]| ::
          c.turns[k][i].candidate.subscriber != c.turns[k][j].candidate.subscriber)
  }

  ghost predicate GoodVisit(cfg: Config, c: Cycle, k: nat, v: Visit)
    requires k < |cfg.tenants|
  {
    && v.now == c.now && v.tenant == cfg.tenants[k]
    && !Blank(v.candidate.subscriber) && !Blank(v.candidate.latest.eventId) && Trimmed(v.candidate.latest.eventId)
    && v.answers == Answers(c.env.getUp(v.tenant, v.candidate.subscriber), c.env.run(v.tenant, v.candidate.subscriber),
                            c.env.putUp(v.tenant, v.candidate.subscriber))
  }

  lemma CycleVisits(cfg: Config, c: Cycle, k: nat)
    requires ValidConfig(cfg) && IsCycle(cfg, c) && k < |cfg.tenants|
    ensures GoodVisits(cfg, c, k)
  {
    hide GoodKeys, IsTenantTurn, Legal, ValidSession, Trimmed, Blank, StoreAfter;
    var events := StoreAfter(cfg, c.env, c.events, k + 1);
    StoreGrows(cfg, c.env, c.events, k + 1, |cfg.tenants|);
    assert forall e | e in events :: e in StoreAfter(cfg, c.env, c.events, |cfg.tenants|);
    TurnFacts(cfg, c.now, cfg.tenants[k], events, c.env, c.turns[k]);
    forall i: nat | i < |c.turns[k]|
      ensures GoodVisit(cfg, c, k, c.turns[k][i])
    {
      assert c.turns[k][i] in c.turns[k];
      VisitIsGood(cfg, c.turns[k][i], events);
    }
  }

  lemma VisitIsGood(cfg: Config, v: Visit, events: seq<SessionEvent>)
    requires Legal(cfg, v) && v.events == events
    requires forall e | e in events :: ValidSession(e) && Trimmed(e.eventId)
    ensures !Blank(v.candidate.subscriber) && !Blank(v.candidate.latest.eventId) && Trimmed(v.candidate.latest.eventId)
  {
    LatestFacts(cfg, v);
    TrimNotBlank(v.candidate.latest.subscriberId);
  }

  // ---------------------------------------------------------------- where checkpoints come from

  lemma {:induction false} NewEntries(cfg: Config, log: seq<WatcherState>, vs: seq<Visit>)
    requires GoodKeys(cfg)
    ensures forall s | s in LogFrom(cfg, log, vs) ::
              s in log || exists v | v in vs :: s.key == KeyOf(cfg, v) && s.updatedAt == v.now
    decreases |vs|
  {
    hide GoodKeys, MoveOf;
    if vs != [] {
      var after := LogAfter(cfg, log, vs[0]);
      NewEntries(cfg, after, vs[1..]);
      NewEntry(cfg, log, vs[0]);
      forall s | s in LogFrom(cfg, log, vs)
        ensures s in log || exists v | v in vs :: s.key == KeyOf(cfg, v) && s.updatedAt == v.now
      {
        if s !in after {
          var v :| v in vs[1..] && s.key == KeyOf(cfg, v) && s.updatedAt == v.now;
          assert v in vs;
        } else if s !in log {
          assert vs[0] in vs;
        }
      }
    }
  }

  lemma NewEntry(cfg: Config, log: seq<WatcherState>, v: Visit)
    requires GoodKeys(cfg)
    ensures forall s | s in LogAfter(cfg, log, v) :: s in log || (s.key == KeyOf(cfg, v) && s.updatedAt == v.now)
  {
    hide MoveOf;
    assert Trimmed(KeyOf(cfg, v));
  }

  /** Checkpoints are older than now, or of this time and of a visit of one of the turns. */
  ghost predicate Dated(cfg: Config, log: seq<WatcherState>, now: Time, turns: seq<seq<Visit>>) {
    forall s | s in log :: s.updatedAt < now
      || (s.updatedAt == now && exists turn, v | turn in turns && v in turn :: s.key == KeyOf(cfg, v))
  }

  lemma DatedStep(cfg: Config, log: seq<WatcherState>, now: Time, turns: seq<seq<Visit>>, turn: seq<Visit>)
    requires GoodKeys(cfg) && Dated(cfg, log, now, turns) && forall v | v in turn :: v.now == now
    ensures Dated(cfg, LogFrom(cfg, log, Taken(cfg, log, turn, 0)), now, turns + [turn])
  {
    hide GoodKeys, LogFrom, Taken, KeyOf;
    var taken := Taken(cfg, log, turn, 0);
    TakenPrefix(cfg, log, turn, 0);
    NewEntries(cfg, log, taken);
    var after := LogFrom(cfg, log, taken);
    forall s | s in after
      ensures s.updatedAt < now ||
              (s.updatedAt == now && exists t, v | t in turns + [turn] && v in t :: s.key == KeyOf(cfg, v))
    {
      if s in log && s.updatedAt >= now {
        var t, v :| t in turns && v in t && s.key == KeyOf(cfg, v);
        assert t in turns + [turn];
      } else if s !in log {
        var v :| v in taken && s.key == KeyOf(cfg, v) && s.updatedAt == v.now;
        assert v in turn && turn in turns + [turn];
      }
    }
  }

  // ---------------------------------------------------------------- the tenant's turn and the others

  lemma TurnOfTenant(cfg: Config, c: Cycle, t: nat, turn: seq<Visit>, v: Visit)
    requires ValidConfig(cfg) && t < |cfg.tenants| == |c.turns|
            && (forall k: nat | k < |cfg.tenants| :: GoodVisits(cfg, c, k))
    requires turn in c.turns[..t] && v in turn
    ensures v.tenant != cfg.tenants[t]
  {
    hide GoodKeys, Blank, Trimmed;
    var k: nat :| k < t && c.turns[..t][k] == turn;
    assert GoodVisits(cfg, c, k);
    var i: nat :| i < |turn| && turn[i] == v;
    assert GoodVisit(cfg, c, k, c.turns[k][i]);
  }

  lemma VisitSucceeds(cfg: Config, c: Cycle, t: nat, v: Visit)
    requires ValidConfig(cfg) && t < |cfg.tenants| && GoodVisit(cfg, c, t, v)
    requires FailureFree(c.env, cfg.tenants[t]) && c.now != ZERO_TIME
    ensures NoFailure(cfg, v)
  {
    hide TrimSpace, Trimmed;
    assert !Blank(cfg.keyOf(v.tenant, v.candidate.subscriber));
  }

  /** After the turns of the tenants before it, the tenant's own turn is free of failures and of stale keys. */
  lemma TurnIsGood(cfg: Config, c: Cycle, t: nat, log: seq<WatcherState>, all: seq<seq<Visit>>)
    requires ValidConfig(cfg) && t < |cfg.tenants| == |c.turns|
            && (forall k: nat | k < |cfg.tenants| :: GoodVisits(cfg, c, k))
    requires FailureFree(c.env, cfg.tenants[t]) && c.now != ZERO_TIME
    requires KeysApart(cfg, all) && (forall turn | turn in c.turns :: turn in all)
    requires Dated(cfg, log, c.now, c.turns[..t])
    ensures GoodTurn(cfg, log, c.turns[t], c.now)
  {
    hide FailureFree, NoFailure, GoodKeys, Blank, Trimmed, KeyOf;
    var vs := c.turns[t];
    assert GoodVisits(cfg, c, t) && vs in c.turns && GoodKeys(cfg);
    forall i: nat | i < |vs|
      ensures NoFailure(cfg, vs[i]) && vs[i].now == c.now && Fresh(cfg, log, vs[i])
    {
      assert GoodVisit(cfg, c, t, vs[i]);
      VisitSucceeds(cfg, c, t, vs[i]);
      assert vs[i] in vs && forall turn | turn in c.turns[..t] :: turn in c.turns;
      forall k: nat | k < |log| && log[k].key == KeyOf(cfg, vs[i])
        ensures log[k].updatedAt < vs[i].now
      {
        assert log[k] in log;
        if log[k].updatedAt >= c.now {
          var turn, u :| turn in c.turns[..t] && u in turn && log[k].key == KeyOf(cfg, u);
          TurnOfTenant(cfg, c, t, turn, u);
        }
      }
    }
    forall i: nat, j: nat | i < j < |vs|
      ensures KeyOf(cfg, vs[i]) != KeyOf(cfg, vs[j])
    {
      assert vs[i] in vs && vs[j] in vs;
    }
  }

  lemma TurnIsForeign(cfg: Config, c: Cycle, t: nat, k: nat, pairs: set<Pair>, all: seq<seq<Visit>>)
    requires ValidConfig(cfg) && t < |cfg.tenants| == |c.turns|
            && (forall k: nat | k < |cfg.tenants| :: GoodVisits(cfg, c, k))
    requires k < |cfg.tenants| && k != t && Pairs(cfg, c.turns[t]) == pairs
    requires KeysApart(cfg, all) && (forall turn | turn in c.turns :: turn in all)
    ensures Foreign(cfg, c.turns[k], pairs)
  {
    hide GoodKeys, Blank, Trimmed, KeyOf;
    assert GoodVisits(cfg, c, t) && GoodVisits(cfg, c, k);
    assert c.turns[t] in c.turns && c.turns[k] in c.turns;
    forall v, p | v in c.turns[k] && p in pairs
      ensures KeyOf(cfg, v) != p.0
    {
      var u :| u in c.turns[t] && PairOf(cfg, u) == p;
      var i: nat :| i < |c.turns[k]| && c.turns[k][i] == v;
      var j: nat :| j < |c.turns[t]| && c.turns[t][j] == u;
      assert GoodVisit(cfg, c, k, v) && GoodVisit(cfg, c, t, u);
    }
  }

  // ---------------------------------------------------------------- cycle after cycle

  function Marks(n: nat, t: nat): (marks: seq<bool>)
    ensures |marks| == n && forall i: nat | i < n :: marks[i] <==> i == t
  {
    seq(n, (i: nat) => i == t)
  }

  lemma {:induction false} CountMarks(mine: seq<bool>, n: nat, t: nat)
    ensures CountMine(mine + Marks(n, t)) == CountMine(mine) + (if t < n then 1 else 0)
  {
    var all := mine + Marks(n, t);
    if n == 0 {
      assert all == mine;
    } else {
      CountMarks(mine, n - 1, t);
      assert all[..|all| - 1] == mine + Marks(n - 1, t);
    }
  }

  lemma SteadyAppend(cfg: Config, log: seq<WatcherState>, turns: seq<seq<Visit>>, mine: seq<bool>, pairs: set<Pair>,
                     turn: seq<Visit>, own: bool, now: Time)
    requires SteadyTurns(cfg, log, turns, mine, pairs)
    requires if own then Pairs(cfg, turn) == pairs && GoodTurn(cfg, AfterTurns(cfg, log, turns), turn, now)
             else Foreign(cfg, turn, pairs)
    ensures SteadyTurns(cfg, log, turns + [turn], mine + [own], pairs)
  {
    hide GoodTurn, Foreign, Pairs, AfterTurns;
    assert (turns + [turn])[..|turns|] == turns && (mine + [own])[..|mine|] == mine;
  }

  /** What the induction over the turns of a cycle needs of the cycle. */
  ghost predicate FitsIn(cfg: Config, c: Cycle, t: nat, pairs: set<Pair>, all: seq<seq<Visit>>) {
    && t < |cfg.tenants| == |c.turns| && (forall k: nat | k < |cfg.tenants| :: GoodVisits(cfg, c, k))
    && FailureFree(c.env, cfg.tenants[t]) && c.now != ZERO_TIME && Pairs(cfg, c.turns[t]) == pairs
    && KeysApart(cfg, all) && (forall turn | turn in c.turns :: turn in all)
  }

  lemma NextTurn(cfg: Config, log: seq<WatcherState>, done: seq<seq<Visit>>, mine: seq<bool>, c: Cycle, t: nat,
                 pairs: set<Pair>, all: seq<seq<Visit>>, k: nat)
    requires ValidConfig(cfg) && FitsIn(cfg, c, t, pairs, all) && k < |c.turns|
    requires SteadyTurns(cfg, log, done, mine, pairs) && Dated(cfg, AfterTurns(cfg, log, done), c.now, c.turns[..k])
    ensures SteadyTurns(cfg, log, done + [c.turns[k]], mine + [k == t], pairs)
    ensures Dated(cfg, AfterTurns(cfg, log, done + [c.turns[k]]), c.now, c.turns[..k + 1])
  {
    hide GoodTurn, Foreign, Pairs, AfterTurns, SteadyTurns, Dated, KeysApart, FailureFree, LogFrom, Taken, Blank,
         Trimmed;
    var before := AfterTurns(cfg, log, done);
    if k == t {
      TurnIsGood(cfg, c, t, before, all);
    } else {
      TurnIsForeign(cfg, c, t, k, pairs, all);
    }
    SteadyAppend(cfg, log, done, mine, pairs, c.turns[k], k == t, c.now);
    assert GoodVisits(cfg, c, k) && GoodKeys(cfg);
    forall v | v in c.turns[k]
      ensures v.now == c.now
    {
      var i: nat :| i < |c.turns[k]| && c.turns[k][i] == v;
      assert GoodVisit(cfg, c, k, v);
    }
    DatedStep(cfg, before, c.now, c.turns[..k], c.turns[k]);
    AfterOneMore(cfg, log, done, c.turns[k]);
    assert c.turns[..k + 1] == c.turns[..k] + [c.turns[k]];
  }

  lemma {:induction false} TurnsOfCycle(cfg: Config, log: seq<WatcherState>, done: seq<seq<Visit>>, mine: seq<bool>,
                                        c: Cycle,
                                        t: nat, pairs: set<Pair>, all: seq<seq<Visit>>, k: nat)
    requires ValidConfig(cfg) && FitsIn(cfg, c, t, pairs, all) && k <= |c.turns|
    requires SteadyTurns(cfg, log, done, mine, pairs) && Dated(cfg, AfterTurns(cfg, log, done), c.now, [])
    ensures SteadyTurns(cfg, log, done + c.turns[..k], mine + Marks(k, t), pairs)
    ensures Dated(cfg, AfterTurns(cfg, log, done + c.turns[..k]), c.now, c.turns[..k])
    decreases k
  {
    hide FitsIn, ValidConfig, AfterTurns, SteadyTurns, Dated;
    if k == 0 {
      assert done + c.turns[..k] == done && mine + Marks(k, t) == mine && c.turns[..k] == [];
    } else {
      TurnsOfCycle(cfg, log, done, mine, c, t, pairs, all, k - 1);
      NextTurn(cfg, log, done + c.turns[..k - 1], mine + Marks(k - 1, t), c, t, pairs, all, k - 1);
      assert done + c.turns[..k] == done + c.turns[..k - 1] + [c.turns[k - 1]];
      assert mine + Marks(k, t) == mine + Marks(k - 1, t) + [k - 1 == t];
    }
  }

  function AllMarks(cycles: seq<Cycle>, t: nat): seq<bool> {
    if cycles == [] then [] else AllMarks(cycles[..|cycles| - 1], t) + Marks(|cycles[|cycles| - 1].turns|, t)
  }

  /** Every checkpoint is old, or no later than the last cycle. */
  ghost predicate UpTo(log: seq<WatcherState>, after: seq<WatcherState>, cycles: seq<Cycle>) {
    forall s | s in after :: s in log || (cycles != [] && s.updatedAt <= cycles[|cycles| - 1].now)
  }

  lemma CycleFits(cfg: Config, log: seq<WatcherState>, cycles: seq<Cycle>, t: nat, pairs: set<Pair>,
                  all: seq<seq<Visit>>)
    requires ValidConfig(cfg) && t < |cfg.tenants| && cycles != [] && Consecutive(cfg, log, cycles)
    requires Steady(cfg, cycles, t, pairs) && KeysApart(cfg, all)
    requires forall turn | turn in cycles[|cycles| - 1].turns :: turn in all
    ensures FitsIn(cfg, cycles[|cycles| - 1], t, pairs, all)
  {
    hide GoodVisits, FailureFree, KeysApart, Pairs, AreTurns, GoodKeys, StoreAfter, ValidSession;
    var c := cycles[|cycles| - 1];
    assert c in cycles;
    forall k: nat | k < |cfg.tenants|
      ensures GoodVisits(cfg, c, k)
    {
      CycleVisits(cfg, c, k);
    }
  }

  lemma ConsecutivePrefix(cfg: Config, log: seq<WatcherState>, cycles: seq<Cycle>, t: nat, pairs: set<Pair>)
    requires cycles != [] && t < |cfg.tenants| && Consecutive(cfg, log, cycles) && Steady(cfg, cycles, t, pairs)
    ensures Consecutive(cfg, log, cycles[..|cycles| - 1]) && Steady(cfg, cycles[..|cycles| - 1], t, pairs)
  {
    hide IsCycle, FailureFree, Pairs;
    assert forall c | c in cycles[..|cycles| - 1] :: c in cycles;
  }

  lemma NowIsLater(cfg: Config, log: seq<WatcherState>, after: seq<WatcherState>, cycles: seq<Cycle>)
    requires cycles != [] && Consecutive(cfg, log, cycles) && UpTo(log, after, cycles[..|cycles| - 1])
    ensures Dated(cfg, after, cycles[|cycles| - 1].now, [])
  {
    hide IsCycle;
    assert cycles[|cycles| - 1] in cycles;
  }

  lemma StillUpTo(cfg: Config, log: seq<WatcherState>, after: seq<WatcherState>, cycles: seq<Cycle>,
                  turns: seq<seq<Visit>>)
    requires cycles != [] && Dated(cfg, after, cycles[|cycles| - 1].now, turns)
    ensures UpTo(log, after, cycles)
  {
    hide KeyOf;
  }

  /** Cycles that RunCycle made are steady turns of their tenant. */
  lemma {:induction false} CyclesAreSteady(cfg: Config, log: seq<WatcherState>, cycles: seq<Cycle>, t: nat,
                                           pairs: set<Pair>,
                                           all: seq<seq<Visit>>)
    requires ValidConfig(cfg) && t < |cfg.tenants| && Consecutive(cfg, log, cycles) && Steady(cfg, cycles, t, pairs)
    requires KeysApart(cfg, all) && forall turn | turn in AllTurns(cycles) :: turn in all
    ensures SteadyTurns(cfg, log, AllTurns(cycles), AllMarks(cycles, t), pairs)
    ensures UpTo(log, AfterTurns(cfg, log, AllTurns(cycles)), cycles)
    ensures CountMine(AllMarks(cycles, t)) == |cycles|
    decreases |cycles|
  {
    hide ValidConfig, Consecutive, Steady, KeysApart, UpTo, FitsIn, Dated;
    if cycles == [] {
      NoCycles(cfg, log, pairs);
    } else {
      var n := |cycles| - 1;
      var c, before := cycles[n], cycles[..n];
      ConsecutivePrefix(cfg, log, cycles, t, pairs);
      CyclesAreSteady(cfg, log, before, t, pairs, all);
      CycleFits(cfg, log, cycles, t, pairs, all);
      NowIsLater(cfg, log, AfterTurns(cfg, log, AllTurns(before)), cycles);
      TurnsOfCycle(cfg, log, AllTurns(before), AllMarks(before, t), c, t, pairs, all, |c.turns|);
      assert c.turns[..|c.turns|] == c.turns;
      StillUpTo(cfg, log, AfterTurns(cfg, log, AllTurns(cycles)), cycles, c.turns);
      CountMarks(AllMarks(before, t), |c.turns|, t);
      FitsLength(cfg, c, t, pairs, all);
    }
  }

  lemma FitsLength(cfg: Config, c: Cycle, t: nat, pairs: set<Pair>, all: seq<seq<Visit>>)
    requires FitsIn(cfg, c, t, pairs, all)
    ensures t < |c.turns|
  {
  }

  lemma NoCycles(cfg: Config, log: seq<WatcherState>, pairs: set<Pair>)
    ensures SteadyTurns(cfg, log, [], [], pairs) && UpTo(log, AfterTurns(cfg, log, []), [])
  {
  }

  /** The log RunCycle leaves after the last of several cycles is the log of all their turns. */
  lemma LogOfCycles(cfg: Config, log: seq<WatcherState>, cycles: seq<Cycle>)
    requires cycles != []
    ensures var n := |cycles| - 1;
            AfterTurns(cfg, log, AllTurns(cycles)) ==
            AfterTurns(cfg, AfterTurns(cfg, log, AllTurns(cycles[..n])), cycles[n].turns)
  {
    AfterTurnsConcat(cfg, log, AllTurns(cycles[..|cycles| - 1]), cycles[|cycles| - 1].turns);
  }

  /**
   * Over any number of consecutive cycles in which a tenant never fails and
   * always finds the same candidates, whatever the other tenants do: with C of
   * them unprocessed, k cycles leave exactly max(0, C - k * MaxRunsPerCycle).
   */
  lemma CandidatesAreProcessed(cfg: Config, log: seq<WatcherState>, cycles: seq<Cycle>, t: nat, pairs: set<Pair>)
    requires ValidConfig(cfg) && t < |cfg.tenants| && Consecutive(cfg, log, cycles) && Steady(cfg, cycles, t, pairs)
    requires KeysApart(cfg, AllTurns(cycles))
    ensures |Due(AfterTurns(cfg, log, AllTurns(cycles)), pairs)|
            == Left(|Due(log, pairs)|, |cycles| * cfg.maxRunsPerCycle)
  {
    hide Consecutive, Steady, KeysApart, AfterTurns, Due, GoodKeys, SteadyTurns;
    CyclesAreSteady(cfg, log, cycles, t, pairs, AllTurns(cycles));
    CyclesFinish(cfg, log, AllTurns(cycles), AllMarks(cycles, t), pairs);
  }

  /**
   * And the next such cycle reports min(MaxRunsPerCycle, what is left) runs for
   * the tenant: none, once all are done.
   */
  lemma NextCycleTriggers(cfg: Config, log: seq<WatcherState>, cycles: seq<Cycle>, t: nat, pairs: set<Pair>)
    requires ValidConfig(cfg) && t < |cfg.tenants| && cycles != []
    requires Consecutive(cfg, log, cycles) && Steady(cfg, cycles, t, pairs) && KeysApart(cfg, AllTurns(cycles))
    requires t < |cycles[|cycles| - 1].turns|
    ensures var n := |cycles| - 1;
            var before := AfterTurns(cfg, log, AllTurns(cycles[..n]) + cycles[n].turns[..t]);
            TenantResult(cfg, cycles[n].env, cfg.tenants[t], before, cycles[n].turns[t]).tally.triggered
            == Min(cfg.maxRunsPerCycle, Left(|Due(log, pairs)|, n * cfg.maxRunsPerCycle))
  {
    hide Consecutive, Steady, KeysApart, AfterTurns, Due, GoodKeys, SteadyTurns, FitsIn, UpTo, Dated, Taken,
         CountMoves, TallyOf;
    var n := |cycles| - 1;
    var c, all := cycles[n], AllTurns(cycles);
    var done, mine := AllTurns(cycles[..n]), AllMarks(cycles[..n], t);
    ConsecutivePrefix(cfg, log, cycles, t, pairs);
    CyclesAreSteady(cfg, log, cycles[..n], t, pairs, all);
    CycleFits(cfg, log, cycles, t, pairs, all);
    NowIsLater(cfg, log, AfterTurns(cfg, log, done), cycles);
    TurnsOfCycle(cfg, log, done, mine, c, t, pairs, all, t + 1);
    CountMarks(mine, t + 1, t);
    var turns := done + c.turns[..t + 1];
    var marks := mine + Marks(t + 1, t);
    SameLength(cfg, log, turns, marks, pairs);
    assert turns[..|turns| - 1] == done + c.turns[..t] && turns[|turns| - 1] == c.turns[t];
    assert marks[|marks| - 1];
    CyclesFinish(cfg, log, turns, marks, pairs);
    var before := AfterTurns(cfg, log, done + c.turns[..t]);
    TallyMeaning(cfg, before, Taken(cfg, before, c.turns[t], 0));
    SearchIsUp(cfg, cycles, t, pairs);
  }

  lemma SameLength(cfg: Config, log: seq<WatcherState>, turns: seq<seq<Visit>>, mine: seq<bool>, pairs: set<Pair>)
    requires SteadyTurns(cfg, log, turns, mine, pairs)
    ensures |turns| == |mine|
  {
  }

  lemma SearchIsUp(cfg: Config, cycles: seq<Cycle>, t: nat, pairs: set<Pair>)
    requires t < |cfg.tenants| && cycles != [] && Steady(cfg, cycles, t, pairs)
    ensures cycles[|cycles| - 1].env.searchUp(cfg.tenants[t])
  {
    assert cycles[|cycles| - 1] in cycles;
  }
}
