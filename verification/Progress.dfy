/**
 * The cap of RunCycle: how many candidates one cycle processes for a tenant,
 * and how many cycles it takes to process them all.
 */
module Progress {
  import opened Wrappers
  import opened Text
  import opened Times
  import opened Events
  import opened Candidates
  import opened WatcherStore
  import opened Checkpoints

  /** The visits of one tenant's ranked candidates that a cycle gets to before the cap stops it. */
  function Taken(cfg: Config, log: seq<WatcherState>, vs: seq<Visit>, triggered: nat): seq<Visit>
    decreases |vs|
  {
    if vs == [] || triggered >= cfg.maxRunsPerCycle then []
    else [vs[0]] + Taken(cfg, LogAfter(cfg, log, vs[0]), vs[1..],
                         triggered + if MoveOf(cfg, log, vs[0]).Trigger? then 1 else 0)
  }

  lemma {:induction false} TakenPrefix(cfg: Config, log: seq<WatcherState>, vs: seq<Visit>, triggered: nat)
    ensures Taken(cfg, log, vs, triggered) <= vs
    decreases |vs|
  {
    hide MoveOf, LogAfter;
    if vs != [] && triggered < cfg.maxRunsPerCycle {
      TakenPrefix(cfg, LogAfter(cfg, log, vs[0]), vs[1..],
          triggered + if MoveOf(cfg, log, vs[0]).Trigger? then 1 else 0);
    }
  }

  function LogFrom(cfg: Config, log: seq<WatcherState>, vs: seq<Visit>): seq<WatcherState>
    decreases |vs|
  {
    if vs == [] then log else LogFrom(cfg, LogAfter(cfg, log, vs[0]), vs[1..])
  }

  function CountMoves(cfg: Config, log: seq<WatcherState>, vs: seq<Visit>, move: Move): nat
    decreases |vs|
  {
    if vs == [] then 0
    else (if MoveOf(cfg, log, vs[0]) == move then 1 else 0) + CountMoves(cfg, LogAfter(cfg, log, vs[0]), vs[1..], move)
  }

  /** One checkpoint a trigger. */
  lemma {:induction false} TriggersGrowLog(cfg: Config, log: seq<WatcherState>, vs: seq<Visit>)
    ensures log <= LogFrom(cfg, log, vs)
    ensures |LogFrom(cfg, log, vs)| == |log| + CountMoves(cfg, log, vs, Trigger)
    decreases |vs|
  {
    if vs != [] {
      TriggersGrowLog(cfg, LogAfter(cfg, log, vs[0]), vs[1..]);
    }
  }

  lemma {:induction false} LogFromConcat(cfg: Config, log: seq<WatcherState>, a: seq<Visit>, b: seq<Visit>)
    ensures LogFrom(cfg, log, a + b) == LogFrom(cfg, LogFrom(cfg, log, a), b)
    decreases |a|
  {
    if a == [] {
      assert a + b == b;
    } else {
      LogFromConcat(cfg, LogAfter(cfg, log, a[0]), a[1..], b);
      assert (a + b)[1..] == a[1..] + b;
    }
  }

  /** The log of a whole run, continued. */
  lemma {:induction false} LogOfAppend(cfg: Config, before: seq<Visit>, vs: seq<Visit>)
    ensures LogOf(cfg, before + vs) == LogFrom(cfg, LogOf(cfg, before), vs)
    decreases |vs|
  {
    if vs == [] {
      assert before + vs == before;
    } else {
      var first := before + [vs[0]];
      assert first[..|before|] == before;
      LogOfAppend(cfg, first, vs[1..]);
      assert before + vs == first + vs[1..];
    }
  }

  /** However many candidates there are, a cycle never stores more checkpoints than the cap. */
  lemma {:induction false} CapHolds(cfg: Config, log: seq<WatcherState>, vs: seq<Visit>, triggered: nat)
    requires triggered <= cfg.maxRunsPerCycle
    ensures triggered + CountMoves(cfg, log, Taken(cfg, log, vs, triggered), Trigger) <= cfg.maxRunsPerCycle
    decreases |vs|
  {
    if vs != [] && triggered < cfg.maxRunsPerCycle {
      var taken := Taken(cfg, log, vs, triggered);
      CapHolds(cfg, LogAfter(cfg, log, vs[0]), vs[1..], triggered + if MoveOf(cfg, log, vs[0]).Trigger? then 1 else 0);
      assert taken[1..] == Taken(cfg, LogAfter(cfg, log, vs[0]), vs[1..],
                                 triggered + if MoveOf(cfg, log, vs[0]).Trigger? then 1 else 0);
    }
  }

  // ---------------------------------------------------------------- candidates still to process

  type Pair = (string, string)          // a key and the id of its latest event

  function PairOf(cfg: Config, v: Visit): Pair {
    (KeyOf(cfg, v), v.candidate.latest.eventId)
  }

  function Pairs(cfg: Config, vs: seq<Visit>): set<Pair> {
    set v | v in vs :: PairOf(cfg, v)
  }

  predicate Processed(log: seq<WatcherState>, p: Pair) {
    Scan(log, p.0).Some? && Scan(log, p.0).value.lastEventId == p.1
  }

  function Due(log: seq<WatcherState>, pairs: set<Pair>): set<Pair> {
    set p | p in pairs && !Processed(log, p)
  }

  /** Nothing fails for this visit. */
  predicate NoFailure(cfg: Config, v: Visit) {
    && v.answers.getUp && !v.answers.run.RunFailed? && v.answers.putUp
    && ValidState(NewState(cfg, v)) && Trimmed(v.candidate.latest.eventId)
  }

  predicate Fresh(cfg: Config, log: seq<WatcherState>, v: Visit) {
    forall k: nat | k < |log| && log[k].key == KeyOf(cfg, v) :: log[k].updatedAt < v.now
  }

  /** One tenant's part of a cycle in which nothing fails, on distinct keys, later than every checkpoint. */
  ghost predicate GoodTurn(cfg: Config, log: seq<WatcherState>, vs: seq<Visit>, now: Time) {
    && GoodKeys(cfg)
    && (forall i: nat | i < |vs| :: NoFailure(cfg, vs[i]) && vs[i].now == now && Fresh(cfg, log, vs[i]))
    && (forall i: nat, j: nat | i < j < |vs| :: KeyOf(cfg, vs[i]) != KeyOf(cfg, vs[j]))
  }

  lemma {:induction false} ScanIsFromLog(log: seq<WatcherState>, key: string)
    ensures Scan(log, key).Some? ==> Scan(log, key).value in log && Scan(log, key).value.key == key
  {
    if log != [] {
      ScanIsFromLog(log[..|log| - 1], key);
      assert log == log[..|log| - 1] + [log[|log| - 1]];
    }
  }

  lemma TriggerProcesses(cfg: Config, log: seq<WatcherState>, v: Visit)
    requires GoodKeys(cfg) && NoFailure(cfg, v) && Fresh(cfg, log, v)
    ensures MoveOf(cfg, log, v) == if Processed(log, PairOf(cfg, v)) then Skip else Trigger
    ensures Processed(LogAfter(cfg, log, v), PairOf(cfg, v))
    ensures forall p: Pair | p.0 != KeyOf(cfg, v) :: Processed(LogAfter(cfg, log, v), p) <==> Processed(log, p)
  {
    var after := LogAfter(cfg, log, v);
    ScanIsFromLog(log, KeyOf(cfg, v));
    assert Trimmed(KeyOf(cfg, v));
    if after != log {
      assert after[..|after| - 1] == log;
    }
  }

  lemma GoodTurnTail(cfg: Config, log: seq<WatcherState>, vs: seq<Visit>, now: Time)
    requires GoodTurn(cfg, log, vs, now) && vs != []
    ensures GoodTurn(cfg, LogAfter(cfg, log, vs[0]), vs[1..], now)
  {
    var after := LogAfter(cfg, log, vs[0]);
    assert Trimmed(KeyOf(cfg, vs[0]));
    forall i: nat | i < |vs[1..]|
      ensures NoFailure(cfg, vs[1..][i]) && vs[1..][i].now == now && Fresh(cfg, after, vs[1..][i])
    {
      assert Fresh(cfg, log, vs[i + 1]);
      assert KeyOf(cfg, vs[0]) != KeyOf(cfg, vs[i + 1]);
    }
  }

  lemma PairsCons(cfg: Config, vs: seq<Visit>)
    requires vs != []
    ensures Pairs(cfg, vs) == {PairOf(cfg, vs[0])} + Pairs(cfg, vs[1..])
  {
    assert vs == [vs[0]] + vs[1..];
  }

  lemma OtherKeys(cfg: Config, log: seq<WatcherState>, vs: seq<Visit>, now: Time)
    requires GoodTurn(cfg, log, vs, now) && vs != []
    ensures forall i: nat | i < |vs[1..]| :: KeyOf(cfg, vs[1..][i]) != KeyOf(cfg, vs[0])
    ensures forall p | p in Pairs(cfg, vs[1..]) :: p.0 != KeyOf(cfg, vs[0])
  {
    forall i: nat | i < |vs[1..]|
      ensures KeyOf(cfg, vs[1..][i]) != KeyOf(cfg, vs[0])
    {
      assert KeyOf(cfg, vs[0]) != KeyOf(cfg, vs[i + 1]);
    }
  }

  /** The due pairs of x and of rest, of which only x may change between the two logs. */
  lemma DueSplit(log: seq<WatcherState>, after: seq<WatcherState>, x: Pair, rest: set<Pair>)
    requires x !in rest && forall p | p in rest :: Processed(after, p) <==> Processed(log, p)
    ensures Due(after, rest) == Due(log, rest)
    ensures |Due(log, {x} + rest)| == |Due(log, rest)| + if Processed(log, x) then 0 else 1
  {
    assert Due(log, {x} + rest) == Due(log, rest) + if Processed(log, x) then {} else {x};
  }

  lemma {:induction false} OthersStay(cfg: Config, log: seq<WatcherState>, vs: seq<Visit>, now: Time, p: Pair,
                                      triggered: nat)
    requires GoodTurn(cfg, log, vs, now)
    requires forall i: nat | i < |vs| :: KeyOf(cfg, vs[i]) != p.0
    ensures Processed(LogFrom(cfg, log, Taken(cfg, log, vs, triggered)), p) <==> Processed(log, p)
    decreases |vs|
  {
    if vs != [] && triggered < cfg.maxRunsPerCycle {
      var after := LogAfter(cfg, log, vs[0]);
      var next := triggered + if MoveOf(cfg, log, vs[0]).Trigger? then 1 else 0;
      TriggerProcesses(cfg, log, vs[0]);
      GoodTurnTail(cfg, log, vs, now);
      OthersStay(cfg, after, vs[1..], now, p, next);
      assert Taken(cfg, log, vs, triggered)[1..] == Taken(cfg, after, vs[1..], next);
    }
  }

  /** What the first candidate of a turn does to the count of due pairs, now and at the end of the turn. */
  lemma FirstOfTurn(cfg: Config, log: seq<WatcherState>, vs: seq<Visit>, now: Time, next: nat)
    requires GoodTurn(cfg, log, vs, now) && vs != []
    ensures var after := LogAfter(cfg, log, vs[0]);
            var end := LogFrom(cfg, after, Taken(cfg, after, vs[1..], next));
            && |Due(log, Pairs(cfg, vs))|
                == |Due(after, Pairs(cfg, vs[1..]))| + (if MoveOf(cfg, log, vs[0]).Trigger? then 1 else 0)
            && |Due(end, Pairs(cfg, vs))| == |Due(end, Pairs(cfg, vs[1..]))|
  {
    var after := LogAfter(cfg, log, vs[0]);
    var end := LogFrom(cfg, after, Taken(cfg, after, vs[1..], next));
    var x, rest := PairOf(cfg, vs[0]), Pairs(cfg, vs[1..]);
    PairsCons(cfg, vs);
    OtherKeys(cfg, log, vs, now);
    assert NoFailure(cfg, vs[0]) && Fresh(cfg, log, vs[0]);
    TriggerProcesses(cfg, log, vs[0]);
    DueSplit(log, after, x, rest);
    GoodTurnTail(cfg, log, vs, now);
    OthersStay(cfg, after, vs[1..], now, x, next);
    DueSplit(end, end, x, rest);
  }

  function Min(a: int, b: int): int {
    if a <= b then a else b
  }

  lemma UnrollTaken(cfg: Config, log: seq<WatcherState>, vs: seq<Visit>, triggered: nat)
    requires vs != [] && triggered < cfg.maxRunsPerCycle
    ensures var after := LogAfter(cfg, log, vs[0]);
            var first := if MoveOf(cfg, log, vs[0]).Trigger? then 1 else 0;
            var taken := Taken(cfg, log, vs, triggered);
            var rest := Taken(cfg, after, vs[1..], triggered + first);
            && LogFrom(cfg, log, taken) == LogFrom(cfg, after, rest)
            && CountMoves(cfg, log, taken, Trigger) == first + CountMoves(cfg, after, rest, Trigger)
  {
    var next := triggered + if MoveOf(cfg, log, vs[0]).Trigger? then 1 else 0;
    assert Taken(cfg, log, vs, triggered)[1..] == Taken(cfg, LogAfter(cfg, log, vs[0]), vs[1..], next);
  }

  /** A turn without failures triggers exactly min(cap left, due), and takes that many off the due ones. */
  lemma {:induction false} TurnTriggersExactly(cfg: Config, log: seq<WatcherState>, vs: seq<Visit>, now: Time,
                                               triggered: nat)
    requires GoodTurn(cfg, log, vs, now) && triggered <= cfg.maxRunsPerCycle
    ensures var taken := Taken(cfg, log, vs, triggered);
            var due := |Due(log, Pairs(cfg, vs))|;
            var count := CountMoves(cfg, log, taken, Trigger);
            && count == Min(cfg.maxRunsPerCycle - triggered, due)
            && |Due(LogFrom(cfg, log, taken), Pairs(cfg, vs))| == due - count
    decreases |vs|
  {
    hide MoveOf, LogAfter;
    if vs == [] {
      assert Due(log, Pairs(cfg, vs)) == {};
    } else if triggered < cfg.maxRunsPerCycle {
      var after := LogAfter(cfg, log, vs[0]);
      var next := triggered + if MoveOf(cfg, log, vs[0]).Trigger? then 1 else 0;
      UnrollTaken(cfg, log, vs, triggered);
      GoodTurnTail(cfg, log, vs, now);
      FirstOfTurn(cfg, log, vs, now, next);
      TurnTriggersExactly(cfg, after, vs[1..], now, next);
    }
  }

  // ---------------------------------------------------------------- cycle after cycle

  function AfterTurns(cfg: Config, log: seq<WatcherState>, turns: seq<seq<Visit>>): seq<WatcherState> {
    if turns == [] then log
    else
      var before := AfterTurns(cfg, log, turns[..|turns| - 1]);
      LogFrom(cfg, before, Taken(cfg, before, turns[|turns| - 1], 0))
  }

  /** Turns of one cycle after another. */
  lemma {:induction false} AfterTurnsConcat(cfg: Config, log: seq<WatcherState>, a: seq<seq<Visit>>, b: seq<seq<Visit>>)
    ensures AfterTurns(cfg, log, a + b) == AfterTurns(cfg, AfterTurns(cfg, log, a), b)
    decreases |b|
  {
    if b == [] {
      assert a + b == a;
    } else {
      var n := |b| - 1;
      AfterTurnsConcat(cfg, log, a, b[..n]);
      assert (a + b)[..|a + b| - 1] == a + b[..n];
    }
  }

  /** A turn of another tenant: none of its keys is one of pairs. It may fail anywhere. */
  predicate Foreign(cfg: Config, turn: seq<Visit>, pairs: set<Pair>) {
    forall v, p | v in turn && p in pairs :: KeyOf(cfg, v) != p.0
  }

  /**
   * Turns of any tenants over any number of cycles, in which the turns marked
   * mine are of one tenant, do not fail, and always find the candidates of pairs.
   */
  ghost predicate SteadyTurns(cfg: Config, log: seq<WatcherState>, turns: seq<seq<Visit>>, mine: seq<bool>,
                              pairs: set<Pair>)
    decreases |turns|
  {
    |mine| == |turns| &&
    (turns == [] ||
     var n := |turns| - 1;
     && SteadyTurns(cfg, log, turns[..n], mine[..n], pairs)
     && if mine[n] then
          && Pairs(cfg, turns[n]) == pairs
          && exists now: Time :: GoodTurn(cfg, AfterTurns(cfg, log, turns[..n]), turns[n], now)
        else Foreign(cfg, turns[n], pairs))
  }

  function CountMine(mine: seq<bool>): nat {
    if mine == [] then 0 else CountMine(mine[..|mine| - 1]) + if mine[|mine| - 1] then 1 else 0
  }

  /** How many of due candidates are left after done of them. */
  function Left(due: nat, done: int): nat {
    if due > done then due - done else 0
  }

  lemma {:induction false} ForeignKeepsPair(cfg: Config, log: seq<WatcherState>, vs: seq<Visit>, p: Pair)
    requires GoodKeys(cfg) && forall v | v in vs :: KeyOf(cfg, v) != p.0
    ensures Processed(LogFrom(cfg, log, vs), p) <==> Processed(log, p)
    decreases |vs|
  {
    if vs != [] {
      var after := LogAfter(cfg, log, vs[0]);
      assert vs[0] in vs && Trimmed(KeyOf(cfg, vs[0]));
      if after != log {
        assert after[..|after| - 1] == log;
      }
      assert forall v | v in vs[1..] :: v in vs;
      ForeignKeepsPair(cfg, after, vs[1..], p);
    }
  }

  lemma ForeignKeepsDue(cfg: Config, log: seq<WatcherState>, turn: seq<Visit>, pairs: set<Pair>)
    requires GoodKeys(cfg) && Foreign(cfg, turn, pairs)
    ensures Due(LogFrom(cfg, log, Taken(cfg, log, turn, 0)), pairs) == Due(log, pairs)
  {
    var taken := Taken(cfg, log, turn, 0);
    TakenPrefix(cfg, log, turn, 0);
    forall p | p in pairs
      ensures Processed(LogFrom(cfg, log, taken), p) <==> Processed(log, p)
    {
      forall v | v in taken
        ensures KeyOf(cfg, v) != p.0
      {
        assert v in turn;
      }
      ForeignKeepsPair(cfg, log, taken, p);
    }
  }

  /**
   * With C candidates due, k turns of their tenant leave exactly
   * max(0, C - k * MaxRunsPerCycle) of them, whatever the other tenants do in
   * between, and the k-th triggers min(MaxRunsPerCycle, what was left): so all
   * are done after ceil(C / MaxRunsPerCycle) cycles, and from then on the
   * tenant's turns trigger nothing.
   */
  lemma {:induction false} CyclesFinish(cfg: Config, log: seq<WatcherState>, turns: seq<seq<Visit>>, mine: seq<bool>,
                                        pairs: set<Pair>)
    requires cfg.maxRunsPerCycle > 0 && GoodKeys(cfg) && SteadyTurns(cfg, log, turns, mine, pairs)
    ensures |Due(AfterTurns(cfg, log, turns), pairs)| == Left(|Due(log, pairs)|, CountMine(mine) * cfg.maxRunsPerCycle)
    ensures turns != [] && mine[|turns| - 1] ==>
              var before := AfterTurns(cfg, log, turns[..|turns| - 1]);
              CountMoves(cfg, before, Taken(cfg, before, turns[|turns| - 1], 0), Trigger)
              == Min(cfg.maxRunsPerCycle, Left(|Due(log, pairs)|, (CountMine(mine) - 1) * cfg.maxRunsPerCycle))
    decreases |turns|
  {
    hide Taken, LogFrom, CountMoves, GoodTurn, GoodKeys, Pairs, Due, Foreign;
    if turns != [] {
      var n := |turns| - 1;
      CyclesFinish(cfg, log, turns[..n], mine[..n], pairs);
      var before := AfterTurns(cfg, log, turns[..n]);
      if mine[n] {
        var now: Time :| GoodTurn(cfg, before, turns[n], now);
        TurnTriggersExactly(cfg, before, turns[n], now, 0);
        OneMore(|Due(log, pairs)|, CountMine(mine[..n]), cfg.maxRunsPerCycle);
      } else {
        ForeignKeepsDue(cfg, before, turns[n], pairs);
      }
    }
  }

  lemma OneMore(due: nat, n: nat, m: int)
    requires m > 0
    ensures Left(due, n * m) - Min(m, Left(due, n * m)) == Left(due, (n + 1) * m)
  {
    assert (n + 1) * m == n * m + m;
  }
}
