/**
 * The asynchronous log handler of internal/platform/logging/async_handler.go.
 *
 * Many goroutines call Handle, one goroutine drains the queue, and any number
 * of goroutines may call Shutdown. A step is one region under the mutex, one
 * channel operation, or one call of the wrapped handler; any enabled step may
 * happen next. The dropped counter is an unsigned 64-bit integer and wraps.
 */
module AsyncLog {

  const LEVEL_ERROR := 8
  const UINT64_SIZE := 0x1_0000_0000_0000_0000

  datatype Record = Record(id: nat, level: int)

  /** A queued record with the handler (attributes and groups) it was logged through. */
  datatype Entry = Entry(handler: nat, record: Record)

  /** A call of a wrapped handler. */
  datatype Call =
    | Queued(entry: Entry)            // made by the drain goroutine
    | Direct(entry: Entry)            // made by the goroutine that logged
    | Report(handler: nat, count: nat)

  datatype Drain =
    | Receiving
    | Taking(entry: Entry)            // received, before the swap in flushDropped
    | Reporting(entry: Entry, taken: nat)
    | Delivering(entry: Entry)
    | FinalTaking                     // the queue is closed and empty
    | FinalReporting(taken: nat)
    | Closing                         // before close(done)
    | Done

  datatype State = State(
    queue: seq<Entry>,
    queueClosed: bool,
    closed: bool,
    onceDone: bool,
    dropped: nat,
    drain: Drain,
    direct: seq<Entry>,               // Handle calls that owe a direct handler call
    calls: seq<Call>,                 // handler calls so far, in order
    // history, read by no branch
    accepted: seq<Entry>,
    refused: seq<Entry>,              // counted by dropped++
    bypassed: seq<Entry>,             // logged after close
    wraps: nat,
    panicked: bool                    // a send on, or a second close of, a closed queue
  )

  datatype Config = Config(capacity: nat, base: nat)

  function Init(): State {
    State([], false, false, false, 0, Receiving, [], [], [], [], [], 0, false)
  }

  datatype Step =
    | Handle(entry: Entry)            // the region of Handle under the mutex
    | CallDirect(k: nat)              // the handler call after the mutex is released
    | Shutdown                        // the body given to once.Do, or nothing
    | ReceiveEntry
    | TakeDropped
    | ReportDropped
    | Deliver
    | SeeClosed
    | CloseDone

  predicate IsDrainStep(step: Step) {
    !step.Handle? && !step.CallDirect? && !step.Shutdown?
  }

  predicate Enabled(s: State, step: Step) {
    match step
    case Handle(_) => true
    case CallDirect(k) => k < |s.direct|
    case Shutdown => true
    case ReceiveEntry => s.drain.Receiving? && s.queue != []
    case TakeDropped => s.drain.Taking? || s.drain.FinalTaking?
    case ReportDropped => s.drain.Reporting? || s.drain.FinalReporting?
    case Deliver => s.drain.Delivering?
    case SeeClosed => s.drain.Receiving? && s.queue == [] && s.queueClosed
    case CloseDone => s.drain.Closing?
  }

  function Next(cfg: Config, s: State, step: Step): State
    requires Enabled(s, step)
  {
    match step
    case Handle(entry) =>
      if s.closed then
        s.(direct := s.direct + [entry], bypassed := s.bypassed + [entry])
      else if s.queueClosed then
        s.(panicked := true)
      else if |s.queue| < cfg.capacity then
        s.(queue := s.queue + [entry], accepted := s.accepted + [entry])
      else
        s.(dropped := if s.dropped + 1 == UINT64_SIZE then 0 else s.dropped + 1,
           wraps := if s.dropped + 1 == UINT64_SIZE then s.wraps + 1 else s.wraps,
           refused := s.refused + [entry],
           direct := if entry.record.level >= LEVEL_ERROR then s.direct + [entry] else s.direct)
    case CallDirect(k) =>
      s.(direct := s.direct[..k] + s.direct[k + 1..], calls := s.calls + [Direct(s.direct[k])])
    case Shutdown =>
      if s.onceDone then s
      else s.(onceDone := true, closed := true, queueClosed := true,
              panicked := s.panicked || s.queueClosed)
    case ReceiveEntry =>
      s.(queue := s.queue[1..], drain := Taking(s.queue[0]))
    case TakeDropped =>
      var taken := s.(dropped := 0);
      if s.drain.Taking? then
        taken.(drain := if s.dropped == 0 then Delivering(s.drain.entry) else Reporting(s.drain.entry, s.dropped))
      else
        taken.(drain := if s.dropped == 0 then Closing else FinalReporting(s.dropped))
    case ReportDropped =>
      if s.drain.Reporting? then
        s.(calls := s.calls + [Report(s.drain.entry.handler, s.drain.taken)], drain := Delivering(s.drain.entry))
      else
        s.(calls := s.calls + [Report(cfg.base, s.drain.taken)], drain := Closing)
    case Deliver =>
      s.(calls := s.calls + [Queued(s.drain.entry)], drain := Receiving)
    case SeeClosed =>
      s.(drain := FinalTaking)
    case CloseDone =>
      s.(drain := Done)
  }

  predicate IsRun(cfg: Config, s: State, steps: seq<Step>)
    decreases |steps|
  {
    steps == [] || (Enabled(s, steps[0]) && IsRun(cfg, Next(cfg, s, steps[0]), steps[1..]))
  }

  function After(cfg: Config, s: State, steps: seq<Step>): State
    requires IsRun(cfg, s, steps)
    decreases |steps|
  {
    if steps == [] then s else After(cfg, Next(cfg, s, steps[0]), steps[1..])
  }

  // ---------------------------------------------------------------- reading the call log

  function Delivered(calls: seq<Call>): seq<Entry> {
    if calls == [] then []
    else Delivered(calls[..|calls| - 1])
         + (if calls[|calls| - 1].Queued? then [calls[|calls| - 1].entry] else [])
  }

  function DirectCalls(calls: seq<Call>, e: Entry): nat {
    if calls == [] then 0
    else DirectCalls(calls[..|calls| - 1], e) + (if calls[|calls| - 1] == Direct(e) then 1 else 0)
  }

  function Reported(calls: seq<Call>): nat {
    if calls == [] then 0
    else Reported(calls[..|calls| - 1])
         + (if calls[|calls| - 1].Report? then calls[|calls| - 1].count else 0)
  }

  lemma CallsAppend(calls: seq<Call>, call: Call)
    ensures Delivered(calls + [call]) == Delivered(calls) + (if call.Queued? then [call.entry] else [])
    ensures Reported(calls + [call]) == Reported(calls) + (if call.Report? then call.count else 0)
  {
    assert (calls + [call])[..|calls|] == calls;
  }

  lemma DirectCallsAppend(calls: seq<Call>, call: Call, e: Entry)
    ensures DirectCalls(calls + [call], e) == DirectCalls(calls, e) + (if call == Direct(e) then 1 else 0)
  {
    assert (calls + [call])[..|calls|] == calls;
  }

  /** The entry the drain goroutine has received and not delivered yet. */
  function InHand(d: Drain): seq<Entry> {
    match d
    case Taking(entry) => [entry]
    case Reporting(entry, _) => [entry]
    case Delivering(entry) => [entry]
    case _ => []
  }

  function TakenCount(d: Drain): nat {
    match d
    case Reporting(_, taken) => taken
    case FinalReporting(taken) => taken
    case _ => 0
  }

  predicate Finishing(d: Drain) {
    d.FinalTaking? || d.FinalReporting? || d.Closing? || d.Done?
  }

  function Count(entries: seq<Entry>, e: Entry): nat {
    if entries == [] then 0
    else Count(entries[..|entries| - 1], e) + (if entries[|entries| - 1] == e then 1 else 0)
  }

  lemma {:induction false} CountConcat(a: seq<Entry>, b: seq<Entry>, e: Entry)
    ensures Count(a + b, e) == Count(a, e) + Count(b, e)
    decreases |b|
  {
    if b == [] {
      assert a + b == a;
    } else {
      CountConcat(a, b[..|b| - 1], e);
      assert (a + b)[..|a + b| - 1] == a + b[..|b| - 1];
    }
  }

  lemma CountAppend(a: seq<Entry>, x: Entry, e: Entry)
    ensures Count(a + [x], e) == Count(a, e) + (if x == e then 1 else 0)
  {
    assert (a + [x])[..|a|] == a;
  }

  lemma CountRemove(a: seq<Entry>, k: nat, e: Entry)
    requires k < |a|
    ensures Count(a, e) == Count(a[..k] + a[k + 1..], e) + (if a[k] == e then 1 else 0)
  {
    assert a == a[..k] + ([a[k]] + a[k + 1..]);
    CountConcat(a[..k], [a[k]] + a[k + 1..], e);
    CountConcat([a[k]], a[k + 1..], e);
    CountConcat(a[..k], a[k + 1..], e);
  }

  predicate IsSevere(e: Entry) {
    e.record.level >= LEVEL_ERROR
  }

  // ---------------------------------------------------------------- the invariant

  /** Accepted records are delivered, in hand or queued, once each and in queue order. */
  predicate QueueOrder(s: State) {
    s.accepted == Delivered(s.calls) + InHand(s.drain) + s.queue
  }

  /** The counter, the count being reported and the counts reported add up to the refused records. */
  predicate DropsAddUp(s: State) {
    && |s.refused| == s.dropped + TakenCount(s.drain) + Reported(s.calls) + s.wraps * UINT64_SIZE
    && s.dropped < UINT64_SIZE
    && (s.drain.FinalReporting? || s.drain.Closing? || s.drain.Done? ==> s.dropped == 0)
  }

  /** A record is owed or given a direct call once per time it was bypassed, or refused as an error. */
  ghost predicate DirectOnce(s: State) {
    forall e: Entry :: DirectFor(s, e)
  }

  predicate DirectFor(s: State, e: Entry) {
    Count(s.direct, e) + DirectCalls(s.calls, e)
    == Count(s.bypassed, e) + (if IsSevere(e) then Count(s.refused, e) else 0)
  }

  predicate Shape(cfg: Config, s: State) {
    && !s.panicked
    && s.closed == s.queueClosed == s.onceDone
    && |s.queue| <= cfg.capacity
    && (Finishing(s.drain) ==> s.closed && s.queue == [])
    && (s.bypassed != [] ==> s.closed)
  }

  ghost predicate Inv(cfg: Config, s: State) {
    Shape(cfg, s) && QueueOrder(s) && DropsAddUp(s) && DirectOnce(s)
  }

  lemma InitInv(cfg: Config)
    ensures Inv(cfg, Init())
  {
  }

  lemma ShapeStep(cfg: Config, s: State, step: Step)
    requires Shape(cfg, s) && Enabled(s, step)
    ensures Shape(cfg, Next(cfg, s, step))
  {
  }

  /** The handler call a step makes, if it makes one. */
  function CallOf(cfg: Config, s: State, step: Step): seq<Call>
    requires Enabled(s, step)
  {
    match step
    case CallDirect(k) => [Direct(s.direct[k])]
    case ReportDropped =>
      [Report(if s.drain.Reporting? then s.drain.entry.handler else cfg.base, s.drain.taken)]
    case Deliver => [Queued(s.drain.entry)]
    case _ => []
  }

  lemma StepCalls(cfg: Config, s: State, step: Step)
    requires Enabled(s, step)
    ensures var t := Next(cfg, s, step);
            var call := CallOf(cfg, s, step);
            && t.calls == s.calls + call
            && Delivered(t.calls) == Delivered(s.calls)
                + (if call != [] && call[0].Queued? then [call[0].entry] else [])
            && Reported(t.calls) == Reported(s.calls) + (if call != [] && call[0].Report? then call[0].count else 0)
  {
    var call := CallOf(cfg, s, step);
    if call != [] {
      CallsAppend(s.calls, call[0]);
    } else {
      assert s.calls + call == s.calls;
    }
  }

  lemma QueueOrderStep(cfg: Config, s: State, step: Step)
    requires Shape(cfg, s) && QueueOrder(s) && Enabled(s, step)
    ensures QueueOrder(Next(cfg, s, step))
  {
    hide Delivered, Reported;
    var t := Next(cfg, s, step);
    StepCalls(cfg, s, step);
    match step
    case Handle(entry) =>
    case ReceiveEntry =>
      assert s.queue == InHand(t.drain) + t.queue;
      assert InHand(s.drain) == [];
    case Deliver =>
      var entry := s.drain.entry;
      assert Delivered(t.calls) == Delivered(s.calls) + [entry];
      assert InHand(s.drain) == [entry] && InHand(t.drain) == [];
      assert Delivered(t.calls) + InHand(t.drain) == Delivered(t.calls);
    case _ =>
      assert t.queue == s.queue && t.accepted == s.accepted;
      assert InHand(t.drain) == InHand(s.drain);
      assert Delivered(t.calls) == Delivered(s.calls);
  }

  lemma DropsStep(cfg: Config, s: State, step: Step)
    requires Shape(cfg, s) && DropsAddUp(s) && Enabled(s, step)
    ensures DropsAddUp(Next(cfg, s, step))
  {
    hide Delivered, Reported, InHand;
    StepCalls(cfg, s, step);
  }

  lemma DirectHandle(cfg: Config, s: State, entry: Entry, e: Entry)
    requires Shape(cfg, s) && DirectFor(s, e)
    ensures DirectFor(Next(cfg, s, Handle(entry)), e)
  {
    hide Count, DirectCalls;
    CountAppend(s.direct, entry, e);
    CountAppend(s.bypassed, entry, e);
    CountAppend(s.refused, entry, e);
  }

  lemma DirectStep(cfg: Config, s: State, step: Step, e: Entry)
    requires Shape(cfg, s) && DirectFor(s, e) && Enabled(s, step)
    ensures DirectFor(Next(cfg, s, step), e)
  {
    hide Count, DirectCalls, Shape;
    match step
    case Handle(entry) => DirectHandle(cfg, s, entry, e);
    case CallDirect(k) =>
      CountRemove(s.direct, k, e);
      DirectCallsAppend(s.calls, Direct(s.direct[k]), e);
    case ReportDropped => DirectCallsAppend(s.calls, Next(cfg, s, step).calls[|s.calls|], e);
    case Deliver => DirectCallsAppend(s.calls, Queued(s.drain.entry), e);
    case _ =>
  }

  lemma StepInv(cfg: Config, s: State, step: Step)
    requires Inv(cfg, s) && Enabled(s, step)
    ensures Inv(cfg, Next(cfg, s, step))
  {
    ShapeStep(cfg, s, step);
    QueueOrderStep(cfg, s, step);
    DropsStep(cfg, s, step);
    forall e: Entry
      ensures DirectFor(Next(cfg, s, step), e)
    {
      DirectStep(cfg, s, step, e);
    }
  }

  lemma {:induction false} RunInv(cfg: Config, s: State, steps: seq<Step>)
    requires Inv(cfg, s) && IsRun(cfg, s, steps)
    ensures Inv(cfg, After(cfg, s, steps))
    decreases |steps|
  {
    if steps != [] {
      StepInv(cfg, s, steps[0]);
      RunInv(cfg, Next(cfg, s, steps[0]), steps[1..]);
    }
  }

  // ---------------------------------------------------------------- safety over whole runs

  function TimesLogged(steps: seq<Step>, e: Entry): nat {
    if steps == [] then 0
    else (if steps[0] == Handle(e) then 1 else 0) + TimesLogged(steps[1..], e)
  }

  function Filed(s: State, e: Entry): nat {
    Count(s.accepted, e) + Count(s.refused, e) + Count(s.bypassed, e)
  }

  lemma FiledStep(cfg: Config, s: State, step: Step, e: Entry)
    requires Shape(cfg, s) && Enabled(s, step)
    ensures Filed(Next(cfg, s, step), e) == Filed(s, e) + (if step == Handle(e) then 1 else 0)
  {
    if step.Handle? {
      CountConcat(s.accepted, [step.entry], e);
      CountConcat(s.refused, [step.entry], e);
      CountConcat(s.bypassed, [step.entry], e);
    }
  }

  lemma {:induction false} LoggedIsFiled(cfg: Config, s: State, steps: seq<Step>, e: Entry)
    requires Shape(cfg, s) && IsRun(cfg, s, steps)
    ensures Filed(After(cfg, s, steps), e) == Filed(s, e) + TimesLogged(steps, e)
    decreases |steps|
  {
    if steps != [] {
      ShapeStep(cfg, s, steps[0]);
      FiledStep(cfg, s, steps[0], e);
      LoggedIsFiled(cfg, Next(cfg, s, steps[0]), steps[1..], e);
    }
  }

  /** In every run: no send on a closed queue, and delivery of the accepted records in order, once each. */
  lemma DeliveredInOrder(cfg: Config, steps: seq<Step>)
    requires IsRun(cfg, Init(), steps)
    ensures var s := After(cfg, Init(), steps);
            && !s.panicked
            && s.accepted == Delivered(s.calls) + InHand(s.drain) + s.queue
            && |s.queue| <= cfg.capacity
            && (s.drain.Done? ==> Delivered(s.calls) == s.accepted)
  {
    InitInv(cfg);
    RunInv(cfg, Init(), steps);
  }

  /**
   * The drop accounting, exact up to the wrap of the 64-bit counter: before
   * the end the refused records are the counter, the count in hand and the
   * counts reported; once done is closed they are the reports alone.
   */
  lemma DropsAccounted(cfg: Config, steps: seq<Step>)
    requires IsRun(cfg, Init(), steps)
    ensures var s := After(cfg, Init(), steps);
            && |s.refused| == s.dropped + TakenCount(s.drain) + Reported(s.calls) + s.wraps * UINT64_SIZE
            && (s.drain.Done? ==> s.queue == [] && s.dropped == 0)
            && (s.drain.Done? && |s.refused| < UINT64_SIZE ==> Reported(s.calls) == |s.refused|)
  {
    InitInv(cfg);
    RunInv(cfg, Init(), steps);
  }

  /** How often e is logged while the handler is open and its queue is full. */
  function LoggedWhenFull(cfg: Config, s: State, steps: seq<Step>, e: Entry): nat
    requires IsRun(cfg, s, steps)
    decreases |steps|
  {
    if steps == [] then 0
    else (if steps[0] == Handle(e) && !s.closed && |s.queue| == cfg.capacity then 1 else 0)
         + LoggedWhenFull(cfg, Next(cfg, s, steps[0]), steps[1..], e)
  }

  /** How often e is logged after the handler was closed. */
  function LoggedWhenClosed(cfg: Config, s: State, steps: seq<Step>, e: Entry): nat
    requires IsRun(cfg, s, steps)
    decreases |steps|
  {
    if steps == [] then 0
    else (if steps[0] == Handle(e) && s.closed then 1 else 0)
         + LoggedWhenClosed(cfg, Next(cfg, s, steps[0]), steps[1..], e)
  }

  lemma RefusedStep(cfg: Config, s: State, step: Step, e: Entry)
    requires Shape(cfg, s) && Enabled(s, step)
    ensures var t := Next(cfg, s, step);
            && Count(t.refused, e) == Count(s.refused, e)
                + (if step == Handle(e) && !s.closed && |s.queue| == cfg.capacity then 1 else 0)
            && Count(t.bypassed, e) == Count(s.bypassed, e) + (if step == Handle(e) && s.closed then 1 else 0)
  {
    if step.Handle? {
      CountAppend(s.refused, step.entry, e);
      CountAppend(s.bypassed, step.entry, e);
    }
  }

  /**
   * In every run a record is refused exactly as often as it is logged while the
   * handler is open and the queue holds as many records as it can, bypassed
   * exactly as often as it is logged after the close, and otherwise accepted.
   */
  lemma {:induction false} RefusedExactlyWhenFull(cfg: Config, s: State, steps: seq<Step>, e: Entry)
    requires Shape(cfg, s) && IsRun(cfg, s, steps)
    ensures var t := After(cfg, s, steps);
            && Count(t.refused, e) == Count(s.refused, e) + LoggedWhenFull(cfg, s, steps, e)
            && Count(t.bypassed, e) == Count(s.bypassed, e) + LoggedWhenClosed(cfg, s, steps, e)
            && Count(t.accepted, e) + LoggedWhenFull(cfg, s, steps, e) + LoggedWhenClosed(cfg, s, steps, e)
               == Count(s.accepted, e) + TimesLogged(steps, e)
    decreases |steps|
  {
    hide Count;
    if steps != [] {
      ShapeStep(cfg, s, steps[0]);
      RefusedStep(cfg, s, steps[0], e);
      FiledStep(cfg, s, steps[0], e);
      RefusedExactlyWhenFull(cfg, Next(cfg, s, steps[0]), steps[1..], e);
    }
  }

  /**
   * After a finished shutdown with no Handle call under way, a record reached
   * its handler once for every time it was logged, but for the times that it
   * was below Error, the handler was open and the queue was full.
   */
  lemma NothingElseIsLost(cfg: Config, steps: seq<Step>, e: Entry)
    requires IsRun(cfg, Init(), steps)
    requires After(cfg, Init(), steps).drain.Done? && After(cfg, Init(), steps).direct == []
    ensures var s := After(cfg, Init(), steps);
            Count(Delivered(s.calls), e) + DirectCalls(s.calls, e)
                + (if e.record.level >= 8 then 0 else LoggedWhenFull(cfg, Init(), steps, e))
            == TimesLogged(steps, e)
  {
    InitInv(cfg);
    RunInv(cfg, Init(), steps);
    LoggedIsFiled(cfg, Init(), steps, e);
    RefusedExactlyWhenFull(cfg, Init(), steps, e);
    DeliveredInOrder(cfg, steps);
    assert DirectFor(After(cfg, Init(), steps), e);
  }

  // ---------------------------------------------------------------- shutdown ends

  function DrainWeight(s: State): nat {
    4 * |s.queue| +
    match s.drain
    case Taking(_) => 7
    case Reporting(_, _) => 6
    case Delivering(_) => 5
    case Receiving => 4
    case FinalTaking => 3
    case FinalReporting(_) => 2
    case Closing => 1
    case Done => 0
  }

  function DrainSteps(steps: seq<Step>): nat {
    if steps == [] then 0 else (if IsDrainStep(steps[0]) then 1 else 0) + DrainSteps(steps[1..])
  }

  lemma ClosedStepShrinks(cfg: Config, s: State, step: Step)
    requires Shape(cfg, s) && s.closed && Enabled(s, step)
    ensures var t := Next(cfg, s, step);
            && t.closed && t.accepted == s.accepted
            && DrainWeight(t) + (if IsDrainStep(step) then 1 else 0) <= DrainWeight(s)
  {
  }

  lemma {:induction false} ClosedRunShrinks(cfg: Config, s: State, steps: seq<Step>)
    requires Shape(cfg, s) && s.closed && IsRun(cfg, s, steps)
    ensures After(cfg, s, steps).closed && After(cfg, s, steps).accepted == s.accepted
    ensures DrainSteps(steps) + DrainWeight(After(cfg, s, steps)) <= DrainWeight(s)
    decreases |steps|
  {
    if steps != [] {
      ShapeStep(cfg, s, steps[0]);
      ClosedStepShrinks(cfg, s, steps[0]);
      ClosedRunShrinks(cfg, Next(cfg, s, steps[0]), steps[1..]);
    }
  }

  ghost predicate DrainStuck(s: State) {
    forall step: Step | IsDrainStep(step) :: !Enabled(s, step)
  }

  /** The next step of the drain goroutine. */
  function DrainNext(s: State): Step {
    match s.drain
    case Receiving => if s.queue != [] then ReceiveEntry else SeeClosed
    case Taking(_) => TakeDropped
    case FinalTaking => TakeDropped
    case Reporting(_, _) => ReportDropped
    case FinalReporting(_) => ReportDropped
    case Delivering(_) => Deliver
    case Closing => CloseDone
    case Done => CloseDone
  }

  /** The drain goroutine waits for nothing but a record to arrive, or the close of the queue. */
  lemma DrainWaitsExactly(s: State)
    ensures DrainStuck(s) <==> s.drain.Done? || (s.drain.Receiving? && s.queue == [] && !s.queueClosed)
  {
    if !(s.drain.Done? || (s.drain.Receiving? && s.queue == [] && !s.queueClosed)) {
      assert Enabled(s, DrainNext(s)) && IsDrainStep(DrainNext(s));
    }
  }

  /** Producers and Shutdown never wait, and calls that are owed are made in any order. */
  lemma ProducersNeverWait(s: State, entry: Entry, k: nat)
    ensures Enabled(s, Handle(entry)) && Enabled(s, Shutdown) && (Enabled(s, CallDirect(k)) <==> k < |s.direct|)
  {
  }

  /**
   * Once closed, the drain goroutine closes done within 4 steps a queued record
   * plus 7, however many Handle and Shutdown calls come in between: a Shutdown
   * without a deadline returns.
   */
  lemma ShutdownEnds(cfg: Config, before: seq<Step>, after: seq<Step>)
    requires IsRun(cfg, Init(), before) && After(cfg, Init(), before).closed
    requires IsRun(cfg, After(cfg, Init(), before), after)
    ensures DrainSteps(after) <= 4 * cfg.capacity + 7
    ensures var s := After(cfg, After(cfg, Init(), before), after); DrainStuck(s) <==> s.drain.Done?
  {
    InitInv(cfg);
    RunInv(cfg, Init(), before);
    var s := After(cfg, Init(), before);
    ClosedRunShrinks(cfg, s, after);
    RunInv(cfg, s, after);
    DrainWaitsExactly(After(cfg, s, after));
  }

  // ---------------------------------------------------------------- the code between the channel operations

  /** The handler calls that the drain goroutine still makes once the queue is closed. */
  function DrainCalls(base: nat, queue: seq<Entry>, dropped: nat): seq<Call> {
    if queue == [] then
      if dropped == 0 then [] else [Report(base, dropped)]
    else
      (if dropped == 0 then [] else [Report(queue[0].handler, dropped)])
      + [Queued(queue[0])] + DrainCalls(base, queue[1..], 0)
  }

  lemma DrainCallsStep(base: nat, calls: seq<Call>, queue: seq<Entry>, dropped: nat)
    requires queue != []
    ensures var flushed := calls + if dropped == 0 then [] else [Report(queue[0].handler, dropped)];
            calls + DrainCalls(base, queue, dropped) == flushed + [Queued(queue[0])] + DrainCalls(base, queue[1..], 0)
  {
    var report := if dropped == 0 then [] else [Report(queue[0].handler, dropped)];
    var rest := DrainCalls(base, queue[1..], 0);
    assert calls + (report + [Queued(queue[0])] + rest) == (calls + report) + [Queued(queue[0])] + rest;
  }

  /** What a whole Handle call does to the closed flag, queue, counter and calls when nothing comes in between. */
  predicate HandledAs(capacity: nat, entry: Entry, closed: bool, before: seq<Entry>, dropped: nat, calls: seq<Call>,
                      after: seq<Entry>, dropped': nat, calls': seq<Call>) {
    if closed then
      after == before && dropped' == dropped && calls' == calls + [Direct(entry)]
    else if |before| < capacity then
      after == before + [entry] && dropped' == dropped && calls' == calls
    else
      && after == before && dropped' == (dropped + 1) % 0x1_0000_0000_0000_0000
      && calls' == calls + (if entry.record.level >= 8 then [Direct(entry)] else [])
  }

  class AsyncState {
    const capacity: nat
    const base: nat
    var queue: seq<Entry>
    var closed: bool
    var onceDone: bool
    var dropped: nat
    var calls: seq<Call>
    var done: bool

    predicate Valid()
      reads this
    {
      closed == onceDone && |queue| <= capacity && dropped < UINT64_SIZE
    }

    constructor (capacity: nat, base: nat)
      requires capacity > 0
      ensures Valid() && this.capacity == capacity && this.base == base
      ensures queue == [] && !closed && dropped == 0 && calls == [] && !done
    {
      this.capacity, this.base := capacity, base;
      queue, closed, onceDone, dropped, calls, done := [], false, false, 0, [], false;
    }

    /** Handle, run without another goroutine between its mutex region and its direct call. */
    method Handle(entry: Entry)
      requires Valid()
      modifies this
      ensures Valid() && closed == old(closed) && done == old(done)
      ensures HandledAs(capacity, entry, closed, old(queue), old(dropped), old(calls), queue, dropped, calls)
    {
      if closed {
        calls := calls + [Direct(entry)];
        return;
      }
      if |queue| < capacity {
        queue := queue + [entry];
      } else {
        dropped := (dropped + 1) % UINT64_SIZE;
        if entry.record.level >= LEVEL_ERROR {
          calls := calls + [Direct(entry)];
        }
      }
    }

    method Close()
      requires Valid()
      modifies this`closed, this`onceDone
      ensures Valid() && closed
    {
      if !onceDone {
        closed := true;
        onceDone := true;
      }
    }

    method FlushDropped(handler: nat)
      requires Valid()
      modifies this`dropped, this`calls
      ensures Valid() && dropped == 0
      ensures calls == old(calls) + (if old(dropped) == 0 then [] else [Report(handler, old(dropped))])
    {
      var taken := dropped;
      dropped := 0;
      if taken == 0 {
        return;
      }
      calls := calls + [Report(handler, taken)];
    }

    /** The drain loop after close, when no producer touches the queue or the counter any more. */
    method Run()
      requires Valid() && closed
      modifies this`queue, this`dropped, this`calls, this`done
      ensures Valid() && done && queue == [] && dropped == 0
      ensures calls == old(calls) + DrainCalls(base, old(queue), old(dropped))
    {
      while queue != []
        invariant Valid()
        invariant calls + DrainCalls(base, queue, dropped)
               == old(calls) + DrainCalls(base, old(queue), old(dropped))
        decreases |queue|
      {
        var entry := queue[0];
        DrainCallsStep(base, calls, queue, dropped);
        queue := queue[1..];
        FlushDropped(entry.handler);
        calls := calls + [Queued(entry)];
      }
      FlushDropped(base);
      done := true;
    }
  }

  /** The steps of a Handle call that nothing comes in between of. */
  function HandleRun(cfg: Config, s: State, entry: Entry): seq<Step> {
    [Handle(entry)] + if |Next(cfg, s, Handle(entry)).direct| > |s.direct| then [CallDirect(|s.direct|)] else []
  }

  /** AsyncState.Handle is a run of the step system: its region under the mutex, and the direct call it owes. */
  lemma HandleRunMatches(cfg: Config, s: State, entry: Entry)
    requires Shape(cfg, s) && s.dropped < UINT64_SIZE
    ensures var steps := HandleRun(cfg, s, entry);
            && IsRun(cfg, s, steps)
            && var t := After(cfg, s, steps);
               && HandledAs(cfg.capacity, entry, s.closed, s.queue, s.dropped, s.calls, t.queue, t.dropped, t.calls)
               && t.direct == s.direct && t.drain == s.drain && t.closed == s.closed && t.queueClosed == s.queueClosed
  {
    hide IsRun, After, HandledAs;
    var s1 := Next(cfg, s, Handle(entry));
    if |s1.direct| > |s.direct| {
      var call := CallDirect(|s.direct|);
      NoSteps(cfg, Next(cfg, s1, call));
      OneStep(cfg, s1, call, []);
      assert [call] + [] == [call];
      OneStep(cfg, s, Handle(entry), [call]);
    } else {
      NoSteps(cfg, s1);
      OneStep(cfg, s, Handle(entry), []);
    }
    HandleEffect(cfg, s, entry);
  }

  lemma NoSteps(cfg: Config, s: State)
    ensures IsRun(cfg, s, []) && After(cfg, s, []) == s
  {
  }

  lemma HandleEffect(cfg: Config, s: State, entry: Entry)
    requires Shape(cfg, s) && s.dropped < UINT64_SIZE
    ensures var s1 := Next(cfg, s, Handle(entry));
            var t := if |s1.direct| > |s.direct| then Next(cfg, s1, CallDirect(|s.direct|)) else s1;
            && HandledAs(cfg.capacity, entry, s.closed, s.queue, s.dropped, s.calls, t.queue, t.dropped, t.calls)
            && t.direct == s.direct && t.drain == s.drain && t.closed == s.closed && t.queueClosed == s.queueClosed
  {
    var s1 := Next(cfg, s, Handle(entry));
    if |s1.direct| > |s.direct| {
      assert s1.direct[..|s.direct|] + s1.direct[|s.direct| + 1..] == s.direct;
    }
  }

  /** The body of Shutdown is the Shutdown step; a second one changes nothing. */
  lemma CloseMatches(cfg: Config, s: State)
    requires Shape(cfg, s)
    ensures var t := Next(cfg, s, Shutdown);
            t == s.(closed := true, queueClosed := true, onceDone := true) && Next(cfg, t, Shutdown) == t
  {
  }

  /** The drain goroutine's steps from a closed queue to the close of done. */
  function DrainRun(queue: seq<Entry>, dropped: nat): seq<Step> {
    var report := if dropped == 0 then [] else [ReportDropped];
    if queue == [] then [SeeClosed] + ([TakeDropped] + (report + [CloseDone]))
    else [ReceiveEntry] + ([TakeDropped] + (report + ([Deliver] + DrainRun(queue[1..], 0))))
  }

  lemma {:induction false} OneStep(cfg: Config, s: State, step: Step, rest: seq<Step>)
    requires Enabled(s, step) && IsRun(cfg, Next(cfg, s, step), rest)
    ensures IsRun(cfg, s, [step] + rest)
    ensures After(cfg, s, [step] + rest) == After(cfg, Next(cfg, s, step), rest)
  {
    assert ([step] + rest)[1..] == rest;
  }

  /** From a received entry, or a closed empty queue, the count is taken and reported if it is not zero. */
  lemma FlushRun(cfg: Config, s: State, rest: seq<Step>)
    requires s.drain.Taking? || s.drain.FinalTaking?
    ensures var report := if s.dropped == 0 then [] else [ReportDropped];
            var handler := if s.drain.Taking? then s.drain.entry.handler else cfg.base;
            var t := s.(dropped := 0,
                        drain := if s.drain.Taking? then Delivering(s.drain.entry) else Closing,
                        calls := s.calls + if s.dropped == 0 then [] else [Report(handler, s.dropped)]);
            IsRun(cfg, t, rest) ==>
              && IsRun(cfg, s, [TakeDropped] + (report + rest))
              && After(cfg, s, [TakeDropped] + (report + rest)) == After(cfg, t, rest)
  {
    var s2 := Next(cfg, s, TakeDropped);
    if s.dropped == 0 {
      assert s2.calls == s2.calls + [];
      var t := s2;
      assert [] + rest == rest;
      if IsRun(cfg, t, rest) {
        OneStep(cfg, s, TakeDropped, rest);
      }
    } else {
      var t := Next(cfg, s2, ReportDropped);
      if IsRun(cfg, t, rest) {
        OneStep(cfg, s2, ReportDropped, rest);
        OneStep(cfg, s, TakeDropped, [ReportDropped] + rest);
      }
    }
  }

  lemma FinalRun(cfg: Config, s: State)
    requires s.drain.Receiving? && s.queueClosed && s.queue == []
    ensures var steps := DrainRun([], s.dropped);
            && IsRun(cfg, s, steps)
            && After(cfg, s, steps) ==
               s.(dropped := 0, drain := Done, calls := s.calls + DrainCalls(cfg.base, [], s.dropped))
  {
    var s1 := s.(drain := FinalTaking);
    var t := s1.(dropped := 0, drain := Closing, calls := s.calls + DrainCalls(cfg.base, [], s.dropped));
    OneStep(cfg, t, CloseDone, []);
    FlushRun(cfg, s1, [CloseDone]);
    var report := if s.dropped == 0 then [] else [ReportDropped];
    OneStep(cfg, s, SeeClosed, [TakeDropped] + (report + [CloseDone]));
  }

  lemma EntryRun(cfg: Config, s: State, rest: seq<Step>)
    requires s.drain.Receiving? && s.queue != []
    ensures var q0 := s.queue[0];
            var report := if s.dropped == 0 then [] else [ReportDropped];
            var flushed := s.calls + if s.dropped == 0 then [] else [Report(q0.handler, s.dropped)];
            var t := s.(queue := s.queue[1..], dropped := 0, calls := flushed + [Queued(q0)]);
            var steps := [ReceiveEntry] + ([TakeDropped] + (report + ([Deliver] + rest)));
            IsRun(cfg, t, rest) ==> IsRun(cfg, s, steps) && After(cfg, s, steps) == After(cfg, t, rest)
  {
    var q0 := s.queue[0];
    var flushed := s.calls + if s.dropped == 0 then [] else [Report(q0.handler, s.dropped)];
    var s1 := s.(queue := s.queue[1..], drain := Taking(q0));
    var s2 := s1.(dropped := 0, drain := Delivering(q0), calls := flushed);
    var t := s2.(calls := flushed + [Queued(q0)], drain := Receiving);
    if IsRun(cfg, t, rest) {
      OneStep(cfg, s2, Deliver, rest);
      FlushRun(cfg, s1, [Deliver] + rest);
      var report := if s.dropped == 0 then [] else [ReportDropped];
      OneStep(cfg, s, ReceiveEntry, [TakeDropped] + (report + ([Deliver] + rest)));
    }
  }

  /** AsyncState.Run is a run of the step system. */
  lemma {:induction false} DrainRunMatches(cfg: Config, s: State)
    requires s.drain.Receiving? && s.queueClosed
    ensures var steps := DrainRun(s.queue, s.dropped);
            && IsRun(cfg, s, steps)
            && After(cfg, s, steps) ==
               s.(queue := [], dropped := 0, drain := Done,
                  calls := s.calls + DrainCalls(cfg.base, s.queue, s.dropped))
    decreases |s.queue|
  {
    hide IsRun, After, DrainCalls;
    if s.queue == [] {
      FinalRun(cfg, s);
      assert s.queue == [];
    } else {
      var q0 := s.queue[0];
      var flushed := s.calls + if s.dropped == 0 then [] else [Report(q0.handler, s.dropped)];
      var t := s.(queue := s.queue[1..], dropped := 0, calls := flushed + [Queued(q0)]);
      DrainRunMatches(cfg, t);
      EntryRun(cfg, s, DrainRun(s.queue[1..], 0));
      DrainCallsStep(cfg.base, s.calls, s.queue, s.dropped);
    }
  }
}
