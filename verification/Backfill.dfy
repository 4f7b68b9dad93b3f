/**
 * The concurrent backfill pipeline of cmd/backfill/main.go as a step system.
 *
 * One feeder hands the sorted files, by index, to a fixed pool of workers over
 * an unbuffered jobs channel. The workers send their results over a channel
 * whose capacity is the number of workers. A closer closes that channel once
 * every worker has gone, and the collector (the goroutine that called
 * runBackfill) puts the results back in order and writes them out. Each step
 * below is one channel operation, one run of processFile, one write, or one
 * cancellation, and any step that is enabled may happen next.
 */
module Backfill {
  import opened Wrappers
  import opened Text

  // ---------------------------------------------------------------- files

  /** What os.ReadFile gives. */
  datatype FileContent = Unreadable | Data(data: string)

  datatype File = File(path: string, content: FileContent)

  datatype Record = Record(sequence: nat, source: string, path: string, payload: string)

  datatype FileError =
    | ReadFailed(path: string)
    | EmptyFixture(path: string)
    | InvalidJson(path: string)

  /** isJson is json.Valid. */
  datatype Config = Config(files: seq<File>, source: string, workers: nat, isJson: string -> bool)

  /** What parseBackfillConfig guarantees about the pool size. */
  predicate ValidConfig(cfg: Config) {
    cfg.workers > 0
  }

  function ProcessFile(cfg: Config, index: nat): Result<Record, FileError>
    requires index < |cfg.files|
  {
    var file := cfg.files[index];
    match file.content
    case Unreadable => Err(ReadFailed(file.path))
    case Data(data) =>
      var payload := TrimSpace(data);
      if payload == "" then Err(EmptyFixture(file.path))
      else if !cfg.isJson(payload) then Err(InvalidJson(file.path))
      else Ok(Record(index, cfg.source, file.path, payload))
  }

  /** A file that can be read and holds JSON between its outer spaces. */
  predicate GoodFile(cfg: Config, file: File) {
    file.content.Data? && !Blank(file.content.data) && cfg.isJson(TrimSpace(file.content.data))
  }

  /** The record of the i-th file. */
  predicate RecordOf(cfg: Config, i: nat, r: Record)
    requires i < |cfg.files|
  {
    && GoodFile(cfg, cfg.files[i]) && r.sequence == i && r.source == cfg.source
    && r.path == cfg.files[i].path && r.payload == TrimSpace(cfg.files[i].content.data)
  }

  /** What is wrong with a file. */
  predicate FaultOf(cfg: Config, file: File, error: FileError) {
    match error
    case ReadFailed(path) => path == file.path && file.content.Unreadable?
    case EmptyFixture(path) => path == file.path && file.content.Data? && Blank(file.content.data)
    case InvalidJson(path) =>
      path == file.path && file.content.Data? && !Blank(file.content.data)
      && !cfg.isJson(TrimSpace(file.content.data))
  }

  lemma ProcessedMeaning(cfg: Config, i: nat)
    requires i < |cfg.files|
    ensures ProcessFile(cfg, i).Ok? <==> GoodFile(cfg, cfg.files[i])
    ensures ProcessFile(cfg, i).Ok? ==> RecordOf(cfg, i, ProcessFile(cfg, i).value)
    ensures ProcessFile(cfg, i).Err? ==> FaultOf(cfg, cfg.files[i], ProcessFile(cfg, i).error)
  {
    hide TrimSpace, Blank;
    if cfg.files[i].content.Data? {
      BlankTrims(cfg.files[i].content.data);
    }
  }

  /** The reference: process the sorted files one after another, up to the first error. */
  function SequentialMap(cfg: Config, count: nat): (records: seq<Record>)
    requires count <= |cfg.files|
    requires forall i: nat | i < count :: ProcessFile(cfg, i).Ok?
    ensures |records| == count
    ensures forall i: nat | i < count :: records[i] == ProcessFile(cfg, i).value
  {
    seq(count, (i: nat) requires i < count => ProcessFile(cfg, i).value)
  }

  // ---------------------------------------------------------------- state

  /** index is the next file to hand out, and stays where the feeder stopped. */
  datatype Feeder = Feeding(index: nat) | JobsClosed(index: nat)

  datatype JobResult = JobResult(index: nat, outcome: Result<Record, FileError>)

  datatype Worker =
    | Idle                          // waiting at the outer select
    | Processing(index: nat)        // took a job, processFile not finished
    | Sending(result: JobResult)    // waiting at the inner select
    | Exited

  datatype Return =
    | Completed
    | FileFailed(index: nat, error: FileError)
    | WriteFailed
    | Incomplete(written: nat)

  datatype Collector =
    | Receiving                     // at the range over results
    | Draining                      // in the inner loop over pending
    | Returned(ret: Return)

  datatype State = State(
    feeder: Feeder,
    workers: seq<Worker>,
    results: seq<JobResult>,
    resultsClosed: bool,
    collector: Collector,
    next: nat,
    pending: map<nat, Record>,
    output: seq<Record>,
    cancelled: bool,
    outsideCancel: bool             // the caller's context was cancelled
  )

  function Init(cfg: Config): State {
    State(Feeding(0), seq(cfg.workers, _ => Idle), [], false, Receiving, 0, map[], [], false, false)
  }

  // ---------------------------------------------------------------- steps

  datatype Step =
    | Handoff(w: nat)               // jobs <- job meets case job := <-jobs
    | CloseJobs                     // the feeder returns, closing jobs
    | WorkerExit(w: nat)
    | Process(w: nat)
    | Send(w: nat)                  // results <- result
    | CloseResults
    | Receive
    | Emit                          // encoder.Encode succeeds
    | EmitFails                     // encoder.Encode returns an error
    | DrainDone                     // pending[next] is missing
    | ReturnAtEnd                   // results is closed and empty
    | OutsideCancel

  predicate Enabled(cfg: Config, s: State, step: Step) {
    match step
    case Handoff(w) =>
      s.feeder.Feeding? && s.feeder.index < |cfg.files| && w < |s.workers| && s.workers[w].Idle?
    case CloseJobs =>
      s.feeder.Feeding? && (s.cancelled || s.feeder.index >= |cfg.files|)
    case WorkerExit(w) =>
      w < |s.workers| &&
      (match s.workers[w]
       case Idle => s.cancelled || s.feeder.JobsClosed?
       case Sending(_) => s.cancelled
       case _ => false)
    case Process(w) =>
      w < |s.workers| && s.workers[w].Processing? && s.workers[w].index < |cfg.files|
    case Send(w) =>
      w < |s.workers| && s.workers[w].Sending? && |s.results| < cfg.workers
    case CloseResults =>
      !s.resultsClosed && forall w: nat | w < |s.workers| :: s.workers[w].Exited?
    case Receive =>
      s.collector.Receiving? && s.results != []
    case Emit =>
      s.collector.Draining? && s.next in s.pending
    case EmitFails =>
      s.collector.Draining? && s.next in s.pending
    case DrainDone =>
      s.collector.Draining? && s.next !in s.pending
    case ReturnAtEnd =>
      s.collector.Receiving? && s.results == [] && s.resultsClosed
    case OutsideCancel =>
      !s.outsideCancel
  }

  /** Every return of runBackfill runs the deferred cancel. */
  function ReturnWith(s: State, ret: Return): State {
    s.(collector := Returned(ret), cancelled := true)
  }

  function Next(cfg: Config, s: State, step: Step): State
    requires Enabled(cfg, s, step)
  {
    match step
    case Handoff(w) =>
      s.(feeder := Feeding(s.feeder.index + 1), workers := s.workers[w := Processing(s.feeder.index)])
    case CloseJobs =>
      s.(feeder := JobsClosed(s.feeder.index))
    case WorkerExit(w) =>
      s.(workers := s.workers[w := Exited])
    case Process(w) =>
      var i := s.workers[w].index;
      s.(workers := s.workers[w := Sending(JobResult(i, ProcessFile(cfg, i)))])
    case Send(w) =>
      s.(results := s.results + [s.workers[w].result], workers := s.workers[w := Idle])
    case CloseResults =>
      s.(resultsClosed := true)
    case Receive =>
      var result := s.results[0];
      var rest := s.(results := s.results[1..]);
      if result.outcome.Err? then ReturnWith(rest, FileFailed(result.index, result.outcome.error))
      else rest.(pending := s.pending[result.index := result.outcome.value], collector := Draining)
    case Emit =>
      s.(output := s.output + [s.pending[s.next]], pending := s.pending - {s.next}, next := s.next + 1)
    case EmitFails =>
      ReturnWith(s, WriteFailed)
    case DrainDone =>
      s.(collector := Receiving)
    case ReturnAtEnd =>
      ReturnWith(s, if s.next != |cfg.files| then Incomplete(s.next) else Completed)
    case OutsideCancel =>
      s.(cancelled := true, outsideCancel := true)
  }

  // ---------------------------------------------------------------- runs

  predicate IsRun(cfg: Config, s: State, steps: seq<Step>)
    decreases |steps|
  {
    steps == [] || (Enabled(cfg, s, steps[0]) && IsRun(cfg, Next(cfg, s, steps[0]), steps[1..]))
  }

  function After(cfg: Config, s: State, steps: seq<Step>): State
    requires IsRun(cfg, s, steps)
    decreases |steps|
  {
    if steps == [] then s else After(cfg, Next(cfg, s, steps[0]), steps[1..])
  }

  // ---------------------------------------------------------------- who holds which index

  function InWorker(w: Worker, i: nat): nat {
    match w
    case Processing(j) => if j == i then 1 else 0
    case Sending(r) => if r.index == i then 1 else 0
    case _ => 0
  }

  function InWorkers(ws: seq<Worker>, i: nat): nat {
    if ws == [] then 0 else InWorker(ws[0], i) + InWorkers(ws[1..], i)
  }

  function InResults(rs: seq<JobResult>, i: nat): nat {
    if rs == [] then 0 else (if rs[0].index == i then 1 else 0) + InResults(rs[1..], i)
  }

  /** How many times index i is in a worker, in the results buffer, in pending or written. */
  function Copies(s: State, i: nat): nat {
    InWorkers(s.workers, i) + InResults(s.results, i)
    + (if i in s.pending then 1 else 0) + (if i < s.next then 1 else 0)
  }

  lemma {:induction false} InWorkersUpdate(ws: seq<Worker>, w: nat, x: Worker, i: nat)
    requires w < |ws|
    ensures InWorkers(ws[w := x], i) + InWorker(ws[w], i) == InWorkers(ws, i) + InWorker(x, i)
  {
    if w > 0 {
      InWorkersUpdate(ws[1..], w - 1, x, i);
      assert ws[w := x][1..] == ws[1..][w - 1 := x];
    } else {
      assert ws[w := x][1..] == ws[1..];
    }
  }

  lemma {:induction false} InResultsAppend(rs: seq<JobResult>, r: JobResult, i: nat)
    ensures InResults(rs + [r], i) == InResults(rs, i) + (if r.index == i then 1 else 0)
  {
    if rs != [] {
      InResultsAppend(rs[1..], r, i);
      assert (rs + [r])[1..] == rs[1..] + [r];
    } else {
      assert (rs + [r])[1..] == [];
    }
  }

  lemma {:induction false} InactiveHoldNothing(ws: seq<Worker>, i: nat)
    requires forall w: nat | w < |ws| :: ws[w].Exited? || ws[w].Idle?
    ensures InWorkers(ws, i) == 0
  {
    if ws != [] {
      InactiveHoldNothing(ws[1..], i);
    }
  }

  // ---------------------------------------------------------------- the invariant

  predicate RightResult(cfg: Config, r: JobResult) {
    r.index < |cfg.files| && r.outcome == ProcessFile(cfg, r.index)
  }

  /** Every value in flight is the outcome of the file it is labelled with. */
  predicate Content(cfg: Config, s: State) {
    && (forall w: nat | w < |s.workers| ::
          && (s.workers[w].Processing? ==> s.workers[w].index < |cfg.files|)
          && (s.workers[w].Sending? ==> RightResult(cfg, s.workers[w].result)))
    && (forall k: nat | k < |s.results| :: RightResult(cfg, s.results[k]))
    && (forall i | i in s.pending :: i < |cfg.files| && ProcessFile(cfg, i) == Ok(s.pending[i]))
  }

  /** The output is the sequential map of the first next files. */
  predicate Ordered(cfg: Config, s: State) {
    && s.next <= |cfg.files|
    && (forall i: nat | i < s.next :: ProcessFile(cfg, i).Ok?)
    && s.output == SequentialMap(cfg, s.next)
  }

  /** No index that was handed out is ever in two places; without cancellation none is lost. */
  ghost predicate Custody(s: State) {
    forall i: nat ::
      && Copies(s, i) <= (if i < s.feeder.index then 1 else 0)
      && (!s.cancelled ==> Copies(s, i) == if i < s.feeder.index then 1 else 0)
  }

  predicate Control(cfg: Config, s: State) {
    && |s.workers| == cfg.workers
    && |s.results| <= cfg.workers
    && s.feeder.index <= |cfg.files|
    && (s.feeder.JobsClosed? && !s.cancelled ==> s.feeder.index == |cfg.files|)
    && (forall w: nat | w < |s.workers| :: s.workers[w].Exited? ==> s.cancelled || s.feeder.JobsClosed?)
    && (s.resultsClosed ==> forall w: nat | w < |s.workers| :: s.workers[w].Exited?)
    && (s.collector.Receiving? ==> s.next !in s.pending)
    && (s.outsideCancel ==> s.cancelled)
    && (s.cancelled ==> s.outsideCancel || s.collector.Returned?)
    && (s.collector.Returned? ==> s.cancelled)
  }

  /** What each return value says about the files, the output and the caller's context. */
  predicate Verdict(cfg: Config, s: State) {
    s.collector.Returned? ==>
      match s.collector.ret
      case Completed => s.next == |cfg.files|
      case FileFailed(i, e) => i < |cfg.files| && ProcessFile(cfg, i) == Err(e) && s.next <= i
      case WriteFailed => s.next in s.pending
      case Incomplete(written) => written == s.next < |cfg.files| && s.outsideCancel
  }

  ghost predicate Inv(cfg: Config, s: State) {
    Content(cfg, s) && Ordered(cfg, s) && Custody(s) && Control(cfg, s) && Verdict(cfg, s)
  }

  lemma InitInv(cfg: Config)
    requires ValidConfig(cfg)
    ensures Inv(cfg, Init(cfg))
  {
    forall i: nat {
      InactiveHoldNothing(Init(cfg).workers, i);
    }
  }

  lemma ContentStep(cfg: Config, s: State, step: Step)
    requires Content(cfg, s) && Enabled(cfg, s, step)
    ensures Content(cfg, Next(cfg, s, step))
  {
    hide ProcessFile;
  }

  lemma OrderedStep(cfg: Config, s: State, step: Step)
    requires Content(cfg, s) && Ordered(cfg, s) && Enabled(cfg, s, step)
    ensures Ordered(cfg, Next(cfg, s, step))
  {
    hide ProcessFile;
    if step.Emit? {
      assert SequentialMap(cfg, s.next + 1) == SequentialMap(cfg, s.next) + [s.pending[s.next]];
    }
  }

  lemma ControlStep(cfg: Config, s: State, step: Step)
    requires Control(cfg, s) && Enabled(cfg, s, step)
    ensures Control(cfg, Next(cfg, s, step))
  {
  }

  /** A step moves index i between places; it creates it at the hand-off and may drop it only once cancelled. */
  lemma CopiesStep(cfg: Config, s: State, step: Step, i: nat)
    requires Enabled(cfg, s, step) && Copies(s, i) <= 1
    ensures var t := Next(cfg, s, step);
            var born := if step.Handoff? && i == s.feeder.index then 1 else 0;
            && Copies(t, i) <= Copies(s, i) + born
            && (!t.cancelled ==> Copies(t, i) == Copies(s, i) + born)
  {
    hide InWorkers, ProcessFile;
    match step
    case Handoff(w) => InWorkersUpdate(s.workers, w, Processing(s.feeder.index), i);
    case WorkerExit(w) => InWorkersUpdate(s.workers, w, Exited, i);
    case Process(w) => InWorkersUpdate(s.workers, w, Next(cfg, s, step).workers[w], i);
    case Send(w) =>
      InWorkersUpdate(s.workers, w, Idle, i);
      InResultsAppend(s.results, s.workers[w].result, i);
    case _ =>
  }

  lemma CustodyStep(cfg: Config, s: State, step: Step)
    requires Custody(s) && Enabled(cfg, s, step)
    ensures Custody(Next(cfg, s, step))
  {
    forall i: nat
      ensures var t := Next(cfg, s, step);
              && Copies(t, i) <= (if i < t.feeder.index then 1 else 0)
              && (!t.cancelled ==> Copies(t, i) == if i < t.feeder.index then 1 else 0)
    {
      CopiesStep(cfg, s, step, i);
    }
  }

  lemma {:induction false} ResultIsCounted(rs: seq<JobResult>, k: nat)
    requires k < |rs|
    ensures InResults(rs, rs[k].index) > 0
  {
    if k > 0 {
      ResultIsCounted(rs[1..], k - 1);
    }
  }

  /** A closed, drained pipeline that nobody cancelled has written every file. */
  lemma DrainedIsComplete(cfg: Config, s: State)
    requires Custody(s) && Control(cfg, s) && Ordered(cfg, s)
    requires Enabled(cfg, s, ReturnAtEnd) && !s.cancelled && ValidConfig(cfg)
    ensures s.next == |cfg.files|
  {
    assert s.workers[0].Exited?;
    InactiveHoldNothing(s.workers, s.next);
    assert Copies(s, s.next) == 0;
  }

  lemma VerdictStep(cfg: Config, s: State, step: Step)
    requires Inv(cfg, s) && Enabled(cfg, s, step) && ValidConfig(cfg)
    ensures Verdict(cfg, Next(cfg, s, step))
  {
    if step.ReturnAtEnd? && !s.cancelled {
      DrainedIsComplete(cfg, s);
    }
    if step.Receive? && s.results[0].outcome.Err? {
      ResultIsCounted(s.results, 0);
      assert Copies(s, s.results[0].index) <= 1;
    }
  }

  lemma StepInv(cfg: Config, s: State, step: Step)
    requires Inv(cfg, s) && Enabled(cfg, s, step) && ValidConfig(cfg)
    ensures Inv(cfg, Next(cfg, s, step))
  {
    ContentStep(cfg, s, step);
    OrderedStep(cfg, s, step);
    ControlStep(cfg, s, step);
    CustodyStep(cfg, s, step);
    VerdictStep(cfg, s, step);
  }

  // ---------------------------------------------------------------- safety over whole runs

  lemma {:induction false} RunInv(cfg: Config, s: State, steps: seq<Step>)
    requires Inv(cfg, s) && ValidConfig(cfg) && IsRun(cfg, s, steps)
    ensures Inv(cfg, After(cfg, s, steps))
    decreases |steps|
  {
    if steps != [] {
      StepInv(cfg, s, steps[0]);
      RunInv(cfg, Next(cfg, s, steps[0]), steps[1..]);
    }
  }

  /** Under every interleaving the output is the sequential map of a prefix of the sorted files. */
  lemma OutputIsSequentialPrefix(cfg: Config, steps: seq<Step>)
    requires ValidConfig(cfg) && IsRun(cfg, Init(cfg), steps)
    ensures var s := After(cfg, Init(cfg), steps);
            && |s.output| == s.next <= |cfg.files|
            && forall i: nat | i < |s.output| :: ProcessFile(cfg, i) == Ok(s.output[i]) && RecordOf(cfg, i, s.output[i])
  {
    hide ProcessFile, RecordOf;
    InitInv(cfg);
    RunInv(cfg, Init(cfg), steps);
    var s := After(cfg, Init(cfg), steps);
    forall i: nat | i < |s.output|
      ensures RecordOf(cfg, i, s.output[i])
    {
      ProcessedMeaning(cfg, i);
    }
  }

  /** Each index handed out has exactly one place until somebody cancels, and at most one ever after. */
  lemma EveryIndexInOnePlace(cfg: Config, steps: seq<Step>, i: nat)
    requires ValidConfig(cfg) && IsRun(cfg, Init(cfg), steps)
    ensures var s := After(cfg, Init(cfg), steps);
            && Copies(s, i) <= 1
            && (i >= s.feeder.index ==> Copies(s, i) == 0)
            && (i < s.feeder.index && !s.cancelled ==> Copies(s, i) == 1)
  {
    InitInv(cfg);
    RunInv(cfg, Init(cfg), steps);
  }

  predicate AllFilesGood(cfg: Config) {
    forall i: nat | i < |cfg.files| :: GoodFile(cfg, cfg.files[i])
  }

  /**
   * What the value returned by runBackfill means. A nil return is the whole
   * sequential map. Unless the caller cancelled or a write failed, nil is
   * returned exactly when every file is good, and any other return names a
   * file that is not.
   */
  lemma ReturnMeaning(cfg: Config, steps: seq<Step>)
    requires ValidConfig(cfg) && IsRun(cfg, Init(cfg), steps)
    requires After(cfg, Init(cfg), steps).collector.Returned?
    ensures var s := After(cfg, Init(cfg), steps);
            var ret := s.collector.ret;
            && (ret.Completed? ==> AllFilesGood(cfg) && |s.output| == |cfg.files|)
            && (!s.outsideCancel && !ret.WriteFailed? ==> (ret.Completed? <==> AllFilesGood(cfg)))
            && (ret.FileFailed? ==> ret.index < |cfg.files| && FaultOf(cfg, cfg.files[ret.index], ret.error)
                                    && |s.output| <= ret.index)
            && (ret.Incomplete? ==> s.outsideCancel && ret.written == |s.output| < |cfg.files|)
  {
    hide ProcessFile, FaultOf, GoodFile;
    InitInv(cfg);
    RunInv(cfg, Init(cfg), steps);
    forall i: nat | i < |cfg.files| {
      ProcessedMeaning(cfg, i);
    }
    var s := After(cfg, Init(cfg), steps);
    if s.collector.ret.FileFailed? {
      GoodHasNoFault(cfg, cfg.files[s.collector.ret.index], s.collector.ret.error);
    }
  }

  lemma GoodHasNoFault(cfg: Config, file: File, error: FileError)
    ensures !(GoodFile(cfg, file) && FaultOf(cfg, file, error))
  {
  }

  // ---------------------------------------------------------------- progress and termination

  /** Every goroutine has ended. */
  predicate AllEnded(s: State) {
    && s.feeder.JobsClosed?
    && (forall w: nat | w < |s.workers| :: s.workers[w].Exited?)
    && s.resultsClosed
    && s.collector.Returned?
  }

  ghost predicate Stuck(cfg: Config, s: State) {
    forall step: Step | !step.OutsideCancel? :: !Enabled(cfg, s, step)
  }

  /** A step that can happen while some goroutine is still alive. */
  ghost function SomeStep(cfg: Config, s: State): (step: Step)
    requires Inv(cfg, s) && ValidConfig(cfg) && !AllEnded(s)
    ensures Enabled(cfg, s, step) && !step.OutsideCancel?
  {
    if s.collector.Draining? then
      if s.next in s.pending then Emit else DrainDone
    else if s.collector.Receiving? && s.results != [] then Receive
    else if s.feeder.Feeding? && (s.cancelled || s.feeder.index == |cfg.files|) then CloseJobs
    else if exists w: nat :: w < |s.workers| && !s.workers[w].Exited? then
      var w: nat :| w < |s.workers| && !s.workers[w].Exited?;
      match s.workers[w]
      case Idle => if s.feeder.Feeding? then Handoff(w) else WorkerExit(w)
      case Processing(_) => Process(w)
      case Sending(_) => if s.cancelled then WorkerExit(w) else Send(w)
    else if !s.resultsClosed then CloseResults
    else ReturnAtEnd
  }

  function WorkerWeight(w: Worker): nat {
    match w
    case Idle => 1
    case Processing(_) => 6
    case Sending(_) => 5
    case Exited => 0
  }

  function WorkersWeight(ws: seq<Worker>): nat {
    if ws == [] then 0 else WorkerWeight(ws[0]) + WorkersWeight(ws[1..])
  }

  function CollectorWeight(c: Collector): nat {
    match c
    case Receiving => 1
    case Draining => 2
    case Returned(_) => 0
  }

  /** The most steps that can still happen. */
  function Weight(cfg: Config, s: State): nat
    requires s.feeder.index <= |cfg.files|
  {
    (if s.feeder.Feeding? then 6 * (|cfg.files| - s.feeder.index) + 1 else 0)
    + WorkersWeight(s.workers) + 3 * |s.results| + |s.pending| + CollectorWeight(s.collector)
    + (if s.resultsClosed then 0 else 1) + (if s.outsideCancel then 0 else 1)
  }

  lemma {:induction false} WorkersWeightUpdate(ws: seq<Worker>, w: nat, x: Worker)
    requires w < |ws|
    ensures WorkersWeight(ws[w := x]) + WorkerWeight(ws[w]) == WorkersWeight(ws) + WorkerWeight(x)
  {
    if w > 0 {
      WorkersWeightUpdate(ws[1..], w - 1, x);
      assert ws[w := x][1..] == ws[1..][w - 1 := x];
    } else {
      assert ws[w := x][1..] == ws[1..];
    }
  }

  lemma {:induction false} IdleWeight(n: nat)
    ensures WorkersWeight(seq(n, _ => Idle)) == n
  {
    if n > 0 {
      IdleWeight(n - 1);
      assert seq(n, _ => Idle)[1..] == seq(n - 1, _ => Idle);
    }
  }

  lemma PendingGrows(pending: map<nat, Record>, i: nat, record: Record)
    ensures |pending[i := record]| <= |pending| + 1
  {
    assert pending[i := record].Keys == pending.Keys + {i};
  }

  lemma PendingShrinks(pending: map<nat, Record>, i: nat)
    requires i in pending
    ensures |pending - {i}| == |pending| - 1
  {
    assert (pending - {i}).Keys == pending.Keys - {i};
  }

  predicate IsWorkerStep(step: Step) {
    step.Handoff? || step.WorkerExit? || step.Process? || step.Send?
  }

  lemma WorkerStepLowersWeight(cfg: Config, s: State, step: Step)
    requires s.feeder.index <= |cfg.files| && Enabled(cfg, s, step) && IsWorkerStep(step)
    ensures Next(cfg, s, step).feeder.index <= |cfg.files|
    ensures Weight(cfg, Next(cfg, s, step)) < Weight(cfg, s)
  {
    hide WorkersWeight, ProcessFile;
    match step
    case Handoff(w) => WorkersWeightUpdate(s.workers, w, Processing(s.feeder.index));
    case WorkerExit(w) => WorkersWeightUpdate(s.workers, w, Exited);
    case Process(w) => WorkersWeightUpdate(s.workers, w, Next(cfg, s, step).workers[w]);
    case Send(w) => WorkersWeightUpdate(s.workers, w, Idle);
  }

  lemma ReceiveLowersWeight(cfg: Config, s: State)
    requires s.feeder.index <= |cfg.files| && Enabled(cfg, s, Receive)
    ensures Weight(cfg, Next(cfg, s, Receive)) < Weight(cfg, s)
  {
    hide WorkersWeight;
    if s.results[0].outcome.Ok? {
      PendingGrows(s.pending, s.results[0].index, s.results[0].outcome.value);
    }
  }

  lemma EmitLowersWeight(cfg: Config, s: State)
    requires s.feeder.index <= |cfg.files| && Enabled(cfg, s, Emit)
    ensures Weight(cfg, Next(cfg, s, Emit)) < Weight(cfg, s)
  {
    hide WorkersWeight;
    PendingShrinks(s.pending, s.next);
  }

  lemma StepLowersWeight(cfg: Config, s: State, step: Step)
    requires s.feeder.index <= |cfg.files| && Enabled(cfg, s, step)
    ensures Next(cfg, s, step).feeder.index <= |cfg.files|
    ensures Weight(cfg, Next(cfg, s, step)) < Weight(cfg, s)
  {
    hide WorkersWeight, ProcessFile;
    if IsWorkerStep(step) {
      WorkerStepLowersWeight(cfg, s, step);
    } else if step.Receive? {
      ReceiveLowersWeight(cfg, s);
    } else if step.Emit? {
      EmitLowersWeight(cfg, s);
    }
  }

  lemma {:induction false} RunLowersWeight(cfg: Config, s: State, steps: seq<Step>)
    requires s.feeder.index <= |cfg.files| && IsRun(cfg, s, steps)
    ensures After(cfg, s, steps).feeder.index <= |cfg.files|
    ensures |steps| + Weight(cfg, After(cfg, s, steps)) <= Weight(cfg, s)
    decreases |steps|
  {
    if steps != [] {
      StepLowersWeight(cfg, s, steps[0]);
      RunLowersWeight(cfg, Next(cfg, s, steps[0]), steps[1..]);
    }
  }

  lemma StuckExactly(cfg: Config, s: State)
    requires Inv(cfg, s) && ValidConfig(cfg)
    ensures Stuck(cfg, s) <==> AllEnded(s)
  {
    if !AllEnded(s) {
      var step := SomeStep(cfg, s);
    }
  }

  /**
   * No run is longer than 6 steps a file plus 4 plus one a worker, and a run
   * that can go no further has ended every goroutine: the pipeline neither
   * deadlocks nor leaks, whatever failed or was cancelled on the way.
   */
  lemma EveryRunEnds(cfg: Config, steps: seq<Step>)
    requires ValidConfig(cfg) && IsRun(cfg, Init(cfg), steps)
    ensures |steps| <= 6 * |cfg.files| + cfg.workers + 4
    ensures var s := After(cfg, Init(cfg), steps); Stuck(cfg, s) <==> AllEnded(s)
  {
    hide Inv, Stuck, AllEnded;
    IdleWeight(cfg.workers);
    RunLowersWeight(cfg, Init(cfg), steps);
    InitInv(cfg);
    RunInv(cfg, Init(cfg), steps);
    StuckExactly(cfg, After(cfg, Init(cfg), steps));
  }

  // ---------------------------------------------------------------- how far workers can get ahead

  /** The first n workers have each been handed the file of their own number, one after another. */
  function Handoffs(n: nat): (steps: seq<Step>)
    ensures |steps| == n && forall w: nat | w < n :: steps[w] == Handoff(w)
  {
    seq(n, (w: nat) requires w < n => Handoff(w))
  }

  lemma {:induction false} RunsJoin(cfg: Config, s: State, a: seq<Step>, b: seq<Step>)
    requires IsRun(cfg, s, a) && IsRun(cfg, After(cfg, s, a), b)
    ensures IsRun(cfg, s, a + b) && After(cfg, s, a + b) == After(cfg, After(cfg, s, a), b)
    decreases |a|
  {
    if a == [] {
      assert a + b == b;
    } else {
      RunsJoin(cfg, Next(cfg, s, a[0]), a[1..], b);
      assert (a + b)[1..] == a[1..] + b && (a + b)[0] == a[0];
    }
  }

  lemma OneStep(cfg: Config, s: State, step: Step)
    requires Enabled(cfg, s, step)
    ensures IsRun(cfg, s, [step]) && After(cfg, s, [step]) == Next(cfg, s, step)
  {
    assert [step][1..] == [];
  }

  /** The state after n workers took a job each. */
  predicate TookJobs(cfg: Config, s: State, n: nat) {
    && n <= cfg.workers && s == Init(cfg).(feeder := Feeding(n), workers := s.workers) && |s.workers| == cfg.workers
    && (forall w: nat | w < n :: s.workers[w] == Processing(w))
    && (forall w: nat | n <= w < cfg.workers :: s.workers[w] == Idle)
  }

  /** As many files are processed at once as there are workers. */
  lemma {:induction false} AllWorkAtOnce(cfg: Config, n: nat)
    requires n <= cfg.workers && n <= |cfg.files|
    ensures IsRun(cfg, Init(cfg), Handoffs(n)) && TookJobs(cfg, After(cfg, Init(cfg), Handoffs(n)), n)
  {
    if n > 0 {
      AllWorkAtOnce(cfg, n - 1);
      var s := After(cfg, Init(cfg), Handoffs(n - 1));
      OneStep(cfg, s, Handoff(n - 1));
      RunsJoin(cfg, Init(cfg), Handoffs(n - 1), [Handoff(n - 1)]);
      assert Handoffs(n) == Handoffs(n - 1) + [Handoff(n - 1)];
    }
  }

  /** After k of the n workers finished, last job first, and put their results into the buffer. */
  predicate FilledBuffer(cfg: Config, s: State, n: nat, k: nat) {
    && k <= n <= cfg.workers && n <= |cfg.files| && |s.workers| == cfg.workers
    && s == Init(cfg).(feeder := Feeding(n), workers := s.workers, results := s.results) && |s.results| == k
    && (forall w: nat | w < n - k :: s.workers[w] == Processing(w))
    && (forall w: nat | n - k <= w < cfg.workers :: s.workers[w] == Idle)
    && (forall i: nat | i < k :: s.results[i] == JobResult(n - 1 - i, ProcessFile(cfg, n - 1 - i)))
  }

  /**
   * All of them may finish before the collector takes anything, and in the
   * opposite order: the buffer then holds a result a worker, last file first.
   */
  lemma {:induction false} BufferFillsBackwards(cfg: Config, s: State, n: nat, k: nat) returns (steps: seq<Step>)
    requires n <= |cfg.files| && k <= n && TookJobs(cfg, s, n)
    ensures IsRun(cfg, s, steps) && FilledBuffer(cfg, After(cfg, s, steps), n, k)
  {
    hide ProcessFile;
    if k == 0 {
      steps := [];
    } else {
      var before := BufferFillsBackwards(cfg, s, n, k - 1);
      var t := After(cfg, s, before);
      var w := n - k;
      var t1 := Next(cfg, t, Process(w));
      OneStep(cfg, t, Process(w));
      OneStep(cfg, t1, Send(w));
      RunsJoin(cfg, t, [Process(w)], [Send(w)]);
      RunsJoin(cfg, s, before, [Process(w)] + [Send(w)]);
      steps := before + ([Process(w)] + [Send(w)]);
    }
  }

  /** Whatever the pipeline is at, the caller may cancel once, and any write may fail. */
  lemma AnythingMayFail(cfg: Config, s: State)
    ensures Enabled(cfg, s, OutsideCancel) <==> !s.outsideCancel
    ensures Enabled(cfg, s, EmitFails) <==> Enabled(cfg, s, Emit)
  {
  }

  /** A select may still choose another ready case once the context is cancelled: every step stays possible. */
  lemma CancelStopsNothing(cfg: Config, s: State, step: Step)
    requires Enabled(cfg, s, step) && !step.OutsideCancel? && !s.outsideCancel
    ensures var t := Next(cfg, s, OutsideCancel);
            && Enabled(cfg, t, step)
            && Next(cfg, t, step) == Next(cfg, Next(cfg, s, step), OutsideCancel)
  {
    hide ProcessFile;
  }

  // ---------------------------------------------------------------- the collector's loop

  /** The output stream: Encode fails once room is used up. */
  class Writer {
    var lines: seq<Record>
    var room: nat

    constructor (room: nat)
      ensures lines == [] && this.room == room
    {
      lines, this.room := [], room;
    }

    method Encode(record: Record) returns (ok: bool)
      modifies this
      ensures ok == (old(room) > 0)
      ensures ok ==> lines == old(lines) + [record] && room == old(room) - 1
      ensures !ok ==> lines == old(lines) && room == old(room)
    {
      ok := room > 0;
      if ok {
        lines, room := lines + [record], room - 1;
      }
    }
  }

  /** The first index at or after next that is missing from pending or that there is no room to write. */
  function StopAt(next: nat, pending: map<nat, Record>, room: nat): (stop: nat)
    ensures next <= stop <= next + room
    ensures forall i: nat | next <= i < stop :: i in pending
    ensures stop < next + room ==> stop !in pending
    decreases room
  {
    if room > 0 && next in pending then StopAt(next + 1, pending, room - 1) else next
  }

  function Slice(pending: map<nat, Record>, lo: nat, hi: nat): seq<Record>
    requires lo <= hi && forall i: nat | lo <= i < hi :: i in pending
  {
    seq(hi - lo, (k: nat) requires k < hi - lo => pending[lo + k])
  }

  function Without(pending: map<nat, Record>, lo: nat, hi: nat): map<nat, Record> {
    map i | i in pending && !(lo <= i < hi) :: pending[i]
  }

  lemma SliceGrows(pending: map<nat, Record>, lo: nat, hi: nat)
    requires lo <= hi && forall i: nat | lo <= i <= hi :: i in pending
    ensures Slice(pending, lo, hi + 1) == Slice(pending, lo, hi) + [pending[hi]]
    ensures Without(pending, lo, hi) - {hi} == Without(pending, lo, hi + 1)
  {
  }

  /** The locals of runBackfill that the range over results updates. */
  class Reorder {
    var next: nat
    var pending: map<nat, Record>

    constructor ()
      ensures next == 0 && pending == map[]
    {
      next, pending := 0, map[];
    }

    /** One iteration of the range over results; Some stops runBackfill with that return. */
    method Accept(result: JobResult, writer: Writer) returns (ret: Option<Return>)
      modifies this, writer
      ensures result.outcome.Err? ==>
                && ret == Some(FileFailed(result.index, result.outcome.error))
                && next == old(next) && pending == old(pending) && writer.lines == old(writer.lines)
      ensures result.outcome.Ok? ==>
                var all := old(pending)[result.index := result.outcome.value];
                var stop := StopAt(old(next), all, old(writer.room));
                && next == stop
                && writer.lines == old(writer.lines) + Slice(all, old(next), stop)
                && pending == Without(all, old(next), stop)
                && ret == (if stop in all then Some(WriteFailed) else None)
    {
      if result.outcome.Err? {
        return Some(FileFailed(result.index, result.outcome.error));
      }
      pending := pending[result.index := result.outcome.value];
      ghost var all := pending;
      ghost var stop := StopAt(next, all, writer.room);
      while next in pending
        invariant old(next) <= next <= stop
        invariant stop == StopAt(next, all, writer.room)
        invariant pending == Without(all, old(next), next)
        invariant writer.lines == old(writer.lines) + Slice(all, old(next), next)
        decreases stop - next
      {
        var ok := writer.Encode(pending[next]);
        if !ok {
          return Some(WriteFailed);
        }
        SliceGrows(all, old(next), next);
        pending := pending - {next};
        next := next + 1;
      }
      return None;
    }
  }

  lemma FirstOfSlice(pending: map<nat, Record>, lo: nat, hi: nat, output: seq<Record>)
    requires lo < hi && forall i: nat | lo <= i < hi :: i in pending
    ensures Without(pending - {lo}, lo + 1, hi) == Without(pending, lo, hi)
    ensures forall i: nat | lo + 1 <= i < hi :: i in pending - {lo}
    ensures (output + [pending[lo]]) + Slice(pending - {lo}, lo + 1, hi) == output + Slice(pending, lo, hi)
  {
  }

  /** The loop of Reorder.Accept is a run of Emit steps of the pipeline. */
  lemma {:induction false} DrainIsEmits(cfg: Config, s: State, stop: nat)
    requires s.collector.Draining? && s.next <= stop
    requires forall i: nat | s.next <= i < stop :: i in s.pending
    ensures var steps := seq(stop - s.next, _ => Emit);
            && IsRun(cfg, s, steps)
            && After(cfg, s, steps) ==
               s.(next := stop,
                  pending := Without(s.pending, s.next, stop),
                  output := s.output + Slice(s.pending, s.next, stop))
    decreases stop - s.next
  {
    hide ProcessFile;
    var steps := seq(stop - s.next, _ => Emit);
    if s.next == stop {
      assert Without(s.pending, s.next, stop) == s.pending;
      assert s.output + Slice(s.pending, s.next, stop) == s.output;
    } else {
      var t := Next(cfg, s, Emit);
      DrainIsEmits(cfg, t, stop);
      assert steps[1..] == seq(stop - t.next, _ => Emit);
      FirstOfSlice(s.pending, s.next, stop, s.output);
    }
  }
}
