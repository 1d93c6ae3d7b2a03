/** The logger's life cycle as a transition system: any number of producers inside log(), one thread
    at a time inside init() or stop(), and the worker, interleaved in every way the locks allow.

    init and stop hold the life-cycle lock exclusively from their first step to their last; a
    producer holds it shared only while it checks `running` and reads the queue's generation. The
    queue's own mutex makes each queue call one step. A thread blocked in a queue wait takes its
    next step once the predicate it waits for holds; WakeProtocol shows that the notifications
    never leave it parked then. */
module Lifecycle {
  import opened QueueSpec

  datatype Option<T> = None | Some(value: T)

  datatype FlushPolicy = OnStop | Periodic | EveryBatch

  datatype Config = Config(
    basePath: string,
    minLevel: int,
    maxFileSize: nat,
    queueCapacity: nat,
    overflowPolicy: OverflowPolicy,
    writeBatchSize: nat,
    flushPolicy: FlushPolicy,
    flushInterval: int,
    flushAtOrAbove: Option<int>,
    enableFileSink: bool,
    enableConsoleSink: bool,
    additionalSinks: seq<bool>)  // false stands for a null pointer

  predicate ValidLevel(level: int) {
    0 <= level <= 4  // DEBUG to FATAL
  }

  predicate ValidConfig(c: Config) {
    && c.queueCapacity != 0
    && c.writeBatchSize != 0
    && ValidLevel(c.minLevel)
    && (c.flushPolicy == Periodic ==> c.flushInterval > 0)
    && (c.flushAtOrAbove.Some? ==> ValidLevel(c.flushAtOrAbove.value))
    && (c.enableFileSink || c.enableConsoleSink || c.additionalSinks != [])
    && (c.enableFileSink ==> c.basePath != "" && c.maxFileSize != 0)
    && false !in c.additionalSinks
  }

  function SinkCount(c: Config): nat {
    (if c.enableFileSink then 1 else 0) + (if c.enableConsoleSink then 1 else 0) + |c.additionalSinks|
  }

  /** One log() call: the number of the call among its thread's calls, and the life cycle and the
      minimum level that were current when the call passed the running and level check. */
  datatype Record = Record(producer: nat, number: nat, level: int, lifecycle: nat, minimum: int)

  datatype SinkEvent = Write(batch: seq<Record>) | WriteFailed(part: seq<Record>) | Flush | FlushFailed | CloseSink

  type Log = seq<SinkEvent>

  datatype ProducerPc =
    | Outside
    | Holding(level: int)                        // has the shared lock, has checked nothing yet
    | Passed(record: Record)                     // has the shared lock, saw running and level
    | Captured(record: Record, generation: nat)  // lock released, on its way to push
    | Blocked(record: Record, generation: nat)   // waiting for room inside push

  datatype Producer = Producer(pc: ProducerPc, calls: nat)

  datatype Control =
    | Free
    | StopEntered | StopFlagged | StopJoining | StopClosing | StopClearing
    | InitEntered(config: Config) | InitJoining(config: Config) | InitDiscarding(config: Config)
    | InitClearing(config: Config) | InitBuilding(config: Config) | InitResetting(config: Config)
    | InitInstalling(config: Config) | InitStarting | InitSpawning
    | UndoFlagging | UndoClosing | UndoDiscarding | UndoClearing

  datatype Worker =
    | Absent                       // no joinable thread
    | Polling                      // in, or about to call, popBatch or popBatchFor
    | Missed                       // the pop returned false
    | TestingClosed
    | Formatting
    | Writing(sink: nat)
    | FailFlagging | FailClosing   // the handler of the loop's exceptions
    | FinalFlushing
    | LateFlagging | LateClosing   // the handler of the final flush's exceptions
    | Exited

  /** A life cycle at the moment its sinks are dropped. */
  datatype Ended = Ended(
    config: Config, lifecycle: nat, logs: seq<Log>, queue: State<Record>,
    batch: seq<Record>, failed: bool, lastMiss: nat)

  datatype System = System(
    queue: State<Record>,
    running: bool,
    minLevel: int,
    producers: seq<Producer>,
    control: Control,
    worker: Worker,
    batch: seq<Record>,     // the worker's current batch
    config: Config,
    lifecycle: nat,         // how many times sinks have been installed
    sinks: seq<Log>,
    failed: bool,           // this life cycle's worker failed, or could not be started
    lastMiss: nat,          // how many records were accepted when popBatchFor last timed out
    archive: seq<Ended>)

  // ---------------------------------------------------------------- actions

  datatype ProducerAct = Begin(level: int) | Check | Capture | Submit | Resubmit

  datatype ControlAct =
    | CallStop | StopFlag | StopClose | StopJoin | StopCloseSinks | StopClear
    | CallInit(config: Config) | InitValidate | InitJoin | InitCloseSinks | InitClear | InitBuild(ok: bool)
    | InitReset | InitInstall | InitRun | InitSpawn(ok: bool)
    | UndoFlag | UndoClose | UndoCloseSinks | UndoClear

  /** What the environment decides is part of the action: whether a wait expires, whether the clock
      has reached nextFlush, and which call throws. */
  datatype WorkerAct =
    | Poll(expired: bool)
    | AfterMiss(due: bool, failing: Option<nat>)
    | TestClosed
    | Format(ok: bool)
    | WriteNext(failing: Option<nat>)  // Some(k): the sink throws after taking k records
    | FinishBatch(due: bool, failing: Option<nat>)
    | FailFlag | FailClose
    | FinalFlush(failing: Option<nat>)
    | LateFlag | LateClose

  datatype Action =
    | ByProducer(p: nat, producerAct: ProducerAct)
    | ByControl(controlAct: ControlAct)
    | ByWorker(workerAct: WorkerAct)
    | SetLevel(level: int)

  // ---------------------------------------------------------------- producers

  predicate HoldsShared(p: Producer) {
    p.pc.Holding? || p.pc.Passed?
  }

  predicate ProducerEnabled(s: System, p: nat, act: ProducerAct) {
    && p < |s.producers|
    && var pc := s.producers[p].pc;
       match act
       case Begin(level) => pc.Outside? && s.control.Free? && ValidLevel(level)
       case Check => pc.Holding?
       case Capture => pc.Passed?
       case Submit => pc.Captured?
       case Resubmit => pc.Blocked? && RoomOrOver(s.queue, pc.generation)
  }

  function ApplyProducer(s: System, p: nat, act: ProducerAct): System
    requires ProducerEnabled(s, p, act)
  {
    var me := s.producers[p];
    match act
    case Begin(level) =>
      s.(producers := s.producers[p := Producer(Holding(level), me.calls + 1)])
    case Check =>
      if !s.running || me.pc.level < s.minLevel then
        s.(producers := s.producers[p := me.(pc := Outside)])
      else
        s.(producers := s.producers[p := me.(pc := Passed(Record(p, me.calls, me.pc.level, s.lifecycle, s.minLevel)))])
    case Capture =>
      s.(producers := s.producers[p := me.(pc := Captured(me.pc.record, s.queue.generation))])
    case Submit =>
      var (q, outcome) := PushEnter(s.queue, me.pc.generation, me.pc.record);
      var pc := if outcome.WaitForRoom? then Blocked(me.pc.record, me.pc.generation) else Outside;
      s.(queue := q, producers := s.producers[p := me.(pc := pc)])
    case Resubmit =>
      var (q, outcome) := PushResume(s.queue, me.pc.generation, me.pc.record);
      var pc := if outcome.WaitForRoom? then me.pc else Outside;
      s.(queue := q, producers := s.producers[p := me.(pc := pc)])
  }

  // ---------------------------------------------------------------- sinks

  function EachSink(sinks: seq<Log>, event: SinkEvent): seq<Log> {
    seq(|sinks|, i requires 0 <= i < |sinks| => sinks[i] + [event])
  }

  /** flushSinks: every sink in turn, up to the one that throws. */
  function FlushSinks(sinks: seq<Log>, failing: Option<nat>): seq<Log> {
    seq(|sinks|, i requires 0 <= i < |sinks| =>
      if failing.None? || i < failing.value then sinks[i] + [Flush]
      else if i == failing.value then sinks[i] + [FlushFailed]
      else sinks[i])
  }

  predicate FailingIndex(sinks: seq<Log>, failing: Option<nat>) {
    failing.Some? ==> failing.value < |sinks|
  }

  function Archived(s: System): System {
    if s.sinks == [] then s
    else s.(sinks := [],
            archive := s.archive + [Ended(s.config, s.lifecycle, s.sinks, s.queue, s.batch, s.failed, s.lastMiss)])
  }

  // ---------------------------------------------------------------- init and stop

  predicate NoSharedHolder(s: System) {
    forall p | 0 <= p < |s.producers| :: !HoldsShared(s.producers[p])
  }

  predicate Joinable(s: System) {
    s.worker.Absent? || s.worker.Exited?
  }

  // The steps of stop; those of init up to the building of the sinks, and from the reset on; and
  // those that undo a start when the worker could not be started.

  predicate IsStop(act: ControlAct) {
    || act.CallStop? || act.StopFlag? || act.StopClose? || act.StopJoin? || act.StopCloseSinks? || act.StopClear?
  }

  predicate IsInit(act: ControlAct) {
    act.CallInit? || act.InitValidate? || act.InitJoin? || act.InitCloseSinks? || act.InitClear? || act.InitBuild?
  }

  predicate IsStart(act: ControlAct) {
    act.InitReset? || act.InitInstall? || act.InitRun? || act.InitSpawn?
  }

  predicate IsUndo(act: ControlAct) {
    act.UndoFlag? || act.UndoClose? || act.UndoCloseSinks? || act.UndoClear?
  }

  predicate StopEnabled(s: System, act: ControlAct)
    requires IsStop(act)
  {
    match act
    case CallStop => s.control.Free? && NoSharedHolder(s)
    case StopFlag => s.control.StopEntered?
    case StopClose => s.control.StopFlagged?
    case StopJoin => s.control.StopJoining? && Joinable(s)
    case StopCloseSinks => s.control.StopClosing?
    case StopClear => s.control.StopClearing?
  }

  predicate InitEnabled(s: System, act: ControlAct)
    requires IsInit(act)
  {
    match act
    case CallInit(_) => s.control.Free? && NoSharedHolder(s)
    case InitValidate => s.control.InitEntered?
    case InitJoin => s.control.InitJoining? && Joinable(s)
    case InitCloseSinks => s.control.InitDiscarding?
    case InitClear => s.control.InitClearing?
    case InitBuild(_) => s.control.InitBuilding?
  }

  predicate StartEnabled(s: System, act: ControlAct)
    requires IsStart(act)
  {
    match act
    case InitReset => s.control.InitResetting?
    case InitInstall => s.control.InitInstalling?
    case InitRun => s.control.InitStarting?
    case InitSpawn(_) => s.control.InitSpawning?
  }

  predicate UndoEnabled(s: System, act: ControlAct)
    requires IsUndo(act)
  {
    match act
    case UndoFlag => s.control.UndoFlagging?
    case UndoClose => s.control.UndoClosing?
    case UndoCloseSinks => s.control.UndoDiscarding?
    case UndoClear => s.control.UndoClearing?
  }

  predicate ControlEnabled(s: System, act: ControlAct) {
    if IsStop(act) then StopEnabled(s, act)
    else if IsInit(act) then InitEnabled(s, act)
    else if IsStart(act) then StartEnabled(s, act)
    else UndoEnabled(s, act)
  }

  function ApplyStop(s: System, act: ControlAct): System
    requires IsStop(act) && StopEnabled(s, act)
  {
    match act
    case CallStop => s.(control := StopEntered)
    case StopFlag => s.(running := false, control := StopFlagged)
    case StopClose => s.(queue := Close(s.queue), control := StopJoining)
    case StopJoin => s.(worker := Absent, control := StopClosing)
    case StopCloseSinks => s.(sinks := EachSink(s.sinks, CloseSink), control := StopClearing)
    case StopClear => Archived(s).(control := Free)
  }

  function ApplyInit(s: System, act: ControlAct): System
    requires IsInit(act) && InitEnabled(s, act)
  {
    match act
    case CallInit(config) => s.(control := InitEntered(config))
    case InitValidate =>
      if s.running || !ValidConfig(s.control.config) then s.(control := Free)
      else s.(control := InitJoining(s.control.config))
    case InitJoin => s.(worker := Absent, control := InitDiscarding(s.control.config))
    case InitCloseSinks =>
      s.(sinks := EachSink(s.sinks, CloseSink), control := InitClearing(s.control.config))
    case InitClear => Archived(s).(control := InitBuilding(s.control.config))
    case InitBuild(ok) => s.(control := if ok then InitResetting(s.control.config) else Free)
  }

  function ApplyStart(s: System, act: ControlAct): System
    requires IsStart(act) && StartEnabled(s, act)
  {
    match act
    case InitReset =>
      s.(queue := Reset(s.queue, s.control.config.queueCapacity, s.control.config.overflowPolicy),
         control := InitInstalling(s.control.config))
    case InitInstall =>
      var config := s.control.config;
      s.(minLevel := config.minLevel, config := config, lifecycle := s.lifecycle + 1,
         sinks := seq(SinkCount(config), _ => []), batch := [], failed := false, lastMiss := 0,
         control := InitStarting)
    case InitRun => s.(running := true, control := InitSpawning)
    case InitSpawn(ok) =>
      if ok then s.(worker := Polling, control := Free)
      else s.(failed := true, control := UndoFlagging)
  }

  function ApplyUndo(s: System, act: ControlAct): System
    requires IsUndo(act) && UndoEnabled(s, act)
  {
    match act
    case UndoFlag => s.(running := false, control := UndoClosing)
    case UndoClose => s.(queue := Close(s.queue), control := UndoDiscarding)
    case UndoCloseSinks => s.(sinks := EachSink(s.sinks, CloseSink), control := UndoClearing)
    case UndoClear => Archived(s).(control := Free)
  }

  function ApplyControl(s: System, act: ControlAct): System
    requires ControlEnabled(s, act)
  {
    if IsStop(act) then ApplyStop(s, act)
    else if IsInit(act) then ApplyInit(s, act)
    else if IsStart(act) then ApplyStart(s, act)
    else ApplyUndo(s, act)
  }

  // ---------------------------------------------------------------- the worker

  predicate AtOrAbove(batch: seq<Record>, threshold: Option<int>) {
    threshold.Some? && exists i | 0 <= i < |batch| :: batch[i].level >= threshold.value
  }

  predicate WorkerEnabled(s: System, act: WorkerAct) {
    var w := s.worker;
    match act
    case Poll(expired) =>
      && w.Polling?
      && (expired ==> s.config.flushPolicy == Periodic)
      && !PopBatch(s.queue, s.config.writeBatchSize, expired).1.WaitForData?
    case AfterMiss(_, failing) => w.Missed? && FailingIndex(s.sinks, failing)
    case TestClosed => w.TestingClosed?
    case Format(_) => w.Formatting?
    case WriteNext(failing) =>
      w.Writing? && w.sink < |s.sinks| && (failing.Some? ==> failing.value <= |s.batch|)
    case FinishBatch(_, failing) => w.Writing? && w.sink >= |s.sinks| && FailingIndex(s.sinks, failing)
    case FailFlag => w.FailFlagging?
    case FailClose => w.FailClosing?
    case FinalFlush(failing) => w.FinalFlushing? && FailingIndex(s.sinks, failing)
    case LateFlag => w.LateFlagging?
    case LateClose => w.LateClosing?
  }

  /** flushSinks, then on to `next`, or to `handler` when a sink throws. */
  function Flushed(s: System, failing: Option<nat>, next: Worker, handler: Worker): System {
    s.(sinks := FlushSinks(s.sinks, failing),
       failed := s.failed || failing.Some?,
       worker := if failing.Some? then handler else next)
  }

  function ApplyWorker(s: System, act: WorkerAct): System
    requires WorkerEnabled(s, act)
  {
    match act
    case Poll(expired) =>
      var (q, outcome) := PopBatch(s.queue, s.config.writeBatchSize, expired);
      if outcome.Got? then
        s.(queue := q, batch := outcome.values, worker := Formatting)
      else if s.queue.closed then
        s.(batch := [], worker := Missed)
      else
        s.(batch := [], worker := Missed, lastMiss := |s.queue.history.accepted|)
    case AfterMiss(due, failing) =>
      if s.config.flushPolicy == Periodic && due then Flushed(s, failing, TestingClosed, FailFlagging)
      else s.(worker := TestingClosed)
    case TestClosed =>
      s.(worker := if s.queue.closed then FinalFlushing else Polling)
    case Format(ok) =>
      if ok then s.(worker := Writing(0)) else s.(failed := true, worker := FailFlagging)
    case WriteNext(failing) =>
      var i := s.worker.sink;
      if failing.None? then
        s.(sinks := s.sinks[i := s.sinks[i] + [Write(s.batch)]], worker := Writing(i + 1))
      else
        s.(sinks := s.sinks[i := s.sinks[i] + [WriteFailed(s.batch[..failing.value])]],
           failed := true, worker := FailFlagging)
    case FinishBatch(due, failing) =>
      if s.config.flushPolicy == EveryBatch || AtOrAbove(s.batch, s.config.flushAtOrAbove)
         || (s.config.flushPolicy == Periodic && due) then
        Flushed(s, failing, Polling, FailFlagging)
      else
        s.(worker := Polling)
    case FailFlag => s.(running := false, worker := FailClosing)
    case FailClose => s.(queue := Close(s.queue), worker := FinalFlushing)
    case FinalFlush(failing) => Flushed(s, failing, Exited, LateFlagging)
    case LateFlag => s.(running := false, worker := LateClosing)
    case LateClose => s.(queue := Close(s.queue), worker := Exited)
  }

  // ---------------------------------------------------------------- runs

  predicate Enabled(s: System, a: Action) {
    match a
    case ByProducer(p, act) => ProducerEnabled(s, p, act)
    case ByControl(act) => ControlEnabled(s, act)
    case ByWorker(act) => WorkerEnabled(s, act)
    case SetLevel(_) => true
  }

  function Apply(s: System, a: Action): System
    requires Enabled(s, a)
  {
    match a
    case ByProducer(p, act) => ApplyProducer(s, p, act)
    case ByControl(act) => ApplyControl(s, act)
    case ByWorker(act) => ApplyWorker(s, act)
    case SetLevel(level) => s.(minLevel := level)
  }

  predicate Runs(s: System, trace: seq<Action>)
    decreases |trace|
  {
    trace == [] || (Enabled(s, trace[0]) && Runs(Apply(s, trace[0]), trace[1..]))
  }

  function After(s: System, trace: seq<Action>): System
    requires Runs(s, trace)
    decreases |trace|
  {
    if trace == [] then s else After(Apply(s, trace[0]), trace[1..])
  }

  const DEFAULT_CONFIG: Config :=
    Config("", 0, 1024 * 1024, 8192, Block, 256, Periodic, 1000, Some(3), true, false, [])

  /** A logger never initialized, and `count` threads that have not logged yet. */
  function Start(count: nat): System {
    System(Initial(), false, 0, seq(count, _ => Producer(Outside, 0)), Free, Absent, [],
           DEFAULT_CONFIG, 0, [], false, 0, [])
  }

  function Payload(event: SinkEvent): seq<Record> {
    match event
    case Write(batch) => batch
    case WriteFailed(part) => part
    case _ => []
  }

  /** What a sink has been given, in order. */
  function Delivered(log: Log): seq<Record> {
    if log == [] then [] else Delivered(log[..|log| - 1]) + Payload(log[|log| - 1])
  }
}
