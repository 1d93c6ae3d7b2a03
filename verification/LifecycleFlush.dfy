/** When the worker flushes, and when it does not, in every run of the logger. */
module LifecycleFlush {
  import opened QueueSpec
  import opened Lifecycle
  import opened LifecycleSafety
  import opened LifecycleTheorems
  import opened LifecycleConfig

  // ---------------------------------------------------------------- what a flush policy asks for

  predicate FlushCall(event: SinkEvent) {
    event.Flush? || event.FlushFailed?
  }

  /** The configuration asks for a flush after every batch, or this one reaches the threshold. */
  predicate Demands(config: Config, batch: seq<Record>) {
    || config.flushPolicy == EveryBatch
    || (config.flushAtOrAbove.Some? && exists i | 0 <= i < |batch| :: batch[i].level >= config.flushAtOrAbove.value)
  }

  /** The flush at k has a reason: a deadline, or the batch just written. */
  ghost predicate HasReason(config: Config, log: Log, k: nat)
    requires k < |log|
  {
    config.flushPolicy == Periodic || (k > 0 && log[k - 1].Write? && Demands(config, log[k - 1].batch))
  }

  ghost predicate Reasons(config: Config, log: Log, upTo: int) {
    forall k | 0 <= k < upTo && k < |log| && FlushCall(log[k]) :: HasReason(config, log, k)
  }

  /** What a sink was given since its last flush. */
  function Unflushed(log: Log): seq<Record> {
    if log == [] then []
    else if log[|log| - 1].Flush? then []
    else Unflushed(log[..|log| - 1]) + Payload(log[|log| - 1])
  }

  ghost predicate NothingOwed(config: Config, log: Log) {
    && (config.flushPolicy == EveryBatch ==> Unflushed(log) == [])
    && (config.flushAtOrAbove.Some? ==>
          forall i | 0 <= i < |Unflushed(log)| :: Unflushed(log)[i].level < config.flushAtOrAbove.value)
  }

  /** The log of a sink that has the batch, but was not flushed yet. */
  ghost predicate JustWritten(config: Config, log: Log, batch: seq<Record>) {
    log != [] && log[|log| - 1] == Write(batch) && NothingOwed(config, log[..|log| - 1])
  }

  // ---------------------------------------------------------------- the invariant

  ghost predicate OwedOk(config: Config, sinks: seq<Log>, batch: seq<Record>, w: Worker) {
    match w
    case Polling => forall j | 0 <= j < |sinks| :: NothingOwed(config, sinks[j])
    case Missed => forall j | 0 <= j < |sinks| :: NothingOwed(config, sinks[j])
    case TestingClosed => forall j | 0 <= j < |sinks| :: NothingOwed(config, sinks[j])
    case Formatting => forall j | 0 <= j < |sinks| :: NothingOwed(config, sinks[j])
    case Writing(i) =>
      && (forall j | 0 <= j < |sinks| && j < i :: JustWritten(config, sinks[j], batch))
      && (forall j | 0 <= j < |sinks| && i <= j :: NothingOwed(config, sinks[j]))
    case _ => true
  }

  /** How far back the flushes of a log need a reason: the flush on leaving the loop needs none. */
  function Answerable(c: Control, w: Worker, log: Log): int {
    if SinksClosed(c) then |log| - 2
    else if w.Absent? || w.LateFlagging? || w.LateClosing? || w.Exited? then |log| - 1
    else |log|
  }

  ghost predicate ReasonInv(s: System) {
    && (forall j | 0 <= j < |s.sinks| :: Reasons(s.config, s.sinks[j], Answerable(s.control, s.worker, s.sinks[j])))
    && (forall e, j | e in s.archive && 0 <= j < |e.logs| :: Reasons(e.config, e.logs[j], |e.logs[j]| - 2))
  }

  ghost predicate FlushInv(s: System) {
    ReasonInv(s) && (!s.failed ==> OwedOk(s.config, s.sinks, s.batch, s.worker))
  }

  // ---------------------------------------------------------------- one more event

  lemma UnflushedSnoc(log: Log, event: SinkEvent)
    ensures Unflushed(log + [event]) == if event.Flush? then [] else Unflushed(log) + Payload(event)
  {
    assert (log + [event])[..|log|] == log;
  }

  lemma ReasonsSnoc(config: Config, log: Log, event: SinkEvent)
    requires Reasons(config, log, |log|)
    ensures Reasons(config, log + [event], |log|)
    ensures !FlushCall(event) ==> Reasons(config, log + [event], |log| + 1)
    ensures HasReason(config, log + [event], |log|) ==> Reasons(config, log + [event], |log| + 1)
  {
    var t := log + [event];
    forall k | 0 <= k < |log| && FlushCall(t[k]) ensures HasReason(config, t, k) {
      assert HasReason(config, log, k);
    }
  }

  /** A flush that comes without a demand, as on leaving the loop. */
  lemma FlushedReasons(config: Config, sinks: seq<Log>, failing: Option<nat>)
    requires forall j | 0 <= j < |sinks| :: Reasons(config, sinks[j], |sinks[j]|)
    ensures var t := FlushSinks(sinks, failing);
            forall j | 0 <= j < |t| :: Reasons(config, t[j], |t[j]| - 1)
  {
    forall j | 0 <= j < |sinks|
      ensures Reasons(config, FlushSinks(sinks, failing)[j], |FlushSinks(sinks, failing)[j]| - 1)
    {
      ReasonsSnoc(config, sinks[j], Flush);
      ReasonsSnoc(config, sinks[j], FlushFailed);
    }
  }

  lemma DemandedFlush(config: Config, sinks: seq<Log>, failing: Option<nat>)
    requires forall j | 0 <= j < |sinks| :: Reasons(config, sinks[j], |sinks[j]|)
    requires config.flushPolicy == Periodic
             || forall j | 0 <= j < |sinks| ::
                  sinks[j] != [] && sinks[j][|sinks[j]| - 1].Write? && Demands(config, sinks[j][|sinks[j]| - 1].batch)
    ensures var t := FlushSinks(sinks, failing);
            forall j | 0 <= j < |t| :: Reasons(config, t[j], |t[j]|)
  {
    forall j | 0 <= j < |sinks|
      ensures Reasons(config, FlushSinks(sinks, failing)[j], |FlushSinks(sinks, failing)[j]|)
    {
      ReasonsSnoc(config, sinks[j], Flush);
      ReasonsSnoc(config, sinks[j], FlushFailed);
    }
  }

  lemma FlushedOwesNothing(config: Config, sinks: seq<Log>)
    ensures var t := FlushSinks(sinks, None);
            forall j | 0 <= j < |t| :: NothingOwed(config, t[j])
  {
    forall j | 0 <= j < |sinks| ensures NothingOwed(config, FlushSinks(sinks, None)[j]) {
      UnflushedSnoc(sinks[j], Flush);
    }
  }

  /** Not flushing after a batch that demands nothing. */
  lemma UndemandedOwesNothing(config: Config, log: Log, batch: seq<Record>)
    requires JustWritten(config, log, batch) && !Demands(config, batch)
    ensures NothingOwed(config, log)
  {
    var before := log[..|log| - 1];
    assert log == before + [Write(batch)];
    UnflushedSnoc(before, Write(batch));
  }

  // ---------------------------------------------------------------- every step keeps the invariant

  lemma FlushKeptByQuietStep(s: System, t: System)
    requires FlushInv(s) && t.sinks == s.sinks && t.config == s.config && t.archive == s.archive
    requires t.batch == s.batch && t.worker == s.worker && t.failed == s.failed
    requires t.control == s.control
    ensures FlushInv(t)
  {
  }

  lemma MissKeepsFlush(s: System, act: WorkerAct)
    requires FlushInv(s) && !SinksClosed(s.control)
    requires WorkerEnabled(s, act) && act.AfterMiss? && !s.failed
    ensures FlushInv(ApplyWorker(s, act))
  {
    if s.config.flushPolicy == Periodic && act.due {
      DemandedFlush(s.config, s.sinks, act.failing);
      FlushedOwesNothing(s.config, s.sinks);
    }
  }

  lemma FinishKeepsFlush(s: System, act: WorkerAct)
    requires FlushInv(s) && !SinksClosed(s.control)
    requires WorkerEnabled(s, act) && act.FinishBatch? && !s.failed
    ensures FlushInv(ApplyWorker(s, act))
  {
    if Demands(s.config, s.batch) || (s.config.flushPolicy == Periodic && act.due) {
      DemandedFlush(s.config, s.sinks, act.failing);
      FlushedOwesNothing(s.config, s.sinks);
    } else {
      forall j | 0 <= j < |s.sinks| ensures NothingOwed(s.config, s.sinks[j]) {
        UndemandedOwesNothing(s.config, s.sinks[j], s.batch);
      }
    }
  }

  lemma WriteKeepsFlush(s: System, act: WorkerAct)
    requires FlushInv(s) && !SinksClosed(s.control)
    requires WorkerEnabled(s, act) && act.WriteNext? && !s.failed
    ensures FlushInv(ApplyWorker(s, act))
  {
    var i := s.worker.sink;
    var event := if act.failing.None? then Write(s.batch) else WriteFailed(s.batch[..act.failing.value]);
    ReasonsSnoc(s.config, s.sinks[i], event);
    assert (s.sinks[i] + [event])[..|s.sinks[i]|] == s.sinks[i];
  }

  lemma ExitKeepsFlush(s: System, act: WorkerAct)
    requires FlushInv(s) && !SinksClosed(s.control)
    requires WorkerEnabled(s, act) && act.FinalFlush?
    ensures FlushInv(ApplyWorker(s, act))
  {
    FlushedReasons(s.config, s.sinks, act.failing);
  }

  lemma OtherKeepsFlush(s: System, act: WorkerAct)
    requires FlushInv(s) && FlagInv(s)
    requires WorkerEnabled(s, act)
    requires !act.AfterMiss? && !act.FinishBatch? && !act.WriteNext? && !act.FinalFlush?
    ensures FlushInv(ApplyWorker(s, act))
  {
  }

  lemma FlushKeptByWorker(s: System, act: WorkerAct)
    requires FlushInv(s) && FlagInv(s) && WorkerEnabled(s, act)
    ensures FlushInv(ApplyWorker(s, act))
  {
    WorkerNotRetired(s, act);
    if act.AfterMiss? {
      MissKeepsFlush(s, act);
    } else if act.FinishBatch? {
      FinishKeepsFlush(s, act);
    } else if act.WriteNext? {
      WriteKeepsFlush(s, act);
    } else if act.FinalFlush? {
      ExitKeepsFlush(s, act);
    } else {
      OtherKeepsFlush(s, act);
    }
  }

  lemma WorkerNotRetired(s: System, act: WorkerAct)
    requires FlagInv(s) && WorkerEnabled(s, act)
    ensures !SinksClosed(s.control)
    ensures InLoop(s.worker) ==> !s.failed
  {
  }

  lemma ClosingReasons(config: Config, sinks: seq<Log>)
    requires forall j | 0 <= j < |sinks| :: Reasons(config, sinks[j], |sinks[j]| - 1)
    ensures var t := EachSink(sinks, CloseSink);
            forall j | 0 <= j < |t| :: Reasons(config, t[j], |t[j]| - 2)
  {
    forall j | 0 <= j < |sinks| ensures Reasons(config, sinks[j] + [CloseSink], |sinks[j]| - 1) {
      var t := sinks[j] + [CloseSink];
      forall k | 0 <= k < |sinks[j]| - 1 && FlushCall(t[k]) ensures HasReason(config, t, k) {
        assert HasReason(config, sinks[j], k);
      }
    }
  }

  predicate ClosesSinks(act: ControlAct) {
    act.StopCloseSinks? || act.InitCloseSinks? || act.UndoCloseSinks?
  }

  predicate DropsSinks(act: ControlAct) {
    act.StopClear? || act.InitClear? || act.UndoClear?
  }

  lemma CloseKeepsFlush(s: System, act: ControlAct)
    requires FlushInv(s) && FlagInv(s) && ControlEnabled(s, act) && ClosesSinks(act)
    ensures FlushInv(ApplyControl(s, act))
  {
    ClosingReasons(s.config, s.sinks);
  }

  lemma DropKeepsFlush(s: System, act: ControlAct)
    requires FlushInv(s) && FlagInv(s) && ControlEnabled(s, act) && DropsSinks(act)
    ensures FlushInv(ApplyControl(s, act))
  {
    var t := ApplyControl(s, act);
    DropArchives(s, act);
    forall e, j | e in t.archive && 0 <= j < |e.logs| ensures Reasons(e.config, e.logs[j], |e.logs[j]| - 2) {
      if e !in s.archive {
        assert e == t.archive[|s.archive|];
        assert Reasons(s.config, s.sinks[j], Answerable(s.control, s.worker, s.sinks[j]));
      }
    }
  }

  lemma DropArchives(s: System, act: ControlAct)
    requires ControlEnabled(s, act) && DropsSinks(act)
    ensures var t := ApplyControl(s, act);
            && t.sinks == [] && t.worker == s.worker && t.config == s.config
            && (t.archive == s.archive
                || (t.archive == s.archive + [t.archive[|s.archive|]]
                    && t.archive[|s.archive|].logs == s.sinks && t.archive[|s.archive|].config == s.config))
  {
  }

  lemma StartKeepsFlush(s: System, act: ControlAct)
    requires FlushInv(s) && FlagInv(s) && FreshSinks(s) && IsStart(act) && StartEnabled(s, act)
    ensures FlushInv(ApplyStart(s, act))
  {
  }

  /** The other steps of init and stop leave the sinks alone. */
  lemma OthersLeaveSinks(s: System, act: ControlAct)
    requires ControlEnabled(s, act) && FlagInv(s) && !ClosesSinks(act) && !DropsSinks(act) && !IsStart(act)
    ensures var t := ApplyControl(s, act);
            && t == s.(control := t.control, running := t.running, queue := t.queue, worker := t.worker)
            && (t.worker == s.worker || (t.worker.Absent? && (s.worker.Absent? || s.worker.Exited?)))
            && !SinksClosed(s.control) && !SinksClosed(t.control)
  {
  }

  lemma FlushKeptByControl(s: System, act: ControlAct)
    requires FlushInv(s) && FlagInv(s) && FreshSinks(s) && ControlEnabled(s, act)
    ensures FlushInv(ApplyControl(s, act))
  {
    if ClosesSinks(act) {
      CloseKeepsFlush(s, act);
    } else if DropsSinks(act) {
      DropKeepsFlush(s, act);
    } else if IsStart(act) {
      StartKeepsFlush(s, act);
    } else {
      OthersLeaveSinks(s, act);
    }
  }

  lemma StepKeepsFlush(s: System, a: Action)
    requires FlushInv(s) && FlagInv(s) && FreshSinks(s) && Enabled(s, a)
    ensures FlushInv(Apply(s, a))
  {
    match a
    case ByProducer(p, act) =>
      CallsOnlyPush(s, p, act);
      FlushKeptByQuietStep(s, Apply(s, a));
    case ByControl(act) => FlushKeptByControl(s, act);
    case ByWorker(act) => FlushKeptByWorker(s, act);
    case SetLevel(_) => FlushKeptByQuietStep(s, Apply(s, a));
  }

  lemma {:induction false} RunKeepsFlush(s: System, trace: seq<Action>)
    requires Inv(s) && ConfiguredInv(s) && Runs(s, trace) && FlushInv(s)
    ensures FlushInv(After(s, trace))
    decreases |trace|
  {
    if trace != [] {
      StepKeepsFlush(s, trace[0]);
      StepKeepsConfigured(s, trace[0]);
      ApplyKeepsInv(s, trace[0]);
      RunKeepsFlush(Apply(s, trace[0]), trace[1..]);
    }
  }

  lemma FlushAlways(count: nat, trace: seq<Action>)
    requires Runs(Start(count), trace)
    ensures Inv(After(Start(count), trace)) && FlushInv(After(Start(count), trace))
  {
    StartHasInv(count);
    RunKeepsInv(Start(count), trace);
    RunKeepsFlush(Start(count), trace);
  }

  // ---------------------------------------------------------------- what it means

  /** At every loop head, and whenever the worker has no batch in hand: under EveryBatch no sink has
      anything unflushed, and under no policy does a sink have an unflushed record at or above the
      threshold. */
  lemma NothingOwedAtLoopHead(count: nat, trace: seq<Action>, j: nat, i: nat)
    requires Runs(Start(count), trace)
    requires var s := After(Start(count), trace);
             (s.worker.Polling? || s.worker.Missed? || s.worker.TestingClosed?) && j < |s.sinks|
             && i < |Unflushed(s.sinks[j])|
    ensures var s := After(Start(count), trace);
            && s.config.flushPolicy != EveryBatch
            && (s.config.flushAtOrAbove.Some? ==> Unflushed(s.sinks[j])[i].level < s.config.flushAtOrAbove.value)
  {
    FlushAlways(count, trace);
    var s := After(Start(count), trace);
    assert NothingOwed(s.config, s.sinks[j]);
  }

  /** And no flush is made without a reason. In the log of a sink of an ended life cycle whose policy is
      not Periodic, every flush but the one right before the close comes directly after a batch; under
      OnStop that batch holds a record at or above the threshold. */
  lemma NoFlushWithoutReason(count: nat, trace: seq<Action>, e: Ended, j: nat, k: nat)
    requires Runs(Start(count), trace) && e in After(Start(count), trace).archive
    requires j < |e.logs| && k + 2 < |e.logs[j]| && FlushCall(e.logs[j][k])
    ensures || e.config.flushPolicy == Periodic
            || (k > 0 && e.logs[j][k - 1].Write?
                && (e.config.flushPolicy == OnStop ==>
                      && e.config.flushAtOrAbove.Some?
                      && exists r | r in e.logs[j][k - 1].batch :: r.level >= e.config.flushAtOrAbove.value))
  {
    FlushAlways(count, trace);
    assert Reasons(e.config, e.logs[j], |e.logs[j]| - 2);
    assert HasReason(e.config, e.logs[j], k);
    if e.config.flushPolicy == OnStop {
      var batch := e.logs[j][k - 1].batch;
      var i :| 0 <= i < |batch| && batch[i].level >= e.config.flushAtOrAbove.value;
      assert batch[i] in batch;
    }
  }

  /** A flush in which a sink throws is complete for the sinks before it and does not reach those behind
      it; the worker then leaves its loop, or is at its end, and the failure is on record. */
  lemma FailedFlushStopsThere(s: System, act: WorkerAct, k: nat)
    requires WorkerEnabled(s, act)
    requires (act.AfterMiss? || act.FinishBatch? || act.FinalFlush?) && act.failing == Some(k)
    requires ApplyWorker(s, act).sinks != s.sinks
    ensures var t := ApplyWorker(s, act);
            && t.failed && !InLoop(t.worker) && |t.sinks| == |s.sinks| && k < |s.sinks|
            && t.sinks[..k] == EachSink(s.sinks[..k], Flush)
            && t.sinks[k] == s.sinks[k] + [FlushFailed]
            && t.sinks[k + 1..] == s.sinks[k + 1..]
  {
    var t := ApplyWorker(s, act);
    assert t.sinks == FlushSinks(s.sinks, Some(k));
  }

  /** Without a threshold a logger under OnStop does not flush while it runs. */
  lemma OnStopFlushesOnStop(count: nat, trace: seq<Action>, j: nat, k: nat)
    requires Runs(Start(count), trace)
    requires var s := After(Start(count), trace);
             && s.config.flushPolicy == OnStop && s.config.flushAtOrAbove.None?
             && InLoop(s.worker) && j < |s.sinks| && k < |s.sinks[j]|
    ensures !FlushCall(After(Start(count), trace).sinks[j][k])
  {
    FlushAlways(count, trace);
    var s := After(Start(count), trace);
    assert !SinksClosed(s.control);
    assert Reasons(s.config, s.sinks[j], |s.sinks[j]|);
    assert Answerable(s.control, s.worker, s.sinks[j]) == |s.sinks[j]|;
  }
}
