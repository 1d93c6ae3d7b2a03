/** What holds of every run of the logger, from the invariants of LifecycleSafety. */
module LifecycleTheorems {
  import opened QueueSpec
  import opened Lifecycle
  import opened LifecycleSafety

  // ---------------------------------------------------------------- every step keeps the invariant

  lemma LedgerKeptByProducer(s: System, p: nat, act: ProducerAct)
    requires Ledger(s.queue) && ProducerEnabled(s, p, act)
    ensures Ledger(ApplyProducer(s, p, act).queue)
  {
    var pc := s.producers[p].pc;
    if act.Submit? {
      StepKeepsLedger(s.queue, OpPush(pc.generation, pc.record));
    } else if act.Resubmit? {
      StepKeepsLedger(s.queue, OpResume(pc.generation, pc.record));
    }
  }

  lemma LedgerKeptByStart(s: System, act: ControlAct)
    requires Ledger(s.queue) && IsStart(act) && StartEnabled(s, act)
    ensures Ledger(ApplyStart(s, act).queue)
  {
    if act.InitReset? {
      ResetLedger(s.queue, s.control.config.queueCapacity, s.control.config.overflowPolicy);
    }
  }

  lemma LedgerKeptByControl(s: System, act: ControlAct)
    requires Ledger(s.queue) && ControlEnabled(s, act)
    ensures Ledger(ApplyControl(s, act).queue)
  {
    if IsStart(act) {
      LedgerKeptByStart(s, act);
    } else {
      ControlIsQuiet(s, act);
    }
  }

  lemma LedgerKeptByWorker(s: System, act: WorkerAct)
    requires Ledger(s.queue) && WorkerEnabled(s, act)
    ensures Ledger(ApplyWorker(s, act).queue)
  {
    if act.Poll? {
      StepKeepsLedger(s.queue, OpPop(s.config.writeBatchSize, act.expired));
    }
  }

  lemma ProducerKeepsInv(s: System, p: nat, act: ProducerAct)
    requires Inv(s) && ProducerEnabled(s, p, act)
    ensures Inv(ApplyProducer(s, p, act))
  {
    var t := ApplyProducer(s, p, act);
    LedgerKeptByProducer(s, p, act);
    ProducerStep(s, p, act);
    LockKeptByProducer(s, t, p);
    FlagsKeptByProducer(s, t, p);
    GenerationsKeptByProducer(s, t, p);
    OrderKeptByProducer(s, t, p);
    DataKeptByProducer(s, t, p);
    MissKeptByProducer(s, t, p);
  }

  lemma ControlKeepsInv(s: System, act: ControlAct)
    requires Inv(s) && ControlEnabled(s, act)
    ensures Inv(ApplyControl(s, act))
  {
    LedgerKeptByControl(s, act);
    LockKeptByControl(s, act);
    ConfigKeptByControl(s, act);
    FlagsKeptByControl(s, act);
    GenerationsKeptByControl(s, act);
    OrderKeptByControl(s, act);
    DataKeptByControl(s, act);
    LogKeptByControl(s, act);
    MissKeptByControl(s, act);
    ArchiveKept(s, act);
  }

  lemma ArchiveKept(s: System, act: ControlAct)
    requires Inv(s) && ControlEnabled(s, act)
    ensures ArchiveInv(ApplyControl(s, act))
  {
    ArchivedOnlyByClear(s, act);
    if act.StopClear? || act.InitClear? || act.UndoClear? {
      ArchivingKeepsOk(s);
    }
  }

  lemma ArchivedOnlyByClear(s: System, act: ControlAct)
    requires ControlEnabled(s, act)
    ensures var t := ApplyControl(s, act);
            if act.StopClear? || act.InitClear? || act.UndoClear?
            then SinksClosed(s.control) && t.archive == Archived(s).archive
            else t.archive == s.archive
  {
  }

  lemma WorkerKeepsInv(s: System, act: WorkerAct)
    requires Inv(s) && WorkerEnabled(s, act)
    ensures Inv(ApplyWorker(s, act))
  {
    var t := ApplyWorker(s, act);
    LedgerKeptByWorker(s, act);
    WorkerStep(s, act);
    WorkerMoveKeepsInv(s, t);
  }

  lemma WorkerMoveKeepsInv(s: System, t: System)
    requires Inv(s) && WorkerMoved(s, t) && Ledger(t.queue)
    ensures Inv(t)
  {
    WorkerMovedHasFrame(s, t);
    FlagsKeptByWorker(s, t);
    GenerationsKeptByWorker(s, t);
    OrderKeptByWorker(s, t);
    DataKeptByWorker(s, t);
    LogKeptByWorker(s, t);
    MissKeptByWorker(s, t);
  }

  lemma LevelKeepsInv(s: System, level: int)
    requires Inv(s)
    ensures Inv(s.(minLevel := level))
  {
    var t := s.(minLevel := level);
    forall i | 0 <= i < |t.producers| ensures ProducerGeneration(t, t.producers[i].pc) {
      assert ProducerGeneration(s, s.producers[i].pc);
    }
  }

  lemma ApplyKeepsInv(s: System, a: Action)
    requires Inv(s) && Enabled(s, a)
    ensures Inv(Apply(s, a))
  {
    match a
    case ByProducer(p, act) => ProducerKeepsInv(s, p, act);
    case ByControl(act) => ControlKeepsInv(s, act);
    case ByWorker(act) => WorkerKeepsInv(s, act);
    case SetLevel(level) => LevelKeepsInv(s, level);
  }

  lemma {:induction false} RunKeepsInv(s: System, trace: seq<Action>)
    requires Inv(s) && Runs(s, trace)
    ensures Inv(After(s, trace))
    decreases |trace|
  {
    if trace != [] {
      ApplyKeepsInv(s, trace[0]);
      RunKeepsInv(Apply(s, trace[0]), trace[1..]);
    }
  }

  lemma StartHasInv(count: nat)
    ensures Inv(Start(count))
  {
    ResetLedger(Initial<Record>(), 1, Block);
  }

  lemma InvAlways(count: nat, trace: seq<Action>)
    requires Runs(Start(count), trace)
    ensures Inv(After(Start(count), trace))
  {
    StartHasInv(count);
    RunKeepsInv(Start(count), trace);
  }

  // ---------------------------------------------------------------- generations

  /** The sinks of a life cycle, ended or current, are given only records whose running and level
      check was made in that life cycle. */
  lemma GenerationIsolation(count: nat, trace: seq<Action>)
    requires Runs(Start(count), trace)
    ensures var s := After(Start(count), trace);
            && (forall e, j, r | e in s.archive && 0 <= j < |e.logs| && r in Delivered(e.logs[j]) ::
                  r.lifecycle == e.lifecycle)
            && (forall j, r | 0 <= j < |s.sinks| && r in Delivered(s.sinks[j]) :: r.lifecycle == s.lifecycle)
  {
    var s := After(Start(count), trace);
    InvAlways(count, trace);
    forall e, j, r | e in s.archive && 0 <= j < |e.logs| && r in Delivered(e.logs[j])
      ensures r.lifecycle == e.lifecycle
    {
      assert EndedOk(e);
      DeliveredAreAccepted(e.queue, e.logs, e.batch, j);
    }
    forall j, r | 0 <= j < |s.sinks| && r in Delivered(s.sinks[j]) ensures r.lifecycle == s.lifecycle {
      DataSpreads(s);
      DeliveredAreAccepted(s.queue, s.sinks, s.batch, j);
    }
  }

  lemma DeliveredAreAccepted(q: State<Record>, logs: seq<Log>, batch: seq<Record>, j: nat)
    requires Conserved(q) && Spread(q, logs, batch) && j < |logs| && Ordered(q.history.accepted)
    ensures forall r | r in Delivered(logs[j]) :: r in q.history.accepted
    ensures Ordered(Delivered(logs[j]))
  {
    PoppedAreAccepted(q.history.accepted, q.history.fates);
    var popped, got := PoppedValues(q), Delivered(logs[j]);
    assert got == popped[..|got|];
    forall r | r in got ensures r in q.history.accepted {
      var i :| 0 <= i < |got| && got[i] == r;
      assert popped[i] == r && r in popped;
    }
  }

  /** A producer delayed or blocked across a restart is turned away: whatever the queue's new
      policy, its push returns Closed and leaves the queue as it was. */
  lemma StaleProducerTurnedAway(count: nat, trace: seq<Action>, p: nat)
    requires Runs(Start(count), trace) && p < |After(Start(count), trace).producers|
    requires var s := After(Start(count), trace);
             var pc := s.producers[p].pc;
             (pc.Captured? || pc.Blocked?) && pc.record.lifecycle < s.queue.generation
    ensures var s := After(Start(count), trace);
            var pc := s.producers[p].pc;
            && PushEnter(s.queue, pc.generation, pc.record) == (s.queue, Returned(Closed))
            && PushResume(s.queue, pc.generation, pc.record) == (s.queue, Returned(Closed))
  {
    var s := After(Start(count), trace);
    InvAlways(count, trace);
    assert ProducerGeneration(s, s.producers[p].pc);
  }

  // ---------------------------------------------------------------- order

  /** In every sink the records of one thread stand in the order of its calls, none twice; and
      no sink is ahead of an earlier one, nor behind what was popped, by more than one batch. */
  lemma DeliveryOrder(count: nat, trace: seq<Action>)
    requires Runs(Start(count), trace)
    ensures var s := After(Start(count), trace);
            && Conserved(s.queue) && Spread(s.queue, s.sinks, s.batch)
            && (forall j | 0 <= j < |s.sinks| :: Ordered(Delivered(s.sinks[j])))
            && (forall e | e in s.archive ::
                  && Conserved(e.queue) && Spread(e.queue, e.logs, e.batch)
                  && (forall j | 0 <= j < |e.logs| :: Ordered(Delivered(e.logs[j]))))
  {
    var s := After(Start(count), trace);
    InvAlways(count, trace);
    DataSpreads(s);
    forall j | 0 <= j < |s.sinks| ensures Ordered(Delivered(s.sinks[j])) {
      DeliveredAreAccepted(s.queue, s.sinks, s.batch, j);
    }
    forall e | e in s.archive
      ensures Conserved(e.queue) && Spread(e.queue, e.logs, e.batch)
      ensures forall j | 0 <= j < |e.logs| :: Ordered(Delivered(e.logs[j]))
    {
      assert EndedOk(e);
      forall j | 0 <= j < |e.logs| ensures Ordered(Delivered(e.logs[j])) {
        DeliveredAreAccepted(e.queue, e.logs, e.batch, j);
      }
    }
  }

  /** What one pop hands the worker: the front of the queue, as much as the configured batch size allows,
      never nothing; or nothing, from an empty queue that is closed or under Periodic. */
  lemma PollTakesFront(count: nat, trace: seq<Action>, expired: bool)
    requires Runs(Start(count), trace) && WorkerEnabled(After(Start(count), trace), Poll(expired))
    ensures var s := After(Start(count), trace);
            var t := ApplyWorker(s, Poll(expired));
            var n := |s.queue.items|;
            if n > 0 then
              && t.worker.Formatting? && s.queue.items == t.batch + t.queue.items
              && |t.batch| == (if n < s.config.writeBatchSize then n else s.config.writeBatchSize) > 0
            else
              && t.worker.Missed? && t.batch == [] && t.queue == s.queue
              && (s.queue.closed || s.config.flushPolicy == Periodic)
  {
    var s := After(Start(count), trace);
    InvAlways(count, trace);
    TakeSplits(s.queue, s.config.writeBatchSize);
  }

  lemma {:induction false} PoppedContains(accepted: seq<Record>, fates: seq<Fate>, i: nat)
    requires i < |fates| <= |accepted| && fates[i] == Popped
    ensures accepted[i] in PoppedOf(accepted, fates)
  {
    var last := |fates| - 1;
    if i < last {
      PoppedContains(accepted, fates[..last], i);
    }
  }

  /** No overflow policy loses the newest records: each of the last min(capacity, accepted) is still
      queued, or in every sink, or in the batch that was popped last. */
  lemma NewestRecordsAreSafe(count: nat, trace: seq<Action>, i: nat, j: nat)
    requires Runs(Start(count), trace)
    requires var q := After(Start(count), trace).queue; i < |q.history.accepted| <= i + q.capacity
    requires j < |After(Start(count), trace).sinks|
    ensures var s := After(Start(count), trace);
            var r := s.queue.history.accepted[i];
            r in s.queue.items || r in Delivered(s.sinks[j]) || r in s.batch
  {
    var s := After(Start(count), trace);
    InvAlways(count, trace);
    DataSpreads(s);
    var h := s.queue.history;
    if i >= |h.fates| {
      assert s.queue.items[i - |h.fates|] == h.accepted[i];
    } else {
      PoppedContains(h.accepted, h.fates, i);
      var popped, got := PoppedValues(s.queue), Delivered(s.sinks[j]);
      var k :| 0 <= k < |popped| && popped[k] == h.accepted[i];
      if k < |got| {
        assert got[k] == popped[k];
      } else {
        var first := |popped| - |s.batch|;
        assert popped[first..][k - first] == s.batch[k - first];
      }
    }
  }

  // ---------------------------------------------------------------- drain

  /** The accepted records that were not evicted, in order of acceptance. */
  function Survivors(q: State<Record>): seq<Record>
    requires |q.history.fates| <= |q.history.accepted|
  {
    SurvivorsOf(q.history.accepted, q.history.fates)
  }

  /** Nothing was left behind, every sink got each survivor once and in order, and the last two
      calls it saw were a flush and a close. */
  ghost predicate Drained(e: Ended) {
    && Conserved(e.queue)
    && e.queue.items == []
    && (forall j | 0 <= j < |e.logs| :: Delivered(e.logs[j]) == Survivors(e.queue))
    && (forall j | 0 <= j < |e.logs| ::
          var n := |e.logs[j]|; n >= 2 && e.logs[j][n - 2] == Flush && e.logs[j][n - 1] == CloseSink)
  }

  /** In a life cycle that ended without a failure, whatever its policy, the only way not to drain is
      to leave records in the queue. */
  lemma DrainedIffNothingLeft(count: nat, trace: seq<Action>, e: Ended)
    requires Runs(Start(count), trace) && e in After(Start(count), trace).archive && !e.failed
    ensures Drained(e) <==> e.queue.items == []
  {
    InvAlways(count, trace);
    assert EndedOk(e);
    SurvivorsSplit(e.queue.history.accepted, e.queue.history.fates);
    LogsEndInFlushAndClose(e);
  }

  lemma LogsEndInFlushAndClose(e: Ended)
    requires EndedOk(e) && !e.failed
    ensures forall j | 0 <= j < |e.logs| ::
              var n := |e.logs[j]|; n >= 2 && e.logs[j][n - 2] == Flush && e.logs[j][n - 1] == CloseSink
  {
    forall j | 0 <= j < |e.logs|
      ensures var n := |e.logs[j]|; n >= 2 && e.logs[j][n - 2] == Flush && e.logs[j][n - 1] == CloseSink
    {
      LogEnd(e.logs[j]);
    }
  }

  lemma LogEnd(log: Log)
    requires LogOk(log, true, true)
    ensures |log| >= 2 && log[|log| - 2] == Flush && log[|log| - 1] == CloseSink
  {
    var open := log[..|log| - 1];
    assert EndsFlushed(open) && open[|open| - 1] == log[|log| - 2];
  }

  /** Under OnStop and EveryBatch, and unless a sink or the formatter threw, stop drains: this holds
      of every life cycle that any run has ended. The losses are the counted ones: what was not
      turned away as Closed was delivered or is in `dropped`. */
  lemma StopDrains(count: nat, trace: seq<Action>, e: Ended)
    requires Runs(Start(count), trace) && e in After(Start(count), trace).archive
    requires !e.failed && e.config.flushPolicy != Periodic
    ensures Drained(e)
    ensures |Survivors(e.queue)| + e.queue.dropped == |e.queue.history.results|
  {
    InvAlways(count, trace);
    assert EndedOk(e);
    DrainedIffNothingLeft(count, trace, e);
    CountSurvivors(e.queue.history.accepted, e.queue.history.fates);
  }

  lemma {:induction false} CountSurvivors(accepted: seq<Record>, fates: seq<Fate>)
    requires |fates| <= |accepted|
    ensures |SurvivorsOf(accepted, fates)| + multiset(fates)[Evicted] == |accepted|
  {
    if accepted != [] {
      var last := |accepted| - 1;
      if last < |fates| {
        assert fates == fates[..last] + [fates[last]];
        CountSurvivors(accepted[..last], fates[..last]);
      } else {
        CountSurvivors(accepted[..last], fates);
      }
    }
  }

  /** Under Periodic the worker may leave records behind, but only at the end: what each sink got
      followed by what is left is exactly the survivors; and if anything is left, then nothing was
      popped after the last popBatchFor that timed out, and all that is left was accepted after it.
      So a life cycle that accepts nothing after that drains as documented. */
  lemma PeriodicDrainsUpToLastMiss(count: nat, trace: seq<Action>, e: Ended)
    requires Runs(Start(count), trace) && e in After(Start(count), trace).archive && !e.failed
    ensures Conserved(e.queue)
    ensures forall j | 0 <= j < |e.logs| :: Delivered(e.logs[j]) + e.queue.items == Survivors(e.queue)
    ensures e.queue.items != [] ==>
              && e.config.flushPolicy == Periodic
              && e.queue.items == e.queue.history.accepted[|e.queue.history.fates|..]
              && e.lastMiss <= |e.queue.history.fates|
              && (forall i | e.lastMiss <= i < |e.queue.history.fates| :: e.queue.history.fates[i] == Evicted)
    ensures e.lastMiss == |e.queue.history.accepted| ==> Drained(e)
  {
    InvAlways(count, trace);
    assert EndedOk(e);
    DrainedIffNothingLeft(count, trace, e);
    SurvivorsSplit(e.queue.history.accepted, e.queue.history.fates);
  }

  // ---------------------------------------------------------------- when stop is sure to drain

  ghost predicate CanReach(s: System, t: System) {
    exists trace :: Runs(s, trace) && After(s, trace) == t
  }

  lemma {:induction false} RunsSnoc(s: System, trace: seq<Action>, a: Action)
    requires Runs(s, trace) && Enabled(After(s, trace), a)
    ensures Runs(s, trace + [a]) && After(s, trace + [a]) == Apply(After(s, trace), a)
    decreases |trace|
  {
    if trace == [] {
      assert [] + [a] == [a];
      assert Runs(Apply(s, a), [][..]);
    } else {
      RunsSnoc(Apply(s, trace[0]), trace[1..], a);
      assert (trace + [a])[1..] == trace[1..] + [a];
    }
  }

  lemma ReachStep(s: System, t: System, a: Action)
    requires CanReach(s, t) && Enabled(t, a)
    ensures CanReach(s, Apply(t, a))
  {
    var trace :| Runs(s, trace) && After(s, trace) == t;
    RunsSnoc(s, trace, a);
  }

  function Fresh(c: Config): State<Record> {
    Reset(Initial(), c.queueCapacity, c.overflowPolicy)
  }

  /** A logger just initialized with `c`, and one thread that has not logged yet. */
  function Initialized(c: Config): System {
    System(Fresh(c), true, c.minLevel, [Producer(Outside, 0)], Free, Polling, [], c, 1,
           seq(SinkCount(c), _ => []), false, 0, [])
  }

  /** Half way through init: the old worker and sinks are gone, the new sinks are built. */
  function Resetting(c: Config): System {
    Start(1).(control := InitResetting(c))
  }

  lemma ReachDiscarding(c: Config)
    requires ValidConfig(c)
    ensures CanReach(Start(1), Start(1).(control := InitDiscarding(c)))
  {
    var s := Start(1);
    assert Runs(s, []) && After(s, []) == s;
    var s1 := Apply(s, ByControl(CallInit(c)));
    ReachStep(s, s, ByControl(CallInit(c)));
    var s2 := Apply(s1, ByControl(InitValidate));
    ReachStep(s, s1, ByControl(InitValidate));
    var s3 := Apply(s2, ByControl(InitJoin));
    ReachStep(s, s2, ByControl(InitJoin));
    assert s3 == s.(control := InitDiscarding(c));
  }

  lemma ReachClearing(c: Config)
    requires ValidConfig(c)
    ensures CanReach(Start(1), Start(1).(control := InitClearing(c)))
  {
    var s, s3 := Start(1), Start(1).(control := InitDiscarding(c));
    ReachDiscarding(c);
    ReachStep(s, s3, ByControl(InitCloseSinks));
    assert Apply(s3, ByControl(InitCloseSinks)) == s.(control := InitClearing(c));
  }

  lemma ReachResetting(c: Config)
    requires ValidConfig(c)
    ensures CanReach(Start(1), Resetting(c))
  {
    var s := Start(1);
    var s4 := s.(control := InitClearing(c));
    ReachClearing(c);
    ReachStep(s, s4, ByControl(InitClear));
    var s5 := s.(control := InitBuilding(c));
    assert Apply(s4, ByControl(InitClear)) == s5;
    ReachStep(s, s5, ByControl(InitBuild(true)));
  }

  lemma Installed(c: Config)
    ensures ApplyStart(Resetting(c).(queue := Fresh(c), control := InitInstalling(c)), InitInstall)
         == Initialized(c).(running := false, control := InitStarting, worker := Absent)
  {
    assert Start(1).producers == [Producer(Outside, 0)];
  }

  lemma ReachInstalled(c: Config)
    requires ValidConfig(c)
    ensures CanReach(Start(1), Initialized(c).(running := false, control := InitStarting, worker := Absent))
  {
    var s, s6 := Start(1), Resetting(c);
    ReachResetting(c);
    ReachStep(s, s6, ByControl(InitReset));
    var s7 := s6.(queue := Fresh(c), control := InitInstalling(c));
    assert Apply(s6, ByControl(InitReset)) == s7;
    ReachStep(s, s7, ByControl(InitInstall));
    Installed(c);
  }

  lemma ReachInitialized(c: Config)
    requires ValidConfig(c)
    ensures CanReach(Start(1), Initialized(c))
  {
    var s, s8 := Start(1), Initialized(c).(running := false, control := InitStarting, worker := Absent);
    ReachInstalled(c);
    var s9 := Apply(s8, ByControl(InitRun));
    ReachStep(s, s8, ByControl(InitRun));
    ReachStep(s, s9, ByControl(InitSpawn(true)));
    assert Apply(s9, ByControl(InitSpawn(true))) == Initialized(c);
  }

  /** A record at the highest level, which no minimum keeps out. */
  function Late(c: Config): Record {
    Record(0, 1, 4, 1, c.minLevel)
  }

  /** The worker's poll has timed out on an empty queue, and then the thread's record arrived. */
  function Overtaken(c: Config): System {
    Initialized(c).(worker := Missed, producers := [Producer(Outside, 1)],
                    queue := Emplace(Fresh(c), Late(c), Enqueued))
  }

  lemma ReachOvertaken(c: Config)
    requires ValidConfig(c) && c.flushPolicy == Periodic
    ensures CanReach(Start(1), Overtaken(c))
  {
    var s, s0 := Start(1), Initialized(c);
    ReachInitialized(c);
    var s1 := Apply(s0, ByWorker(Poll(true)));
    ReachStep(s, s0, ByWorker(Poll(true)));
    var s2 := Apply(s1, ByProducer(0, Begin(4)));
    ReachStep(s, s1, ByProducer(0, Begin(4)));
    var s3 := Apply(s2, ByProducer(0, Check));
    ReachStep(s, s2, ByProducer(0, Check));
    var s4 := Apply(s3, ByProducer(0, Capture));
    ReachStep(s, s3, ByProducer(0, Capture));
    ReachStep(s, s4, ByProducer(0, Submit));
    assert Apply(s4, ByProducer(0, Submit)).producers == [Producer(Outside, 1)];
    assert Apply(s4, ByProducer(0, Submit)) == Overtaken(c);
  }

  /** stop has closed the queue; the worker found it closed, did not look into it, and left. */
  function Abandoned(c: Config): System {
    var s := Overtaken(c);
    s.(running := false, queue := Close(s.queue), control := StopJoining, worker := Exited,
       sinks := FlushSinks(s.sinks, None))
  }

  lemma ReachAbandoned(c: Config)
    requires ValidConfig(c) && c.flushPolicy == Periodic
    ensures CanReach(Start(1), Abandoned(c))
  {
    var s, s0 := Start(1), Overtaken(c);
    ReachOvertaken(c);
    var s1 := Apply(s0, ByControl(CallStop));
    ReachStep(s, s0, ByControl(CallStop));
    var s2 := Apply(s1, ByControl(StopFlag));
    ReachStep(s, s1, ByControl(StopFlag));
    var s3 := Apply(s2, ByControl(StopClose));
    ReachStep(s, s2, ByControl(StopClose));
    var s4 := Apply(s3, ByWorker(AfterMiss(false, None)));
    ReachStep(s, s3, ByWorker(AfterMiss(false, None)));
    var s5 := Apply(s4, ByWorker(TestClosed));
    ReachStep(s, s4, ByWorker(TestClosed));
    ReachStep(s, s5, ByWorker(FinalFlush(None)));
    assert Apply(s5, ByWorker(FinalFlush(None))) == Abandoned(c);
  }

  lemma ReachLeftBehind(c: Config) returns (t: System, e: Ended)
    requires ValidConfig(c) && c.flushPolicy == Periodic
    ensures CanReach(Start(1), t) && e in t.archive
    ensures e.config == c && !e.failed && e.queue.items == [Late(c)]
  {
    var s, s6 := Start(1), Abandoned(c);
    ReachAbandoned(c);
    var s7 := Apply(s6, ByControl(StopJoin));
    ReachStep(s, s6, ByControl(StopJoin));
    var s8 := Apply(s7, ByControl(StopCloseSinks));
    ReachStep(s, s7, ByControl(StopCloseSinks));
    t := Apply(s8, ByControl(StopClear));
    ReachStep(s, s8, ByControl(StopClear));
    e := t.archive[0];
  }

  /** Every life cycle run under `c` that ends without a failure leaves nothing in the queue. */
  ghost predicate AlwaysDrains(c: Config) {
    forall count, trace, e |
      Runs(Start(count), trace) && e in After(Start(count), trace).archive && e.config == c && !e.failed ::
      Drained(e)
  }

  /** The documented drain is guaranteed for exactly the configurations whose flush policy is not
      Periodic. */
  lemma DrainGuaranteedIffNotPeriodic(c: Config)
    requires ValidConfig(c)
    ensures AlwaysDrains(c) <==> c.flushPolicy != Periodic
  {
    if c.flushPolicy == Periodic {
      var t, e := ReachLeftBehind(c);
      var trace :| Runs(Start(1), trace) && After(Start(1), trace) == t;
      assert !Drained(e);
    } else {
      forall count, trace, e |
        Runs(Start(count), trace) && e in After(Start(count), trace).archive && e.config == c && !e.failed
        ensures Drained(e)
      {
        StopDrains(count, trace, e);
      }
    }
  }

  // ---------------------------------------------------------------- closing and ownership

  /** A sink's close is the last call it sees, in every ended life cycle, failed or not; and no sink
      still installed has been closed, except while init or stop is dropping it. */
  lemma CloseIsLast(count: nat, trace: seq<Action>)
    requires Runs(Start(count), trace)
    ensures var s := After(Start(count), trace);
            && (forall e, j | e in s.archive && 0 <= j < |e.logs| ::
                  && e.logs[j] != [] && e.logs[j][|e.logs[j]| - 1] == CloseSink
                  && CloseSink !in e.logs[j][..|e.logs[j]| - 1])
            && (!SinksClosed(s.control) ==> forall j | 0 <= j < |s.sinks| :: CloseSink !in s.sinks[j])
  {
    var s := After(Start(count), trace);
    InvAlways(count, trace);
    forall e, j | e in s.archive && 0 <= j < |e.logs|
      ensures && e.logs[j] != [] && e.logs[j][|e.logs[j]| - 1] == CloseSink
              && CloseSink !in e.logs[j][..|e.logs[j]| - 1]
    {
      assert EndedOk(e);
      assert LogOk(e.logs[j], true, !e.failed);
    }
    forall j | !SinksClosed(s.control) && 0 <= j < |s.sinks| ensures CloseSink !in s.sinks[j] {
      assert LogOk(s.sinks[j], false, !s.failed && (s.worker.Exited? || Retiring(s.control)));
    }
  }

  /** A step that resets the queue, installs, closes or drops sinks, or starts a worker. */
  predicate ChangesLifecycle(s: System, t: System, a: Action) {
    || t.queue.generation != s.queue.generation
    || t.lifecycle != s.lifecycle || |t.sinks| != |s.sinks| || t.archive != s.archive
    || (!a.ByWorker? && (t.sinks != s.sinks || (t.worker != s.worker && !t.worker.Absent?)))
  }

  /** `running` is never set on a closed queue. The queue is reset, sinks are installed, closed and
      dropped, and a worker is started, only when there is no worker; and closed is permanent within
      a generation. */
  lemma LifecycleDiscipline(count: nat, trace: seq<Action>, a: Action)
    requires Runs(Start(count), trace) && Enabled(After(Start(count), trace), a)
    ensures var s := After(Start(count), trace);
            var t := Apply(s, a);
            && (s.running ==> !s.queue.closed)
            && (ChangesLifecycle(s, t, a) ==> s.worker.Absent?)
            && (s.queue.closed && t.queue.generation == s.queue.generation ==> t.queue.closed)
  {
    InvAlways(count, trace);
    Disciplined(After(Start(count), trace), a);
  }

  lemma Disciplined(s: System, a: Action)
    requires Inv(s) && Enabled(s, a)
    ensures s.running ==> !s.queue.closed
    ensures ChangesLifecycle(s, Apply(s, a), a) ==> s.worker.Absent?
    ensures s.queue.closed && Apply(s, a).queue.generation == s.queue.generation ==> Apply(s, a).queue.closed
  {
    match a
    case ByProducer(p, act) => ProducerStep(s, p, act);
    case ByControl(act) => NewGenerationOnlyAtReset(s, act);
    case ByWorker(act) =>
      WorkerStep(s, act);
      WorkerMovedHasFrame(s, Apply(s, a));
    case SetLevel(_) =>
  }

  lemma NewGenerationOnlyAtReset(s: System, act: ControlAct)
    requires ControlEnabled(s, act)
    ensures act.InitReset? <==> ApplyControl(s, act).queue.generation != s.queue.generation
    ensures !act.InitReset? && s.queue.closed ==> ApplyControl(s, act).queue.closed
  {
  }

  /** While a worker is live nobody else touches what is its own: no step installs, drops or closes
      sinks, changes the worker's configuration, resets the queue or starts a second worker; and a
      queue once closed stays closed. */
  lemma WorkerOwnsItsState(count: nat, trace: seq<Action>, a: Action)
    requires Runs(Start(count), trace)
    requires WorkerLive(After(Start(count), trace).worker) && Enabled(After(Start(count), trace), a)
    ensures var s := After(Start(count), trace);
            var t := Apply(s, a);
            && t.config == s.config && t.lifecycle == s.lifecycle
            && t.queue.generation == s.queue.generation
            && (s.queue.closed ==> t.queue.closed)
            && |t.sinks| == |s.sinks| && t.archive == s.archive
            && (!a.ByWorker? ==> t.sinks == s.sinks && t.worker == s.worker && t.batch == s.batch)
  {
    var s := After(Start(count), trace);
    InvAlways(count, trace);
    match a
    case ByProducer(p, act) => ProducerStep(s, p, act);
    case ByControl(act) => ControlLeavesLiveWorker(s, act);
    case ByWorker(act) =>
      WorkerStep(s, act);
      WorkerMovedHasFrame(s, Apply(s, a));
    case SetLevel(_) =>
  }

  lemma ControlLeavesLiveWorker(s: System, act: ControlAct)
    requires FlagInv(s) && WorkerLive(s.worker) && ControlEnabled(s, act)
    ensures var t := ApplyControl(s, act);
            && t == s.(control := t.control, running := t.running, queue := t.queue)
            && (t.queue == s.queue || t.queue == Close(s.queue))
  {
  }
}
