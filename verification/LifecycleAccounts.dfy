/** No log() call is unaccounted for: along every run, the calls begun in a life cycle are those that
    were refused at the running and level check, those the queue gave a result, those it turned away
    as Closed, and those still on their way. */
module LifecycleAccounts {
  import opened QueueSpec
  import opened Lifecycle
  import opened LifecycleSafety
  import opened LifecycleTheorems

  /** Calls since the queue's current generation began: how many began, how many of them were refused
      at the check and how many passed it, and how many of these were answered Closed. */
  datatype Tally = Tally(begun: nat, refused: nat, passed: nat, turnedAway: nat)

  const NO_CALLS: Tally := Tally(0, 0, 0, 0)

  predicate TurnedAway(s: System, p: nat, act: ProducerAct)
    requires ProducerEnabled(s, p, act)
  {
    && (act.Submit? || act.Resubmit?)
    && ApplyProducer(s, p, act).producers[p].pc.Outside?
    && ApplyProducer(s, p, act).queue.history.results == s.queue.history.results
    && s.producers[p].pc.record.lifecycle == s.queue.generation
  }

  function CountedCall(s: System, p: nat, act: ProducerAct, tally: Tally): Tally
    requires ProducerEnabled(s, p, act)
  {
    if act.Begin? then tally.(begun := tally.begun + 1)
    else if act.Check? then
      if ApplyProducer(s, p, act).producers[p].pc.Passed? then tally.(passed := tally.passed + 1)
      else tally.(refused := tally.refused + 1)
    else if TurnedAway(s, p, act) then tally.(turnedAway := tally.turnedAway + 1)
    else tally
  }

  function Counted(s: System, a: Action, tally: Tally): Tally
    requires Enabled(s, a)
  {
    match a
    case ByProducer(p, act) => CountedCall(s, p, act, tally)
    case ByControl(act) => if act.InitReset? then NO_CALLS else tally
    case _ => tally
  }

  function CountedAll(s: System, trace: seq<Action>, tally: Tally): Tally
    requires Runs(s, trace)
    decreases |trace|
  {
    if trace == [] then tally else CountedAll(Apply(s, trace[0]), trace[1..], Counted(s, trace[0], tally))
  }

  /** Where a call stands: before its check, or past it in some life cycle and not yet answered. */
  datatype Phase = Checking | UnderWay(generation: nat)

  predicate InPhase(pc: ProducerPc, phase: Phase) {
    match phase
    case Checking => pc.Holding?
    case UnderWay(g) => (pc.Passed? || pc.Captured? || pc.Blocked?) && pc.record.lifecycle == g
  }

  function Count(producers: seq<Producer>, phase: Phase): nat {
    if producers == [] then 0
    else (if InPhase(producers[0].pc, phase) then 1 else 0) + Count(producers[1..], phase)
  }

  lemma {:induction false} CountUpdate(producers: seq<Producer>, p: nat, now: Producer, phase: Phase)
    requires p < |producers|
    ensures Count(producers[p := now], phase) + (if InPhase(producers[p].pc, phase) then 1 else 0)
         == Count(producers, phase) + (if InPhase(now.pc, phase) then 1 else 0)
  {
    if p == 0 {
      assert producers[p := now][1..] == producers[1..];
    } else {
      assert producers[p := now][1..] == producers[1..][p - 1 := now];
      CountUpdate(producers[1..], p - 1, now, phase);
    }
  }

  lemma {:induction false} CountNone(producers: seq<Producer>, phase: Phase)
    requires forall p | 0 <= p < |producers| :: !InPhase(producers[p].pc, phase)
    ensures Count(producers, phase) == 0
  {
    if producers != [] {
      CountNone(producers[1..], phase);
    }
  }

  ghost predicate Balanced(s: System, tally: Tally) {
    && tally.begun == tally.passed + tally.refused + Count(s.producers, Checking)
    && tally.passed == |s.queue.history.results| + Count(s.producers, UnderWay(s.queue.generation)) + tally.turnedAway
    && (!s.queue.closed ==> tally.turnedAway == 0)
  }

  // ---------------------------------------------------------------- every step keeps the balance

  /** What a push of its own generation does to the results. */
  lemma PushGetsResult(q: State<Record>, generation: nat, record: Record)
    ensures var (t, outcome) := PushEnter(q, generation, record); ResultGiven(q, t, generation, outcome)
    ensures var (t, outcome) := PushResume(q, generation, record); ResultGiven(q, t, generation, outcome)
  {
  }

  ghost predicate ResultGiven(q: State<Record>, t: State<Record>, generation: nat, outcome: PushOutcome) {
    && t.generation == q.generation && t.closed == q.closed
    && match outcome
       case WaitForRoom => t.history.results == q.history.results
       case Returned(Closed) =>
         t.history.results == q.history.results && (q.closed || generation != q.generation)
       case Returned(result) =>
         t.history.results == q.history.results + [result] && generation == q.generation
  }

  lemma BeginKeepsBalance(s: System, p: nat, act: ProducerAct, tally: Tally)
    requires ProducerEnabled(s, p, act) && act.Begin? && Balanced(s, tally)
    ensures Balanced(ApplyProducer(s, p, act), CountedCall(s, p, act, tally))
  {
    var now := ApplyProducer(s, p, act).producers[p];
    CountUpdate(s.producers, p, now, Checking);
    CountUpdate(s.producers, p, now, UnderWay(s.queue.generation));
  }

  lemma CheckKeepsBalance(s: System, p: nat, act: ProducerAct, tally: Tally)
    requires GenerationInv(s) && LockInv(s) && ProducerEnabled(s, p, act) && Balanced(s, tally)
    requires act.Check? || act.Capture?
    ensures Balanced(ApplyProducer(s, p, act), CountedCall(s, p, act, tally))
  {
    var now := ApplyProducer(s, p, act).producers[p];
    CountUpdate(s.producers, p, now, Checking);
    CountUpdate(s.producers, p, now, UnderWay(s.queue.generation));
    assert ProducerGeneration(s, s.producers[p].pc);
    assert !s.control.Free? ==> !HoldsShared(s.producers[p]);
  }

  lemma AnswerKeepsBalance(s: System, p: nat, act: ProducerAct, tally: Tally)
    requires GenerationInv(s) && ProducerEnabled(s, p, act) && Balanced(s, tally)
    requires act.Submit? || act.Resubmit?
    ensures Balanced(ApplyProducer(s, p, act), CountedCall(s, p, act, tally))
  {
    var now := ApplyProducer(s, p, act).producers[p];
    var pc := s.producers[p].pc;
    CountUpdate(s.producers, p, now, Checking);
    CountUpdate(s.producers, p, now, UnderWay(s.queue.generation));
    assert ProducerGeneration(s, pc);
    PushGetsResult(s.queue, pc.generation, pc.record);
  }

  lemma CallKeepsBalance(s: System, p: nat, act: ProducerAct, tally: Tally)
    requires GenerationInv(s) && LockInv(s) && ProducerEnabled(s, p, act) && Balanced(s, tally)
    ensures Balanced(ApplyProducer(s, p, act), CountedCall(s, p, act, tally))
  {
    match act
    case Begin(_) => BeginKeepsBalance(s, p, act, tally);
    case Check => CheckKeepsBalance(s, p, act, tally);
    case Capture => CheckKeepsBalance(s, p, act, tally);
    case _ => AnswerKeepsBalance(s, p, act, tally);
  }

  lemma ResetBalances(s: System)
    requires GenerationInv(s) && LockInv(s) && s.control.InitResetting?
    ensures Balanced(ApplyControl(s, InitReset), NO_CALLS)
  {
    var t := ApplyControl(s, InitReset);
    forall p | 0 <= p < |t.producers|
      ensures !InPhase(t.producers[p].pc, UnderWay(t.queue.generation)) && !InPhase(t.producers[p].pc, Checking)
    {
      assert ProducerGeneration(s, s.producers[p].pc) && !HoldsShared(s.producers[p]);
    }
    CountNone(t.producers, Checking);
    CountNone(t.producers, UnderWay(t.queue.generation));
  }

  lemma StartKeepsBalance(s: System, act: ControlAct, tally: Tally)
    requires IsStart(act) && StartEnabled(s, act) && !act.InitReset? && Balanced(s, tally)
    ensures Balanced(ApplyStart(s, act), tally)
  {
  }

  lemma QuietKeepsBalance(s: System, t: System, tally: Tally)
    requires Quiet(s, t) && Balanced(s, tally)
    ensures Balanced(t, tally)
  {
  }

  lemma ControlKeepsBalance(s: System, act: ControlAct, tally: Tally)
    requires GenerationInv(s) && LockInv(s) && ControlEnabled(s, act) && Balanced(s, tally)
    ensures Balanced(ApplyControl(s, act), Counted(s, ByControl(act), tally))
  {
    if act.InitReset? {
      ResetBalances(s);
    } else if IsStart(act) {
      StartKeepsBalance(s, act, tally);
    } else {
      ControlIsQuiet(s, act);
      QuietKeepsBalance(s, ApplyControl(s, act), tally);
    }
  }

  /** The worker's steps leave calls and results alone. */
  lemma WorkerKeepsResults(s: System, act: WorkerAct)
    requires WorkerEnabled(s, act)
    ensures var t := ApplyWorker(s, act);
            && t.producers == s.producers
            && t.queue.history.results == s.queue.history.results
            && t.queue.generation == s.queue.generation
            && (s.queue.closed ==> t.queue.closed)
  {
    if act.Poll? {
      PollKeepsResults(s.queue, s.config.writeBatchSize, act.expired);
    }
  }

  lemma PollKeepsResults(q: State<Record>, maxCount: nat, expired: bool)
    ensures var (t, _) := PopBatch(q, maxCount, expired);
            t.history.results == q.history.results && t.generation == q.generation && t.closed == q.closed
  {
    TakeSplits(q, maxCount);
  }

  lemma StepKeepsBalance(s: System, a: Action, tally: Tally)
    requires Conserved(s.queue) && GenerationInv(s) && LockInv(s) && Enabled(s, a) && Balanced(s, tally)
    ensures Balanced(Apply(s, a), Counted(s, a, tally))
  {
    match a
    case ByProducer(p, act) => CallKeepsBalance(s, p, act, tally);
    case ByControl(act) => ControlKeepsBalance(s, act, tally);
    case ByWorker(act) => WorkerKeepsResults(s, act);
    case SetLevel(_) =>
  }

  lemma {:induction false} RunKeepsBalance(s: System, trace: seq<Action>, tally: Tally)
    requires Inv(s) && Runs(s, trace) && Balanced(s, tally)
    ensures Balanced(After(s, trace), CountedAll(s, trace, tally))
    decreases |trace|
  {
    if trace != [] {
      StepKeepsBalance(s, trace[0], tally);
      ApplyKeepsInv(s, trace[0]);
      RunKeepsBalance(Apply(s, trace[0]), trace[1..], Counted(s, trace[0], tally));
    }
  }

  lemma StartBalanced(count: nat)
    ensures Inv(Start(count)) && Balanced(Start(count), NO_CALLS)
  {
    StartHasInv(count);
    CountNone(Start(count).producers, Checking);
    CountNone(Start(count).producers, UnderWay(0));
  }

  lemma BalancedAlways(count: nat, trace: seq<Action>)
    requires Runs(Start(count), trace)
    ensures Inv(After(Start(count), trace))
    ensures Balanced(After(Start(count), trace), CountedAll(Start(count), trace, NO_CALLS))
  {
    StartBalanced(count);
    RunKeepsInv(Start(count), trace);
    RunKeepsBalance(Start(count), trace, NO_CALLS);
  }

  /** In every run, every call begun since the current life cycle's reset is before its check, was
      refused there, or passed; and every call that passed has a result of the queue, a Closed
      answer, or its answer still to come. While the queue is open nobody has been answered Closed. */
  lemma EveryCallAccounted(count: nat, trace: seq<Action>)
    requires Runs(Start(count), trace)
    ensures var s := After(Start(count), trace);
            var tally := CountedAll(Start(count), trace, NO_CALLS);
            && tally.begun == tally.passed + tally.refused + Count(s.producers, Checking)
            && tally.passed
               == |s.queue.history.results| + Count(s.producers, UnderWay(s.queue.generation)) + tally.turnedAway
            && (!s.queue.closed ==> tally.turnedAway == 0)
  {
    BalancedAlways(count, trace);
  }

  // ---------------------------------------------------------------- calls that nothing can refuse

  /** Calls at `level` or above only, and no minimum set above it. */
  predicate Permits(a: Action, level: int) {
    match a
    case ByProducer(_, act) => act.Begin? ==> act.level >= level
    case ByControl(act) => act.CallInit? ==> act.config.minLevel <= level
    case SetLevel(minimum) => minimum <= level
    case ByWorker(_) => true
  }

  predicate AllPermit(trace: seq<Action>, level: int) {
    forall i | 0 <= i < |trace| :: Permits(trace[i], level)
  }

  ghost predicate LevelInv(s: System, refused: nat, level: int) {
    && (forall p | 0 <= p < |s.producers| && s.producers[p].pc.Holding? :: s.producers[p].pc.level >= level)
    && (NextConfig(s.control).Some? ==> NextConfig(s.control).value.minLevel <= level)
    && (s.running || s.control.InitStarting? ==> s.minLevel <= level)
    && (s.running || s.control.InitInstalling? || s.control.InitStarting? ==> refused == 0)
  }

  lemma LevelKeptByCall(s: System, p: nat, act: ProducerAct, tally: Tally, level: int)
    requires LockInv(s) && ProducerEnabled(s, p, act) && Permits(ByProducer(p, act), level)
    requires LevelInv(s, tally.refused, level)
    ensures LevelInv(ApplyProducer(s, p, act), CountedCall(s, p, act, tally).refused, level)
  {
    assert act.Check? ==> HoldsShared(s.producers[p]);
  }

  lemma LevelKeptByQuiet(s: System, t: System, refused: nat, level: int)
    requires LevelInv(s, refused, level) && Quiet(s, t)
    requires NextConfig(t.control).Some? ==> NextConfig(t.control).value.minLevel <= level
    ensures LevelInv(t, refused, level)
  {
  }

  lemma LevelKeptByStart(s: System, act: ControlAct, refused: nat, level: int)
    requires LevelInv(s, refused, level) && FlagInv(s) && IsStart(act) && StartEnabled(s, act)
    ensures LevelInv(ApplyStart(s, act), if act.InitReset? then 0 else refused, level)
  {
  }

  lemma LevelKeptByControl(s: System, act: ControlAct, tally: Tally, level: int)
    requires FlagInv(s) && ControlEnabled(s, act) && Permits(ByControl(act), level)
    requires LevelInv(s, tally.refused, level)
    ensures LevelInv(ApplyControl(s, act), Counted(s, ByControl(act), tally).refused, level)
  {
    if IsStart(act) {
      LevelKeptByStart(s, act, tally.refused, level);
    } else {
      ControlIsQuiet(s, act);
      LevelKeptByQuiet(s, ApplyControl(s, act), tally.refused, level);
    }
  }

  lemma LevelKeptByWorker(s: System, act: WorkerAct, refused: nat, level: int)
    requires WorkerEnabled(s, act) && LevelInv(s, refused, level)
    ensures LevelInv(ApplyWorker(s, act), refused, level)
  {
  }

  lemma StepKeepsLevel(s: System, a: Action, tally: Tally, level: int)
    requires LockInv(s) && FlagInv(s) && Enabled(s, a) && Permits(a, level) && LevelInv(s, tally.refused, level)
    ensures LevelInv(Apply(s, a), Counted(s, a, tally).refused, level)
  {
    match a
    case ByProducer(p, act) => LevelKeptByCall(s, p, act, tally, level);
    case ByControl(act) => LevelKeptByControl(s, act, tally, level);
    case ByWorker(act) => LevelKeptByWorker(s, act, tally.refused, level);
    case SetLevel(_) =>
  }

  lemma PermitsRest(trace: seq<Action>, level: int)
    requires AllPermit(trace, level) && trace != []
    ensures Permits(trace[0], level) && AllPermit(trace[1..], level)
  {
  }

  lemma StartAtLevel(count: nat, level: int)
    ensures LevelInv(Start(count), 0, level)
  {
  }

  lemma {:induction false} RunKeepsLevel(s: System, trace: seq<Action>, tally: Tally, level: int)
    requires Inv(s) && Runs(s, trace) && LevelInv(s, tally.refused, level)
    requires AllPermit(trace, level)
    ensures LevelInv(After(s, trace), CountedAll(s, trace, tally).refused, level)
    decreases |trace|
  {
    if trace != [] {
      PermitsRest(trace, level);
      StepKeepsLevel(s, trace[0], tally, level);
      ApplyKeepsInv(s, trace[0]);
      RunKeepsLevel(Apply(s, trace[0]), trace[1..], Counted(s, trace[0], tally), level);
    }
  }

  /** When every call is at or above every minimum that is configured or set, no call of a running
      logger has been refused: once all have returned, the calls begun are the calls that passed. */
  lemma NobodyRefused(count: nat, trace: seq<Action>, level: int)
    requires Runs(Start(count), trace) && AllPermit(trace, level)
    ensures var s := After(Start(count), trace);
            var tally := CountedAll(Start(count), trace, NO_CALLS);
            && (s.running ==> tally.refused == 0)
            && (s.running && AllReturned(s) ==> tally.begun == tally.passed)
  {
    BalancedAlways(count, trace);
    LevelAlways(count, trace, level);
    AllPassed(After(Start(count), trace), CountedAll(Start(count), trace, NO_CALLS), level);
  }

  lemma LevelAlways(count: nat, trace: seq<Action>, level: int)
    requires Runs(Start(count), trace) && AllPermit(trace, level)
    ensures LevelInv(After(Start(count), trace), CountedAll(Start(count), trace, NO_CALLS).refused, level)
  {
    StartBalanced(count);
    StartAtLevel(count, level);
    RunKeepsLevel(Start(count), trace, NO_CALLS, level);
  }

  lemma AllPassed(s: System, tally: Tally, level: int)
    requires Balanced(s, tally) && LevelInv(s, tally.refused, level)
    ensures s.running ==> tally.refused == 0
    ensures s.running && AllReturned(s) ==> tally.begun == tally.passed
  {
    if AllReturned(s) {
      CountNone(s.producers, Checking);
    }
  }

  // ---------------------------------------------------------------- one stop(), from call to return

  /** Every log() call that was made has returned. */
  predicate AllReturned(s: System) {
    forall p | 0 <= p < |s.producers| :: s.producers[p].pc.Outside?
  }

  predicate Stopping(c: Control) {
    c.StopEntered? || c.StopFlagged? || c.StopJoining? || c.StopClosing? || c.StopClearing?
  }

  ghost predicate StopUnderWay(s: System, t: System) {
    && Stopping(t.control)
    && AllReturned(t)
    && t.queue.history.results == s.queue.history.results
    && t.config == s.config && t.lifecycle == s.lifecycle && t.archive == s.archive
    && |t.sinks| == |s.sinks|
    && (s.failed ==> t.failed)
  }

  lemma StopGoesOnByControl(s: System, t: System, act: ControlAct)
    requires IsStop(act) && StopEnabled(t, act) && !act.StopClear? && StopUnderWay(s, t)
    ensures StopUnderWay(s, ApplyStop(t, act))
  {
  }

  lemma StopGoesOnByWorker(s: System, t: System, act: WorkerAct)
    requires Conserved(t.queue) && t.config.writeBatchSize > 0 && WorkerEnabled(t, act) && StopUnderWay(s, t)
    ensures StopUnderWay(s, ApplyWorker(t, act))
  {
    WorkerKeepsResults(t, act);
    WorkerStep(t, act);
    WorkerMovedHasFrame(t, ApplyWorker(t, act));
    FailureStays(t, act);
  }

  lemma FailureStays(t: System, act: WorkerAct)
    requires WorkerEnabled(t, act)
    ensures t.failed ==> ApplyWorker(t, act).failed
  {
  }

  lemma StopGoesOn(s: System, t: System, a: Action)
    requires Conserved(t.queue) && t.config.writeBatchSize > 0 && Enabled(t, a) && StopUnderWay(s, t)
    requires a != ByControl(StopClear)
    ensures StopUnderWay(s, Apply(t, a))
  {
    match a
    case ByProducer(_, _) =>
    case ByControl(act) => StopGoesOnByControl(s, t, act);
    case ByWorker(act) => StopGoesOnByWorker(s, t, act);
    case SetLevel(_) =>
  }

  lemma {:induction false} StopRuns(s: System, t: System, trace: seq<Action>)
    requires Inv(t) && Runs(t, trace) && StopUnderWay(s, t) && ByControl(StopClear) !in trace
    ensures StopUnderWay(s, After(t, trace)) && Inv(After(t, trace))
    decreases |trace|
  {
    if trace != [] {
      StopGoesOn(s, t, trace[0]);
      ApplyKeepsInv(t, trace[0]);
      StopRuns(s, Apply(t, trace[0]), trace[1..]);
    }
  }

  /** The state in which stop() drops the sinks, when it was called in s and `during` came between. */
  ghost predicate StopsFrom(s: System, during: seq<Action>, t: System) {
    && Enabled(s, ByControl(CallStop))
    && ByControl(StopClear) !in during
    && Runs(Apply(s, ByControl(CallStop)), during)
    && t == After(Apply(s, ByControl(CallStop)), during)
    && Enabled(t, ByControl(StopClear))
  }

  lemma StopIsUnderWay(s: System, during: seq<Action>, t: System)
    requires Inv(s) && AllReturned(s) && StopsFrom(s, during, t)
    ensures Inv(t) && StopUnderWay(s, t)
  {
    ApplyKeepsInv(s, ByControl(CallStop));
    StopRuns(s, Apply(s, ByControl(CallStop)), during);
  }

  lemma RunningHasSinks(s: System)
    requires ConfigInv(s) && FlagInv(s) && s.control.Free? && s.running
    ensures |s.sinks| == SinkCount(s.config) > 0
  {
    assert !s.worker.Absent? && s.sinks != [];
  }

  /** What the last step of stop() puts on record. */
  lemma StopRecords(t: System)
    requires ControlEnabled(t, StopClear) && t.sinks != []
    ensures var after := ApplyControl(t, StopClear);
            && after.queue == t.queue
            && |after.archive| == |t.archive| + 1
            && after.archive[|t.archive|]
               == Ended(t.config, t.lifecycle, t.sinks, t.queue, t.batch, t.failed, t.lastMiss)
  {
  }

  lemma EndBalances(t: System)
    requires Ledger(t.queue) && FlagInv(t) && DataInv(t) && MissInv(t)
    requires t.control.StopClearing? && t.sinks != [] && !t.failed
    ensures forall j | 0 <= j < |t.sinks| ::
              |Delivered(t.sinks[j])| + |t.queue.items| + t.queue.dropped == |t.queue.history.results|
    ensures t.config.flushPolicy != Periodic ==> t.queue.items == []
  {
    var h := t.queue.history;
    SurvivorsSplit(h.accepted, h.fates);
    CountSurvivors(h.accepted, h.fates);
    forall j | 0 <= j < |t.sinks| ensures Delivered(t.sinks[j]) == PoppedValues(t.queue) {
      assert Agree(t.queue, t.sinks);
    }
  }

  /** The same from any state that meets the invariants: every call that passed is accounted for. */
  lemma StopAccounts(s: System, tally: Tally, during: seq<Action>, t: System)
    requires Inv(s) && Balanced(s, tally) && s.running && AllReturned(s) && StopsFrom(s, during, t) && !t.failed
    ensures |t.sinks| == SinkCount(s.config) > 0 && t.archive == s.archive
    ensures t.config == s.config && t.lifecycle == s.lifecycle
    ensures forall j | 0 <= j < |t.sinks| ::
              |Delivered(t.sinks[j])| + |t.queue.items| + t.queue.dropped == tally.passed
    ensures s.config.flushPolicy != Periodic ==> t.queue.items == []
  {
    StopIsUnderWay(s, during, t);
    RunningHasSinks(s);
    EndBalances(t);
    CountNone(s.producers, UnderWay(s.queue.generation));
  }

  /** stop() called after every log() call of the life cycle has returned: however the worker runs
      meanwhile, and if it does not fail, the life cycle that ends accounts for every call that passed
      the check. Each was delivered to every sink or is in the drop counter, except those left in the
      queue, which there are none of unless the policy is Periodic. */
  lemma StopBalances(count: nat, before: seq<Action>, during: seq<Action>, t: System)
    requires Runs(Start(count), before)
    requires var s := After(Start(count), before); s.running && AllReturned(s) && StopsFrom(s, during, t)
    requires !t.failed
    ensures var s := After(Start(count), before);
            var after := Apply(t, ByControl(StopClear));
            var passed := CountedAll(Start(count), before, NO_CALLS).passed;
            && |after.archive| == |s.archive| + 1
            && var e := after.archive[|s.archive|];
               && e.config == s.config && e.lifecycle == s.lifecycle
               && e.logs == t.sinks && |e.logs| == SinkCount(s.config) > 0
               && e.queue == after.queue
               && (forall j | 0 <= j < |e.logs| ::
                     |Delivered(e.logs[j])| + |e.queue.items| + after.queue.dropped == passed)
               && (s.config.flushPolicy != Periodic ==> e.queue.items == [])
  {
    BalancedAlways(count, before);
    StopOnRecord(After(Start(count), before), CountedAll(Start(count), before, NO_CALLS), during, t);
  }

  lemma StopOnRecord(s: System, tally: Tally, during: seq<Action>, t: System)
    requires Inv(s) && Balanced(s, tally) && s.running && AllReturned(s) && StopsFrom(s, during, t) && !t.failed
    ensures var after := Apply(t, ByControl(StopClear));
            && |after.archive| == |s.archive| + 1
            && var e := after.archive[|s.archive|];
               && e.config == s.config && e.lifecycle == s.lifecycle
               && e.logs == t.sinks && |e.logs| == SinkCount(s.config) > 0
               && e.queue == after.queue
               && (forall j | 0 <= j < |e.logs| ::
                     |Delivered(e.logs[j])| + |e.queue.items| + after.queue.dropped == tally.passed)
               && (s.config.flushPolicy != Periodic ==> e.queue.items == [])
  {
    StopAccounts(s, tally, during, t);
    StopRecords(t);
  }

  /** The same for the calls attempted: when every call is at or above every minimum that is configured
      or set, then every log() call of the life cycle was delivered, dropped or left. */
  lemma AttemptsBalance(count: nat, before: seq<Action>, during: seq<Action>, t: System, level: int, sink: nat)
    requires Runs(Start(count), before) && AllPermit(before, level)
    requires var s := After(Start(count), before); s.running && AllReturned(s) && StopsFrom(s, during, t)
    requires !t.failed && sink < |t.sinks|
    ensures |Delivered(t.sinks[sink])| + |t.queue.items| + Apply(t, ByControl(StopClear)).queue.dropped
         == CountedAll(Start(count), before, NO_CALLS).begun
    ensures t.config.flushPolicy != Periodic ==> t.queue.items == []
  {
    BalancedAlways(count, before);
    NobodyRefused(count, before, level);
    StopAccounts(After(Start(count), before), CountedAll(Start(count), before, NO_CALLS), during, t);
    StopIsQuiet(t, StopClear);
    StopRecords(t);
  }
}
