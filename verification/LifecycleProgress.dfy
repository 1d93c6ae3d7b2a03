/** Shutdown and re-initialization make progress: whoever holds the life-cycle lock exclusively is
    never stuck, and gives the lock up after finitely many steps of its own and of the worker. */
module LifecycleProgress {
  import opened QueueSpec
  import opened Lifecycle
  import opened LifecycleSafety
  import opened LifecycleTheorems

  predicate AtJoin(c: Control) {
    c.StopJoining? || c.InitJoining?
  }

  /** init or stop can take its next step; or it waits to join a worker that can take one. */
  ghost predicate HolderCanMove(s: System) {
    || (exists act :: ControlEnabled(s, act))
    || (AtJoin(s.control) && exists act :: WorkerEnabled(s, act))
  }

  lemma LiveWorkerCanMove(s: System)
    requires WorkerLive(s.worker) && (s.worker.Polling? ==> s.queue.closed)
    ensures exists act :: WorkerEnabled(s, act)
  {
    var none: Option<nat> := None;
    var act := match s.worker
      case Polling => Poll(false)
      case Missed => AfterMiss(false, none)
      case TestingClosed => TestClosed
      case Formatting => Format(true)
      case Writing(i) => if i < |s.sinks| then WriteNext(none) else FinishBatch(false, none)
      case FailFlagging => FailFlag
      case FailClosing => FailClose
      case FinalFlushing => FinalFlush(none)
      case LateFlagging => LateFlag
      case _ => LateClose;
    assert WorkerEnabled(s, act);
  }

  function NextAct(c: Control): ControlAct
    requires !c.Free?
  {
    match c
    case StopEntered => StopFlag
    case StopFlagged => StopClose
    case StopJoining => StopJoin
    case StopClosing => StopCloseSinks
    case StopClearing => StopClear
    case InitEntered(_) => InitValidate
    case InitJoining(_) => InitJoin
    case InitDiscarding(_) => InitCloseSinks
    case InitClearing(_) => InitClear
    case InitBuilding(_) => InitBuild(true)
    case InitResetting(_) => InitReset
    case InitInstalling(_) => InitInstall
    case InitStarting => InitRun
    case InitSpawning => InitSpawn(true)
    case UndoFlagging => UndoFlag
    case UndoClosing => UndoClose
    case UndoDiscarding => UndoCloseSinks
    case UndoClearing => UndoClear
  }

  /** No deadlock: in no reachable state is the exclusive lock held by a thread that waits for
      something that cannot happen; a thread holding it shared can always move on; and once the
      queue is closed no producer waits in it. */
  lemma NeverStuck(count: nat, trace: seq<Action>)
    requires Runs(Start(count), trace)
    ensures var s := After(Start(count), trace);
            && (!s.control.Free? ==> HolderCanMove(s))
            && (forall p | 0 <= p < |s.producers| && HoldsShared(s.producers[p]) ::
                  ProducerEnabled(s, p, Check) || ProducerEnabled(s, p, Capture))
            && (s.queue.closed ==> forall p | 0 <= p < |s.producers| && s.producers[p].pc.Blocked? ::
                  ProducerEnabled(s, p, Resubmit) && ApplyProducer(s, p, Resubmit).producers[p].pc.Outside?)
  {
    var s := After(Start(count), trace);
    InvAlways(count, trace);
    if !s.control.Free? {
      if AtJoin(s.control) && !Joinable(s) {
        LiveWorkerCanMove(s);
      } else {
        assert ControlEnabled(s, NextAct(s.control));
      }
    }
  }

  // ---------------------------------------------------------------- the measure

  function ControlRank(c: Control): nat {
    match c
    case Free => 0
    case StopEntered => 5
    case StopFlagged => 4
    case StopJoining => 3
    case StopClosing => 2
    case StopClearing => 1
    case InitEntered(_) => 13
    case InitJoining(_) => 12
    case InitDiscarding(_) => 11
    case InitClearing(_) => 10
    case InitBuilding(_) => 9
    case InitResetting(_) => 8
    case InitInstalling(_) => 7
    case InitStarting => 6
    case InitSpawning => 5
    case UndoFlagging => 4
    case UndoClosing => 3
    case UndoDiscarding => 2
    case UndoClearing => 1
  }

  function WorkerRank(w: Worker, sinks: nat): int {
    match w
    case Formatting => sinks + 7
    case Writing(i) => sinks + 6 - i
    case Polling => 5
    case Missed => 4
    case TestingClosed => 3
    case FailFlagging => 5
    case FailClosing => 4
    case FinalFlushing => 3
    case LateFlagging => 2
    case LateClosing => 1
    case Exited => 0
    case Absent => 0
  }

  datatype Measure = Measure(control: nat, queued: nat, worker: int)

  /** How far the exclusive section is from its end. The queue and the worker count only while the
      section waits to join the worker. */
  function Distance(s: System): Measure {
    if AtJoin(s.control) then
      Measure(ControlRank(s.control),
              if InLoop(s.worker) then |s.queue.items| + 1 else 0,
              WorkerRank(s.worker, |s.sinks|))
    else
      Measure(ControlRank(s.control), 0, 0)
  }

  predicate Closer(a: Measure, b: Measure) {
    || a.control < b.control
    || (a.control == b.control && a.queued < b.queued)
    || (a.control == b.control && a.queued == b.queued && 0 <= a.worker < b.worker)
  }

  lemma WorkerComesCloser(s: System, t: System)
    requires FlagInv(s) && DataInv(s) && AtJoin(s.control) && WorkerMoved(s, t)
    ensures Closer(Distance(t), Distance(s))
  {
    WorkerMovedHasFrame(s, t);
    if s.worker.Writing? {
      WriterComesCloser(s, t);
    } else if s.worker.FinalFlushing? {
      FlushHasFrame(s, t, Exited, LateFlagging);
    } else if s.worker.Missed? && t != s.(worker := TestingClosed) {
      FlushHasFrame(s, t, TestingClosed, FailFlagging);
    }
  }

  lemma WriterComesCloser(s: System, t: System)
    requires DataInv(s) && AtJoin(s.control) && WorkerMoved(s, t) && s.worker.Writing?
    ensures Closer(Distance(t), Distance(s))
  {
    if s.worker.sink >= |s.sinks| && t != s.(worker := Polling) {
      FlushHasFrame(s, t, Polling, FailFlagging);
    }
  }

  lemma ProducerKeepsDistance(s: System, t: System, p: nat)
    requires FlagInv(s) && !s.control.Free? && ProducerMoved(s, t, p)
    ensures Distance(t) == Distance(s)
  {
  }

  lemma ControlComesCloser(s: System, act: ControlAct)
    requires !s.control.Free? && ControlEnabled(s, act)
    ensures ControlRank(ApplyControl(s, act).control) < ControlRank(s.control)
  {
  }

  lemma OutsideJoin(s: System, t: System)
    requires !AtJoin(s.control) && t.control == s.control
    ensures Distance(t) == Distance(s)
  {
  }

  /** Every step of init or stop brings the exclusive section closer to its end; so does every step
      of the worker it waits for; and no other step takes it further away. The queue can only shrink
      under a join, so the drain ends too. */
  lemma ExclusiveSectionEnds(count: nat, trace: seq<Action>, a: Action)
    requires Runs(Start(count), trace) && Enabled(After(Start(count), trace), a)
    requires !After(Start(count), trace).control.Free?
    ensures var s := After(Start(count), trace);
            var t := Apply(s, a);
            if a.ByControl? || (a.ByWorker? && AtJoin(s.control)) then Closer(Distance(t), Distance(s))
            else Distance(t) == Distance(s)
  {
    var s := After(Start(count), trace);
    InvAlways(count, trace);
    match a
    case ByProducer(p, act) =>
      ProducerStep(s, p, act);
      ProducerKeepsDistance(s, Apply(s, a), p);
    case ByControl(act) =>
      ControlComesCloser(s, act);
    case ByWorker(act) =>
      WorkerMoves(s, act);
    case SetLevel(_) =>
  }

  lemma WorkerMoves(s: System, act: WorkerAct)
    requires Inv(s) && WorkerEnabled(s, act)
    ensures var t := ApplyWorker(s, act);
            if AtJoin(s.control) then Closer(Distance(t), Distance(s)) else Distance(t) == Distance(s)
  {
    var t := ApplyWorker(s, act);
    WorkerStep(s, act);
    if AtJoin(s.control) {
      WorkerComesCloser(s, t);
    } else {
      WorkerMovedHasFrame(s, t);
      OutsideJoin(s, t);
    }
  }

  // ---------------------------------------------------------------- blocked producers are served

  /** Without a worker, and outside a start, the queue is closed, unless the logger was never started;
      and records come from life cycles that were. */
  ghost predicate ServedInv(s: System) {
    && (s.worker.Absent? && !Starting(s.control) ==> s.queue.closed || s.lifecycle == 0)
    && (s.running || s.control.InitStarting? || !s.worker.Absent? ==> s.lifecycle > 0)
    && (forall p | 0 <= p < |s.producers| ::
          var pc := s.producers[p].pc; pc.Passed? || pc.Captured? || pc.Blocked? ==> pc.record.lifecycle > 0)
  }

  lemma ServedKeptByProducer(s: System, p: nat, act: ProducerAct)
    requires Conserved(s.queue) && ServedInv(s) && ProducerEnabled(s, p, act)
    ensures ServedInv(ApplyProducer(s, p, act))
  {
    ProducerStep(s, p, act);
  }

  lemma ServedKeptByStop(s: System, act: ControlAct)
    requires FlagInv(s) && ServedInv(s) && IsStop(act) && StopEnabled(s, act)
    ensures ServedInv(ApplyStop(s, act))
  {
  }

  lemma ServedKeptByInit(s: System, act: ControlAct)
    requires FlagInv(s) && ServedInv(s) && IsInit(act) && InitEnabled(s, act)
    ensures ServedInv(ApplyInit(s, act))
  {
  }

  lemma ServedKeptByStart(s: System, act: ControlAct)
    requires FlagInv(s) && ServedInv(s) && IsStart(act) && StartEnabled(s, act)
    ensures ServedInv(ApplyStart(s, act))
  {
  }

  lemma ServedKeptByUndo(s: System, act: ControlAct)
    requires FlagInv(s) && ServedInv(s) && IsUndo(act) && UndoEnabled(s, act)
    ensures ServedInv(ApplyUndo(s, act))
  {
  }

  lemma ServedKeptByControl(s: System, act: ControlAct)
    requires FlagInv(s) && ServedInv(s) && ControlEnabled(s, act)
    ensures ServedInv(ApplyControl(s, act))
  {
    if IsStop(act) {
      ServedKeptByStop(s, act);
    } else if IsInit(act) {
      ServedKeptByInit(s, act);
    } else if IsStart(act) {
      ServedKeptByStart(s, act);
    } else {
      ServedKeptByUndo(s, act);
    }
  }

  lemma ServedKeptByWorker(s: System, t: System)
    requires FlagInv(s) && ServedInv(s) && WorkerFrame(s, t)
    ensures ServedInv(t)
  {
  }

  lemma StepKeepsServed(s: System, a: Action)
    requires Conserved(s.queue) && s.config.writeBatchSize > 0 && FlagInv(s) && ServedInv(s) && Enabled(s, a)
    ensures ServedInv(Apply(s, a))
  {
    match a
    case ByProducer(p, act) => ServedKeptByProducer(s, p, act);
    case ByControl(act) => ServedKeptByControl(s, act);
    case ByWorker(act) =>
      WorkerStep(s, act);
      WorkerMovedHasFrame(s, Apply(s, a));
      ServedKeptByWorker(s, Apply(s, a));
    case SetLevel(_) =>
  }

  lemma {:induction false} RunKeepsServed(s: System, trace: seq<Action>)
    requires Inv(s) && Runs(s, trace) && ServedInv(s)
    ensures ServedInv(After(s, trace))
    decreases |trace|
  {
    if trace != [] {
      StepKeepsServed(s, trace[0]);
      ApplyKeepsInv(s, trace[0]);
      RunKeepsServed(Apply(s, trace[0]), trace[1..]);
    }
  }

  /** A producer that waits for room: its predicate is false. */
  predicate WaitsForRoom(s: System, p: nat) {
    && p < |s.producers|
    && s.producers[p].pc.Blocked?
    && !RoomOrOver(s.queue, s.producers[p].pc.generation)
  }

  lemma WaitedForIsLive(s: System, p: nat)
    requires FlagInv(s) && GenerationInv(s) && ServedInv(s) && WaitsForRoom(s, p)
    ensures WorkerLive(s.worker) && !Ending(s.worker) && !s.queue.closed && s.queue.items != []
  {
    assert ProducerGeneration(s, s.producers[p].pc);
  }

  /** How many steps of its own keep the worker from making room, or from closing the queue. */
  function StepsToRoom(w: Worker, sinks: nat): int {
    match w
    case Formatting => sinks + 4
    case Writing(i) => sinks + 3 - i
    case Missed => 2
    case TestingClosed => 1
    case Polling => 0
    case FailFlagging => 1
    case FailClosing => 0
    case _ => 0
  }

  lemma LiveWorkerCanServe(s: System)
    requires WorkerLive(s.worker) && (s.worker.Polling? ==> s.queue.items != [])
    ensures exists act :: WorkerEnabled(s, act)
  {
    if s.worker.Polling? {
      assert WorkerEnabled(s, Poll(false));
    } else {
      LiveWorkerCanMove(s);
    }
  }

  lemma WorkerComesToRoom(s: System, t: System, p: nat)
    requires WorkerMoved(s, t) && WaitsForRoom(s, p) && s.queue.capacity >= |s.queue.items| && s.queue.items != []
    requires !Ending(s.worker) && DataInv(s)
    ensures !WaitsForRoom(t, p) || 0 <= StepsToRoom(t.worker, |t.sinks|) < StepsToRoom(s.worker, |s.sinks|)
  {
    WorkerMovedHasFrame(s, t);
    match s.worker
    case Missed =>
      if t != s.(worker := TestingClosed) { FlushHasFrame(s, t, TestingClosed, FailFlagging); }
    case Writing(i) =>
      if i >= |s.sinks| && t != s.(worker := Polling) { FlushHasFrame(s, t, Polling, FailFlagging); }
    case _ =>
  }

  /** Room is nearer in t than in s for producer p, or there already, or the queue is closed. */
  predicate RoomIsNearer(s: System, t: System, p: nat) {
    !WaitsForRoom(t, p) || 0 <= StepsToRoom(t.worker, |t.sinks|) < StepsToRoom(s.worker, |s.sinks|)
  }

  predicate RoomIsAsNear(s: System, t: System, p: nat) {
    !WaitsForRoom(t, p) || StepsToRoom(t.worker, |t.sinks|) == StepsToRoom(s.worker, |s.sinks|)
  }

  /** A producer that waits for room always has somebody to make it: the worker is live and can take a
      step, even after a failure, whoever holds the life-cycle lock; and each step it takes makes room
      or closes the queue, or brings it closer to that. Nobody else's step takes it further away. */
  lemma BlockedProducerIsServed(count: nat, trace: seq<Action>, p: nat)
    requires Runs(Start(count), trace) && WaitsForRoom(After(Start(count), trace), p)
    ensures exists act :: WorkerEnabled(After(Start(count), trace), act)
    ensures var s := After(Start(count), trace);
            && (forall act | WorkerEnabled(s, act) :: RoomIsNearer(s, ApplyWorker(s, act), p))
            && (forall a | Enabled(s, a) && !a.ByWorker? :: RoomIsAsNear(s, Apply(s, a), p))
  {
    StartHasInv(count);
    RunKeepsInv(Start(count), trace);
    RunKeepsServed(Start(count), trace);
    Served(After(Start(count), trace), p);
  }

  lemma Served(s: System, p: nat)
    requires Inv(s) && ServedInv(s) && WaitsForRoom(s, p)
    ensures exists act :: WorkerEnabled(s, act)
    ensures forall act | WorkerEnabled(s, act) :: RoomIsNearer(s, ApplyWorker(s, act), p)
    ensures forall a | Enabled(s, a) && !a.ByWorker? :: RoomIsAsNear(s, Apply(s, a), p)
  {
    WaitedForIsLive(s, p);
    LiveWorkerCanServe(s);
    forall act | WorkerEnabled(s, act) ensures RoomIsNearer(s, ApplyWorker(s, act), p) {
      WorkerStep(s, act);
      WorkerComesToRoom(s, ApplyWorker(s, act), p);
    }
    forall a | Enabled(s, a) && !a.ByWorker? ensures RoomIsAsNear(s, Apply(s, a), p) {
      OthersLeaveWorker(s, a);
    }
  }

  lemma OthersLeaveWorker(s: System, a: Action)
    requires Conserved(s.queue) && FlagInv(s) && WorkerLive(s.worker) && Enabled(s, a) && !a.ByWorker?
    ensures Apply(s, a).worker == s.worker && |Apply(s, a).sinks| == |s.sinks|
  {
    if a.ByProducer? {
      ProducerStep(s, a.p, a.producerAct);
    }
  }
}
