/** Safety of the life-cycle protocol: invariants that every step of every thread keeps. */
module LifecycleSafety {
  import opened QueueSpec
  import opened Lifecycle

  // ---------------------------------------------------------------- phases

  predicate InLoop(w: Worker) {
    w.Polling? || w.Missed? || w.TestingClosed? || w.Formatting? || w.Writing?
  }

  predicate Ending(w: Worker) {
    w.FinalFlushing? || w.LateFlagging? || w.LateClosing? || w.Exited?
  }

  predicate WorkerLive(w: Worker) {
    !w.Absent? && !w.Exited?
  }

  predicate SinksClosed(c: Control) {
    c.StopClearing? || c.InitClearing? || c.UndoClearing?
  }

  /** The worker has been joined, its sinks are about to be closed and dropped. */
  predicate Retiring(c: Control) {
    c.StopClosing? || c.InitDiscarding? || c.StopClearing? || c.InitClearing?
  }

  predicate Undoing(c: Control) {
    c.UndoFlagging? || c.UndoClosing? || c.UndoDiscarding? || c.UndoClearing?
  }

  /** From the reset of the queue to the end of init, or of its undoing. */
  predicate Starting(c: Control) {
    c.InitInstalling? || c.InitStarting? || c.InitSpawning? || Undoing(c)
  }

  predicate NoWorkerWanted(c: Control) {
    Retiring(c) || c.InitBuilding? || c.InitResetting? || Starting(c)
  }

  // ---------------------------------------------------------------- steps, seen from outside

  /** A producer's step changes its own entry, and pushes at most its own record. */
  ghost predicate ProducerMoved(s: System, t: System, p: nat) {
    && p < |s.producers| == |t.producers|
    && Conserved(s.queue) && Conserved(t.queue)
    && var was, now := s.producers[p], t.producers[p];
    && t == s.(queue := t.queue, producers := s.producers[p := now])
    && match was.pc
       case Outside => t.queue == s.queue && s.control.Free? && now.pc.Holding? && now.calls == was.calls + 1
       case Holding(level) =>
         && t.queue == s.queue && now.calls == was.calls
         && (now.pc.Outside?
             || (s.running && level >= s.minLevel
                 && now.pc == Passed(Record(p, was.calls, level, s.lifecycle, s.minLevel))))
       case Passed(record) => t.queue == s.queue && now == was.(pc := Captured(record, s.queue.generation))
       case Captured(record, generation) => Pushing(s, t, was, now, record, generation)
       case Blocked(record, generation) => Pushing(s, t, was, now, record, generation)
  }

  ghost predicate Pushing(s: System, t: System, was: Producer, now: Producer, record: Record, generation: nat)
    requires Conserved(s.queue) && Conserved(t.queue)
  {
    && now.calls == was.calls
    && PushedOrNot(s.queue, t.queue, generation, record)
    && (now.pc.Outside? || (now.pc == Blocked(record, generation) && t.queue == s.queue))
  }

  lemma ProducerStep(s: System, p: nat, act: ProducerAct)
    requires Conserved(s.queue) && ProducerEnabled(s, p, act)
    ensures ProducerMoved(s, ApplyProducer(s, p, act), p)
  {
    var pc := s.producers[p].pc;
    if pc.Captured? || pc.Blocked? {
      PushPreservesPopped(s.queue, pc.generation, pc.record);
    }
  }

  /** The worker took `values` from the front of the queue and changed nothing else about it. */
  ghost predicate Polled(q: State<Record>, t: State<Record>, values: seq<Record>)
    requires Conserved(q) && Conserved(t)
  {
    && t == q.(items := t.items, history := t.history)
    && q.items == values + t.items
    && t.history.accepted == q.history.accepted
    && PoppedValues(t) == PoppedValues(q) + values
  }

  ghost predicate FlushedTo(s: System, t: System, next: Worker, handler: Worker) {
    exists failing :: FailingIndex(s.sinks, failing) && t == Flushed(s, failing, next, handler)
  }

  ghost predicate WorkerMoved(s: System, t: System) {
    && Conserved(s.queue) && Conserved(t.queue)
    && match s.worker
       case Polling =>
         && t == s.(queue := t.queue, batch := t.batch, worker := t.worker, lastMiss := t.lastMiss)
         && if t.worker.Formatting? then
              Polled(s.queue, t.queue, t.batch) && t.batch != [] && t.lastMiss == s.lastMiss
            else
              && t.worker.Missed? && t.queue == s.queue && s.queue.items == [] && t.batch == []
              && if s.queue.closed then t.lastMiss == s.lastMiss
                 else s.config.flushPolicy == Periodic && t.lastMiss == |s.queue.history.accepted|
       case Missed => t == s.(worker := TestingClosed) || FlushedTo(s, t, TestingClosed, FailFlagging)
       case TestingClosed => t == s.(worker := if s.queue.closed then FinalFlushing else Polling)
       case Formatting => t == s.(worker := Writing(0)) || t == s.(failed := true, worker := FailFlagging)
       case Writing(i) =>
         if i < |s.sinks| then
           || t == s.(sinks := s.sinks[i := s.sinks[i] + [Write(s.batch)]], worker := Writing(i + 1))
           || (exists k :: 0 <= k <= |s.batch| && t == WroteInPart(s, i, k))
         else
           t == s.(worker := Polling) || FlushedTo(s, t, Polling, FailFlagging)
       case FailFlagging => t == s.(running := false, worker := FailClosing)
       case FailClosing => t == s.(queue := Close(s.queue), worker := FinalFlushing)
       case FinalFlushing => FlushedTo(s, t, Exited, LateFlagging)
       case LateFlagging => t == s.(running := false, worker := LateClosing)
       case LateClosing => t == s.(queue := Close(s.queue), worker := Exited)
       case _ => false
  }

  function WroteInPart(s: System, i: nat, k: nat): System
    requires i < |s.sinks| && k <= |s.batch|
  {
    s.(sinks := s.sinks[i := s.sinks[i] + [WriteFailed(s.batch[..k])]], failed := true, worker := FailFlagging)
  }

  lemma PollStep(s: System, expired: bool)
    requires Conserved(s.queue) && s.config.writeBatchSize > 0 && WorkerEnabled(s, Poll(expired))
    ensures WorkerMoved(s, ApplyWorker(s, Poll(expired)))
  {
    TakeHandsOutFront(s.queue, s.config.writeBatchSize);
  }

  lemma WorkerStep(s: System, act: WorkerAct)
    requires Conserved(s.queue) && s.config.writeBatchSize > 0 && WorkerEnabled(s, act)
    ensures WorkerMoved(s, ApplyWorker(s, act))
  {
    var t := ApplyWorker(s, act);
    match act
    case Poll(expired) => PollStep(s, expired);
    case AfterMiss(_, failing) => assert FailingIndex(s.sinks, failing);
    case WriteNext(failing) => if failing.Some? { assert t == WroteInPart(s, s.worker.sink, failing.value); }
    case FinishBatch(_, failing) => assert FailingIndex(s.sinks, failing);
    case FinalFlush(failing) => assert FailingIndex(s.sinks, failing);
    case _ =>
  }

  /** The part of a worker's step that the flags see: how its program counter, `running`, `failed`
      and `closed` move together. */
  ghost predicate WorkerFrame(s: System, t: System) {
    && t == s.(queue := t.queue, running := t.running, worker := t.worker, batch := t.batch,
               sinks := t.sinks, failed := t.failed, lastMiss := t.lastMiss)
    && |t.sinks| == |s.sinks|
    && t.queue.generation == s.queue.generation
    && t.queue.history.accepted == s.queue.history.accepted
    && (if s.worker.FailClosing? || s.worker.LateClosing? then t.queue.closed else t.queue.closed == s.queue.closed)
    && (if s.worker.FailFlagging? || s.worker.LateFlagging? then !t.running else t.running == s.running)
    && match s.worker
       case Polling => (t.worker.Formatting? || t.worker.Missed?) && t.failed == s.failed
       case TestingClosed =>
         (if s.queue.closed then t.worker.FinalFlushing? else t.worker.Polling?) && t.failed == s.failed
       case FailFlagging => t.worker.FailClosing? && t.failed == s.failed
       case FailClosing => t.worker.FinalFlushing? && t.failed == s.failed
       case FinalFlushing => (t.worker.Exited? && t.failed == s.failed) || (t.worker.LateFlagging? && t.failed)
       case LateFlagging => t.worker.LateClosing? && t.failed == s.failed
       case LateClosing => t.worker.Exited? && t.failed == s.failed
       case Exited => false
       case Absent => false
       case _ => (InLoop(t.worker) && t.failed == s.failed) || (t.worker.FailFlagging? && t.failed)
  }

  lemma FlushHasFrame(s: System, t: System, next: Worker, handler: Worker)
    requires FlushedTo(s, t, next, handler)
    ensures t == s.(sinks := t.sinks, failed := t.failed, worker := t.worker)
    ensures |t.sinks| == |s.sinks|
    ensures (t.worker == next && t.failed == s.failed) || (t.worker == handler && t.failed)
  {
  }

  lemma FlushMoveHasFrame(s: System, t: System)
    requires WorkerMoved(s, t) && (s.worker.Missed? || s.worker.FinalFlushing?)
    ensures WorkerFrame(s, t)
  {
    if s.worker.FinalFlushing? {
      FlushHasFrame(s, t, Exited, LateFlagging);
    } else if t != s.(worker := TestingClosed) {
      FlushHasFrame(s, t, TestingClosed, FailFlagging);
    }
  }

  lemma WriteMoveHasFrame(s: System, t: System)
    requires WorkerMoved(s, t) && s.worker.Writing?
    ensures WorkerFrame(s, t)
  {
    if s.worker.sink >= |s.sinks| && t != s.(worker := Polling) {
      FlushHasFrame(s, t, Polling, FailFlagging);
    }
  }

  lemma WorkerMovedHasFrame(s: System, t: System)
    requires WorkerMoved(s, t)
    ensures WorkerFrame(s, t)
  {
    match s.worker
    case Missed => FlushMoveHasFrame(s, t);
    case FinalFlushing => FlushMoveHasFrame(s, t);
    case Writing(_) => WriteMoveHasFrame(s, t);
    case _ =>
  }

  function NextConfig(c: Control): Option<Config> {
    match c
    case InitEntered(config) => Some(config)
    case InitJoining(config) => Some(config)
    case InitDiscarding(config) => Some(config)
    case InitClearing(config) => Some(config)
    case InitBuilding(config) => Some(config)
    case InitResetting(config) => Some(config)
    case InitInstalling(config) => Some(config)
    case _ => None
  }

  /** What the steps of init and stop other than a start leave alone. */
  ghost predicate Quiet(s: System, t: System) {
    && t == s.(control := t.control, running := t.running, queue := t.queue, worker := t.worker, sinks := t.sinks,
               archive := t.archive)
    && (t.queue == s.queue || t.queue == Close(s.queue))
    && (t.running ==> s.running)
    && (Starting(t.control) ==> Starting(s.control))
    && !s.control.InitInstalling? && !t.control.InitInstalling?
    && !s.control.InitStarting? && !t.control.InitStarting? && !t.control.InitSpawning?
  }

  lemma StopIsQuiet(s: System, act: ControlAct)
    requires IsStop(act) && StopEnabled(s, act)
    ensures Quiet(s, ApplyStop(s, act)) && NextConfig(ApplyStop(s, act).control) == None
  {
  }

  lemma InitIsQuiet(s: System, act: ControlAct)
    requires IsInit(act) && InitEnabled(s, act)
    ensures var t := ApplyInit(s, act);
            && Quiet(s, t)
            && (NextConfig(t.control).None? || NextConfig(t.control) == NextConfig(s.control)
                || (act.CallInit? && NextConfig(t.control) == Some(act.config)))
  {
  }

  lemma UndoIsQuiet(s: System, act: ControlAct)
    requires IsUndo(act) && UndoEnabled(s, act)
    ensures Quiet(s, ApplyUndo(s, act)) && NextConfig(ApplyUndo(s, act).control) == None
  {
  }

  lemma ControlIsQuiet(s: System, act: ControlAct)
    requires ControlEnabled(s, act) && !IsStart(act)
    ensures var t := ApplyControl(s, act);
            && Quiet(s, t)
            && (NextConfig(t.control).None? || NextConfig(t.control) == NextConfig(s.control)
                || (act.CallInit? && NextConfig(t.control) == Some(act.config)))
  {
    if IsStop(act) {
      StopIsQuiet(s, act);
    } else if IsInit(act) {
      InitIsQuiet(s, act);
    } else {
      UndoIsQuiet(s, act);
    }
  }

  // ---------------------------------------------------------------- configuration, lock and flags

  predicate PastValidation(c: Control) {
    c.InitJoining? || c.InitDiscarding? || c.InitClearing? || c.InitBuilding? || c.InitResetting? || c.InitInstalling?
  }

  ghost predicate ConfigInv(s: System) {
    && s.config.writeBatchSize > 0
    && (PastValidation(s.control) ==> ValidConfig(s.control.config))
    && (s.sinks != [] ==> ValidConfig(s.config) && |s.sinks| == SinkCount(s.config))
    && (s.control.InitStarting? || s.control.InitSpawning? || !s.worker.Absent? ==> s.sinks != [])
  }

  ghost predicate LockInv(s: System) {
    !s.control.Free? ==> NoSharedHolder(s)
  }

  /** Where init or stop stands, and what `running` and `closed` must then be. */
  predicate KnownStopped(c: Control) {
    || c.StopFlagged? || c.StopJoining? || Retiring(c) || c.InitJoining? || c.InitBuilding?
    || c.InitResetting? || c.InitInstalling? || c.InitStarting? || c.UndoClosing? || c.UndoDiscarding?
  }

  predicate KnownClosed(c: Control) {
    c.StopJoining? || c.StopClosing? || c.StopClearing? || c.UndoDiscarding? || c.UndoClearing?
  }

  ghost predicate FlagsOk(c: Control, w: Worker, running: bool, closed: bool, noSinks: bool, failed: bool) {
    && (running ==> !closed)
    && (KnownStopped(c) ==> !running)
    && (c.InitSpawning? || c.UndoFlagging? ==> running)
    && (c.InitInstalling? || c.InitStarting? ==> !closed)
    && (c.InitStarting? || c.InitSpawning? ==> !failed)
    && (KnownClosed(c) ==> closed)
    && (NoWorkerWanted(c) ==> w.Absent?)
    && (Ending(w) ==> closed && !running)
    && (InLoop(w) && !running ==> closed || c.StopFlagged?)
    && (w.FailClosing? ==> !running)
    && (c.InitBuilding? || c.InitResetting? || c.InitInstalling? ==> noSinks)
    && (w.Absent? && !NoWorkerWanted(c) ==> noSinks && !running)
    && (!noSinks && Retiring(c) ==> closed)
    && (Undoing(c) ==> failed)
    && (failed ==> !InLoop(w))
    && (w.FailFlagging? || w.FailClosing? || w.LateFlagging? || w.LateClosing? ==> failed)
  }

  ghost predicate FlagInv(s: System) {
    FlagsOk(s.control, s.worker, s.running, s.queue.closed, s.sinks == [], s.failed)
  }

  lemma LockKeptByProducer(s: System, t: System, p: nat)
    requires LockInv(s) && ProducerMoved(s, t, p)
    ensures LockInv(t)
  {
  }

  lemma FlagsKeptByProducer(s: System, t: System, p: nat)
    requires FlagInv(s) && ConfigInv(s) && ProducerMoved(s, t, p)
    ensures FlagInv(t) && ConfigInv(t)
  {
  }

  lemma FlagsKeptByStop(s: System, act: ControlAct)
    requires FlagInv(s) && IsStop(act) && StopEnabled(s, act)
    ensures FlagInv(ApplyStop(s, act))
  {
  }

  lemma FlagsKeptByInit(s: System, act: ControlAct)
    requires FlagInv(s) && IsInit(act) && InitEnabled(s, act)
    ensures FlagInv(ApplyInit(s, act))
  {
  }

  lemma FlagsKeptByStart(s: System, act: ControlAct)
    requires FlagInv(s) && ConfigInv(s) && IsStart(act) && StartEnabled(s, act)
    ensures FlagInv(ApplyStart(s, act))
  {
  }

  lemma FlagsKeptByUndo(s: System, act: ControlAct)
    requires FlagInv(s) && IsUndo(act) && UndoEnabled(s, act)
    ensures FlagInv(ApplyUndo(s, act))
  {
  }

  lemma LockKeptByControl(s: System, act: ControlAct)
    requires LockInv(s) && ControlEnabled(s, act)
    ensures LockInv(ApplyControl(s, act))
  {
  }

  lemma ConfigKeptByControl(s: System, act: ControlAct)
    requires ConfigInv(s) && FlagInv(s) && ControlEnabled(s, act)
    ensures ConfigInv(ApplyControl(s, act))
  {
    if IsInit(act) {
      ConfigKeptByInit(s, act);
    } else if IsStart(act) {
      ConfigKeptByStart(s, act);
    } else if IsStop(act) {
      ConfigKeptByStop(s, act);
    } else {
      ConfigKeptByUndo(s, act);
    }
  }

  lemma ConfigKeptByInit(s: System, act: ControlAct)
    requires ConfigInv(s) && FlagInv(s) && IsInit(act) && InitEnabled(s, act)
    ensures ConfigInv(ApplyInit(s, act))
  {
  }

  lemma ConfigKeptByStart(s: System, act: ControlAct)
    requires ConfigInv(s) && FlagInv(s) && IsStart(act) && StartEnabled(s, act)
    ensures ConfigInv(ApplyStart(s, act))
  {
  }

  lemma ConfigKeptByStop(s: System, act: ControlAct)
    requires ConfigInv(s) && FlagInv(s) && IsStop(act) && StopEnabled(s, act)
    ensures ConfigInv(ApplyStop(s, act))
  {
  }

  lemma ConfigKeptByUndo(s: System, act: ControlAct)
    requires ConfigInv(s) && FlagInv(s) && IsUndo(act) && UndoEnabled(s, act)
    ensures ConfigInv(ApplyUndo(s, act))
  {
  }

  lemma FlagsKeptByControl(s: System, act: ControlAct)
    requires FlagInv(s) && ConfigInv(s) && ControlEnabled(s, act)
    ensures FlagInv(ApplyControl(s, act))
  {
    if IsInit(act) {
      FlagsKeptByInit(s, act);
    } else if IsStart(act) {
      FlagsKeptByStart(s, act);
    } else if IsStop(act) {
      FlagsKeptByStop(s, act);
    } else {
      FlagsKeptByUndo(s, act);
    }
  }

  lemma FlagsKeptByWorker(s: System, t: System)
    requires FlagInv(s) && ConfigInv(s) && LockInv(s) && WorkerFrame(s, t)
    ensures FlagInv(t) && ConfigInv(t) && LockInv(t)
  {
  }

  // ---------------------------------------------------------------- generations

  ghost predicate ProducerGeneration(s: System, pc: ProducerPc) {
    && (pc.Passed? ==> pc.record.lifecycle == s.lifecycle)
    && (pc.Captured? || pc.Blocked? ==>
          && pc.record.lifecycle == pc.generation <= s.queue.generation
          && (Starting(s.control) ==> pc.generation < s.queue.generation))
  }

  /** A record carries the life cycle it was checked in, its call carries the same number as the
      queue's generation, and the queue accepts only records of its own generation. */
  ghost predicate GenerationInv(s: System) {
    && s.queue.generation == s.lifecycle + (if s.control.InitInstalling? then 1 else 0)
    && (forall p | 0 <= p < |s.producers| :: ProducerGeneration(s, s.producers[p].pc))
    && (forall r | r in s.queue.history.accepted :: r.lifecycle == s.queue.generation)
    && (Starting(s.control) ==> s.queue.history.accepted == [])
  }

  lemma GenerationsKeptByProducer(s: System, t: System, p: nat)
    requires GenerationInv(s) && LockInv(s) && ProducerMoved(s, t, p)
    ensures GenerationInv(t)
  {
    assert ProducerGeneration(s, s.producers[p].pc);
    assert ProducerGeneration(t, t.producers[p].pc);
    forall i | 0 <= i < |t.producers| ensures ProducerGeneration(t, t.producers[i].pc) {
      assert ProducerGeneration(s, s.producers[i].pc);
    }
  }

  lemma GenerationsKeptByQuiet(s: System, t: System)
    requires GenerationInv(s) && Quiet(s, t)
    ensures GenerationInv(t)
  {
    forall i | 0 <= i < |t.producers| ensures ProducerGeneration(t, t.producers[i].pc) {
      assert ProducerGeneration(s, s.producers[i].pc);
    }
  }

  lemma GenerationsKeptByStart(s: System, act: ControlAct)
    requires GenerationInv(s) && LockInv(s) && IsStart(act) && StartEnabled(s, act)
    ensures GenerationInv(ApplyStart(s, act))
  {
    var t := ApplyStart(s, act);
    forall i | 0 <= i < |t.producers| ensures ProducerGeneration(t, t.producers[i].pc) {
      assert ProducerGeneration(s, s.producers[i].pc) && !HoldsShared(s.producers[i]);
    }
  }

  lemma GenerationsKeptByControl(s: System, act: ControlAct)
    requires GenerationInv(s) && LockInv(s) && ControlEnabled(s, act)
    ensures GenerationInv(ApplyControl(s, act))
  {
    if IsStart(act) {
      GenerationsKeptByStart(s, act);
    } else {
      ControlIsQuiet(s, act);
      GenerationsKeptByQuiet(s, ApplyControl(s, act));
    }
  }

  lemma GenerationsKeptByWorker(s: System, t: System)
    requires GenerationInv(s) && WorkerFrame(s, t)
    ensures GenerationInv(t)
  {
    forall i | 0 <= i < |t.producers| ensures ProducerGeneration(t, t.producers[i].pc) {
      assert ProducerGeneration(s, s.producers[i].pc);
    }
  }

  // ---------------------------------------------------------------- per-producer order

  ghost predicate Ordered(records: seq<Record>) {
    forall i, j | 0 <= i < j < |records| && records[i].producer == records[j].producer ::
      records[i].number < records[j].number
  }

  /** The record a call is about to push bears its own caller and number. */
  ghost predicate OwnRecord(me: Producer, p: nat) {
    me.pc.Passed? || me.pc.Captured? || me.pc.Blocked? ==>
      me.pc.record.producer == p && me.pc.record.number == me.calls
  }

  /** An accepted record is older than the call its producer is making now. */
  ghost predicate Older(producers: seq<Producer>, r: Record) {
    && r.producer < |producers|
    && var me := producers[r.producer];
       if me.pc.Outside? then r.number <= me.calls else r.number < me.calls
  }

  ghost predicate OrderInv(s: System) {
    && (forall p | 0 <= p < |s.producers| :: OwnRecord(s.producers[p], p))
    && (forall r | r in s.queue.history.accepted :: Older(s.producers, r))
    && Ordered(s.queue.history.accepted)
  }

  lemma OrderKeptByProducer(s: System, t: System, p: nat)
    requires OrderInv(s) && ProducerMoved(s, t, p)
    ensures OrderInv(t)
  {
    var before, after := s.queue.history.accepted, t.queue.history.accepted;
    assert OwnRecord(s.producers[p], p);
    forall i | 0 <= i < |t.producers| ensures OwnRecord(t.producers[i], i) {
      assert OwnRecord(s.producers[i], i);
    }
    forall r | r in after ensures Older(t.producers, r) {
      if r in before {
        assert Older(s.producers, r);
      }
    }
    forall i | 0 <= i < |before| ensures Older(s.producers, before[i]) {
      assert before[i] in before;
    }
  }

  lemma OrderKeptByStart(s: System, act: ControlAct)
    requires OrderInv(s) && IsStart(act) && StartEnabled(s, act)
    ensures OrderInv(ApplyStart(s, act))
  {
  }

  lemma OrderKeptByControl(s: System, act: ControlAct)
    requires OrderInv(s) && ControlEnabled(s, act)
    ensures OrderInv(ApplyControl(s, act))
  {
    if IsStart(act) {
      OrderKeptByStart(s, act);
    } else {
      ControlIsQuiet(s, act);
    }
  }

  lemma OrderKeptByWorker(s: System, t: System)
    requires OrderInv(s) && WorkerFrame(s, t)
    ensures OrderInv(t)
  {
  }

  // ---------------------------------------------------------------- what the sinks have received

  /** Every sink has exactly what consumers have taken off the queue. */
  ghost predicate Agree(q: State<Record>, logs: seq<Log>)
    requires Conserved(q)
  {
    forall j | 0 <= j < |logs| :: Delivered(logs[j]) == PoppedValues(q)
  }

  /** The same, except that the sinks from `first` on have yet to be given the batch. */
  ghost predicate Lagging(q: State<Record>, logs: seq<Log>, batch: seq<Record>, first: nat)
    requires Conserved(q)
  {
    && (forall j | 0 <= j < |logs| && j < first :: Delivered(logs[j]) == PoppedValues(q))
    && (forall j | 0 <= j < |logs| && first <= j :: Delivered(logs[j]) + batch == PoppedValues(q))
  }

  /** In any failure: no sink is ahead of an earlier one, and none misses more than the batch. */
  ghost predicate Spread(q: State<Record>, logs: seq<Log>, batch: seq<Record>)
    requires Conserved(q)
  {
    && (forall j | 0 <= j < |logs| :: Delivered(logs[j]) <= PoppedValues(q))
    && (forall j | 0 <= j < |logs| :: |PoppedValues(q)| <= |Delivered(logs[j])| + |batch|)
    && (forall i, j | 0 <= i < j < |logs| :: |Delivered(logs[j])| <= |Delivered(logs[i])|)
  }

  ghost predicate DataOk(q: State<Record>, logs: seq<Log>, batch: seq<Record>, w: Worker, failed: bool)
    requires Conserved(q)
  {
    match w
    case Formatting => Lagging(q, logs, batch, 0)
    case Writing(i) => i <= |logs| && Lagging(q, logs, batch, i)
    case _ => if failed then Spread(q, logs, batch) else Agree(q, logs)
  }

  /** The batch is what was popped last. */
  ghost predicate PoppedLast(q: State<Record>, batch: seq<Record>)
    requires Conserved(q)
  {
    var popped := PoppedValues(q);
    |batch| <= |popped| && popped[|popped| - |batch|..] == batch
  }

  ghost predicate DataInv(s: System) {
    && Conserved(s.queue)
    && DataOk(s.queue, s.sinks, s.batch, s.worker, s.failed)
    && (s.sinks != [] ==> PoppedLast(s.queue, s.batch))
  }

  lemma DeliveredSnoc(log: Log, event: SinkEvent)
    ensures Delivered(log + [event]) == Delivered(log) + Payload(event)
  {
    assert (log + [event])[..|log|] == log;
  }

  /** Flushing and closing hand nothing over. */
  lemma SilentEvents(sinks: seq<Log>, failing: Option<nat>)
    ensures forall j | 0 <= j < |sinks| ::
              && Delivered(FlushSinks(sinks, failing)[j]) == Delivered(sinks[j])
              && Delivered(EachSink(sinks, CloseSink)[j]) == Delivered(sinks[j])
  {
    forall j | 0 <= j < |sinks|
      ensures Delivered(FlushSinks(sinks, failing)[j]) == Delivered(sinks[j])
      ensures Delivered(EachSink(sinks, CloseSink)[j]) == Delivered(sinks[j])
    {
      DeliveredSnoc(sinks[j], Flush);
      DeliveredSnoc(sinks[j], FlushFailed);
      DeliveredSnoc(sinks[j], CloseSink);
    }
  }

  /** What sinks hold depends on their deliveries alone, and queues count by what was popped. */
  lemma DataCarries(q: State<Record>, q': State<Record>, logs: seq<Log>, logs': seq<Log>, batch: seq<Record>,
                    w: Worker, failed: bool)
    requires Conserved(q) && Conserved(q') && PoppedValues(q) == PoppedValues(q')
    requires |logs| == |logs'| && forall j | 0 <= j < |logs| :: Delivered(logs'[j]) == Delivered(logs[j])
    requires DataOk(q, logs, batch, w, failed)
    ensures DataOk(q', logs', batch, w, failed)
  {
  }

  lemma AgreeSpreads(q: State<Record>, logs: seq<Log>, batch: seq<Record>)
    requires Conserved(q) && Agree(q, logs)
    ensures Spread(q, logs, batch)
  {
  }

  lemma LaggingSpreads(q: State<Record>, logs: seq<Log>, batch: seq<Record>, first: nat)
    requires Conserved(q) && Lagging(q, logs, batch, first)
    ensures Spread(q, logs, batch)
  {
  }

  lemma DataKeptByProducer(s: System, t: System, p: nat)
    requires DataInv(s) && ProducerMoved(s, t, p)
    ensures DataInv(t)
  {
    DataCarries(s.queue, t.queue, s.sinks, t.sinks, s.batch, s.worker, s.failed);
  }

  lemma DataKeptByControl(s: System, act: ControlAct)
    requires DataInv(s) && FlagInv(s) && GenerationInv(s) && ControlEnabled(s, act)
    ensures DataInv(ApplyControl(s, act))
  {
    var t := ApplyControl(s, act);
    if act.StopCloseSinks? || act.InitCloseSinks? || act.UndoCloseSinks? {
      SilentEvents(s.sinks, None);
      DataCarries(s.queue, t.queue, s.sinks, t.sinks, s.batch, s.worker, s.failed);
    } else if act.InitReset? || act.InitInstall? || act.StopClear? || act.InitClear? || act.UndoClear? {
      FreshDataOk(s, act);
    } else {
      SettledDataOk(s, act);
    }
  }

  lemma FreshDataOk(s: System, act: ControlAct)
    requires DataInv(s) && FlagInv(s) && GenerationInv(s) && ControlEnabled(s, act)
    requires act.InitReset? || act.InitInstall? || act.StopClear? || act.InitClear? || act.UndoClear?
    ensures DataInv(ApplyControl(s, act))
  {
    var t := ApplyControl(s, act);
    if act.InitInstall? {
      assert PoppedValues(t.queue) == [];
    } else {
      assert t.sinks == [];
    }
  }

  /** The steps of init and stop that touch neither the sinks nor the history. */
  predicate Settled(act: ControlAct) {
    && !act.StopCloseSinks? && !act.InitCloseSinks? && !act.UndoCloseSinks?
    && !act.InitReset? && !act.InitInstall? && !act.StopClear? && !act.InitClear? && !act.UndoClear?
  }

  lemma SettledFrame(s: System, act: ControlAct)
    requires FlagInv(s) && ControlEnabled(s, act) && Settled(act)
    ensures var t := ApplyControl(s, act);
            && t.sinks == s.sinks && t.batch == s.batch
            && (t.queue == s.queue || t.queue == Close(s.queue))
            && (t.worker == s.worker || t.worker.Absent? || t.worker.Polling?)
            && (t.worker != s.worker ==> !s.worker.Formatting? && !s.worker.Writing? && t.failed == s.failed)
            && (t.failed != s.failed ==> t.failed && s.worker.Absent?)
            && (t.failed == s.failed || t.worker == s.worker)
  {
  }

  lemma SettledDataOk(s: System, act: ControlAct)
    requires DataInv(s) && FlagInv(s) && ControlEnabled(s, act) && Settled(act)
    ensures DataInv(ApplyControl(s, act))
  {
    SettledFrame(s, act);
    var t := ApplyControl(s, act);
    if t.failed != s.failed {
      AgreeSpreads(s.queue, s.sinks, s.batch);
    }
    DataCarries(s.queue, t.queue, s.sinks, t.sinks, s.batch, t.worker, t.failed);
  }

  lemma DataKeptByFlush(s: System, t: System, next: Worker, handler: Worker)
    requires DataInv(s) && FlushedTo(s, t, next, handler)
    requires !s.worker.Formatting? && (s.worker.Writing? ==> s.worker.sink >= |s.sinks|)
    requires !next.Formatting? && !next.Writing? && !handler.Formatting? && !handler.Writing?
    ensures DataInv(t)
  {
    var failing :| FailingIndex(s.sinks, failing) && t == Flushed(s, failing, next, handler);
    SilentEvents(s.sinks, failing);
    if s.worker.Writing? || !s.failed {
      AgreeSpreads(s.queue, s.sinks, s.batch);
    }
    DataCarries(s.queue, t.queue, s.sinks, t.sinks, s.batch, t.worker, t.failed);
  }

  lemma DataKeptByWrite(s: System)
    requires DataInv(s) && s.worker.Writing? && s.worker.sink < |s.sinks|
    ensures var i := s.worker.sink;
            DataInv(s.(sinks := s.sinks[i := s.sinks[i] + [Write(s.batch)]], worker := Writing(i + 1)))
  {
    DeliveredSnoc(s.sinks[s.worker.sink], Write(s.batch));
  }

  lemma SplitAppend<X>(a: seq<X>, b: seq<X>, k: nat)
    requires k <= |b|
    ensures a + b == (a + b[..k]) + b[k..]
  {
  }

  lemma PartSpreads(q: State<Record>, logs: seq<Log>, batch: seq<Record>, i: nat, log: Log, k: nat)
    requires Conserved(q) && i < |logs| && k <= |batch| && Lagging(q, logs, batch, i)
    requires Delivered(log) == Delivered(logs[i]) + batch[..k]
    ensures Spread(q, logs[i := log], batch)
  {
    SplitAppend(Delivered(logs[i]), batch, k);
    assert PoppedValues(q) == Delivered(log) + batch[k..];
    LaggingSpreads(q, logs, batch, i);
  }

  lemma DataKeptByPartialWrite(s: System, k: nat)
    requires DataInv(s) && s.worker.Writing? && s.worker.sink < |s.sinks| && k <= |s.batch|
    ensures DataInv(WroteInPart(s, s.worker.sink, k))
  {
    var i := s.worker.sink;
    DeliveredSnoc(s.sinks[i], WriteFailed(s.batch[..k]));
    PartSpreads(s.queue, s.sinks, s.batch, i, s.sinks[i] + [WriteFailed(s.batch[..k])], k);
  }

  lemma DataKeptByPoll(s: System, t: System)
    requires DataInv(s) && FlagInv(s) && WorkerMoved(s, t) && s.worker.Polling?
    ensures DataInv(t)
  {
  }

  lemma DataKeptByAnyWrite(s: System, t: System)
    requires DataInv(s) && WorkerMoved(s, t) && s.worker.Writing? && s.worker.sink < |s.sinks|
    ensures DataInv(t)
  {
    if t.worker.Writing? {
      DataKeptByWrite(s);
    } else {
      var k :| 0 <= k <= |s.batch| && t == WroteInPart(s, s.worker.sink, k);
      DataKeptByPartialWrite(s, k);
    }
  }

  lemma DataKeptByFormat(s: System, t: System)
    requires DataInv(s) && WorkerMoved(s, t) && s.worker.Formatting?
    ensures DataInv(t)
  {
    LaggingSpreads(s.queue, s.sinks, s.batch, 0);
  }

  predicate TouchesNoSink(w: Worker) {
    w.TestingClosed? || w.FailFlagging? || w.FailClosing? || w.LateFlagging? || w.LateClosing?
  }

  lemma DataKeptByQuietStep(s: System, t: System)
    requires DataInv(s) && WorkerMoved(s, t) && TouchesNoSink(s.worker)
    ensures DataInv(t)
  {
    DataCarries(s.queue, t.queue, s.sinks, t.sinks, s.batch, t.worker, t.failed);
  }

  lemma DataKeptByWorker(s: System, t: System)
    requires DataInv(s) && FlagInv(s) && WorkerMoved(s, t)
    ensures DataInv(t)
  {
    if s.worker.Polling? {
      DataKeptByPoll(s, t);
    } else if s.worker.Missed? {
      if t != s.(worker := TestingClosed) {
        DataKeptByFlush(s, t, TestingClosed, FailFlagging);
      }
    } else if s.worker.Formatting? {
      DataKeptByFormat(s, t);
    } else if s.worker.Writing? {
      if s.worker.sink < |s.sinks| {
        DataKeptByAnyWrite(s, t);
      } else if t != s.(worker := Polling) {
        DataKeptByFlush(s, t, Polling, FailFlagging);
      }
    } else if s.worker.FinalFlushing? {
      DataKeptByFlush(s, t, Exited, LateFlagging);
    } else {
      DataKeptByQuietStep(s, t);
    }
  }

  /** In every state, failed or not, the sinks are within one batch of each other. */
  lemma DataSpreads(s: System)
    requires DataInv(s)
    ensures Spread(s.queue, s.sinks, s.batch)
  {
    match s.worker
    case Formatting => LaggingSpreads(s.queue, s.sinks, s.batch, 0);
    case Writing(i) => LaggingSpreads(s.queue, s.sinks, s.batch, i);
    case _ => if !s.failed { AgreeSpreads(s.queue, s.sinks, s.batch); }
  }

  // ---------------------------------------------------------------- how a sink's log ends

  ghost predicate NeverClosed(log: Log) {
    CloseSink !in log
  }

  ghost predicate EndsFlushed(log: Log) {
    log != [] && log[|log| - 1] == Flush
  }

  /** The log up to its close, when it has been closed. */
  function Open(log: Log, closed: bool): Log {
    if closed && log != [] then log[..|log| - 1] else log
  }

  ghost predicate LogOk(log: Log, closed: bool, flushed: bool) {
    && (closed ==> log != [] && log[|log| - 1] == CloseSink)
    && NeverClosed(Open(log, closed))
    && (flushed ==> EndsFlushed(Open(log, closed)))
  }

  ghost predicate LogsOk(sinks: seq<Log>, closed: bool, flushed: bool) {
    forall j | 0 <= j < |sinks| :: LogOk(sinks[j], closed, flushed)
  }

  ghost predicate LogInv(s: System) {
    LogsOk(s.sinks, SinksClosed(s.control), !s.failed && (s.worker.Exited? || Retiring(s.control)))
  }

  lemma ClosingLogs(sinks: seq<Log>, flushed: bool)
    requires LogsOk(sinks, false, flushed)
    ensures LogsOk(EachSink(sinks, CloseSink), true, flushed)
  {
    forall j | 0 <= j < |sinks| ensures LogOk(sinks[j] + [CloseSink], true, flushed) {
      assert LogOk(sinks[j], false, flushed);
      assert (sinks[j] + [CloseSink])[..|sinks[j]|] == sinks[j];
    }
  }

  lemma LogKeptByStop(s: System, act: ControlAct)
    requires LogInv(s) && FlagInv(s) && IsStop(act) && StopEnabled(s, act)
    ensures LogInv(ApplyStop(s, act))
  {
    if act.StopCloseSinks? {
      ClosingLogs(s.sinks, !s.failed);
    }
  }

  lemma LogKeptByInit(s: System, act: ControlAct)
    requires LogInv(s) && FlagInv(s) && IsInit(act) && InitEnabled(s, act)
    ensures LogInv(ApplyInit(s, act))
  {
    if act.InitCloseSinks? {
      ClosingLogs(s.sinks, !s.failed);
    }
  }

  lemma LogKeptByStart(s: System, act: ControlAct)
    requires LogInv(s) && FlagInv(s) && IsStart(act) && StartEnabled(s, act)
    ensures LogInv(ApplyStart(s, act))
  {
  }

  lemma LogKeptByUndo(s: System, act: ControlAct)
    requires LogInv(s) && FlagInv(s) && IsUndo(act) && UndoEnabled(s, act)
    ensures LogInv(ApplyUndo(s, act))
  {
    if act.UndoCloseSinks? {
      ClosingLogs(s.sinks, !s.failed && s.worker.Exited?);
    }
  }

  lemma LogKeptByControl(s: System, act: ControlAct)
    requires LogInv(s) && FlagInv(s) && ControlEnabled(s, act)
    ensures LogInv(ApplyControl(s, act))
  {
    if IsStop(act) {
      LogKeptByStop(s, act);
    } else if IsInit(act) {
      LogKeptByInit(s, act);
    } else if IsStart(act) {
      LogKeptByStart(s, act);
    } else {
      LogKeptByUndo(s, act);
    }
  }

  lemma LogKeptByWorker(s: System, t: System)
    requires LogInv(s) && FlagInv(s) && WorkerMoved(s, t) && WorkerFrame(s, t)
    ensures LogInv(t)
  {
    forall j | 0 <= j < |t.sinks|
      ensures LogOk(t.sinks[j], SinksClosed(t.control), !t.failed && (t.worker.Exited? || Retiring(t.control)))
    {
      assert LogOk(s.sinks[j], false, false);
      if t.worker.Exited? && !t.failed {
        var failing :| FailingIndex(s.sinks, failing) && t == Flushed(s, failing, Exited, LateFlagging);
        assert failing.None?;
      }
    }
  }

  // ---------------------------------------------------------------- what a false return leaves behind

  /** Since popBatchFor last timed out nothing was popped: what has left since was evicted. */
  ghost predicate OnlyEvictedSince(q: State<Record>, lastMiss: nat) {
    && lastMiss <= |q.history.fates|
    && (forall i | lastMiss <= i < |q.history.fates| :: q.history.fates[i] == Evicted)
  }

  ghost predicate MissOk(q: State<Record>, policy: FlushPolicy, lastMiss: nat) {
    (q.closed && q.items == []) || (policy == Periodic && OnlyEvictedSince(q, lastMiss))
  }

  ghost predicate MissInv(s: System) {
    && (s.sinks != [] ==> s.lastMiss <= |s.queue.history.accepted|)
    && (!s.failed && s.sinks != []
        && (s.worker.Missed? || s.worker.TestingClosed? || Ending(s.worker) || Retiring(s.control)) ==>
          MissOk(s.queue, s.config.flushPolicy, s.lastMiss))
  }

  lemma MissKeptByProducer(s: System, t: System, p: nat)
    requires MissInv(s) && ProducerMoved(s, t, p)
    ensures MissInv(t)
  {
  }

  lemma MissKeptByStop(s: System, act: ControlAct)
    requires MissInv(s) && FlagInv(s) && IsStop(act) && StopEnabled(s, act)
    ensures MissInv(ApplyStop(s, act))
  {
  }

  lemma MissKeptByInit(s: System, act: ControlAct)
    requires MissInv(s) && FlagInv(s) && IsInit(act) && InitEnabled(s, act)
    ensures MissInv(ApplyInit(s, act))
  {
  }

  lemma MissKeptByStart(s: System, act: ControlAct)
    requires MissInv(s) && FlagInv(s) && IsStart(act) && StartEnabled(s, act)
    ensures MissInv(ApplyStart(s, act))
  {
  }

  lemma MissKeptByUndo(s: System, act: ControlAct)
    requires MissInv(s) && FlagInv(s) && IsUndo(act) && UndoEnabled(s, act)
    ensures MissInv(ApplyUndo(s, act))
  {
  }

  lemma MissKeptByControl(s: System, act: ControlAct)
    requires MissInv(s) && FlagInv(s) && ControlEnabled(s, act)
    ensures MissInv(ApplyControl(s, act))
  {
    if IsStop(act) {
      MissKeptByStop(s, act);
    } else if IsInit(act) {
      MissKeptByInit(s, act);
    } else if IsStart(act) {
      MissKeptByStart(s, act);
    } else {
      MissKeptByUndo(s, act);
    }
  }

  lemma MissKeptByWorker(s: System, t: System)
    requires MissInv(s) && FlagInv(s) && ConfigInv(s) && WorkerMoved(s, t)
    ensures MissInv(t)
  {
    if s.worker.Polling? && s.queue.items == [] {
      assert |s.queue.history.accepted[|s.queue.history.fates|..]| == 0;
    }
  }

  // ---------------------------------------------------------------- ended life cycles

  lemma {:induction false} PoppedAreAccepted(accepted: seq<Record>, fates: seq<Fate>)
    requires |fates| <= |accepted| && Ordered(accepted)
    ensures forall r | r in PoppedOf(accepted, fates) :: r in accepted[..|fates|]
    ensures Ordered(PoppedOf(accepted, fates))
  {
    if fates != [] {
      var last := |fates| - 1;
      PoppedAreAccepted(accepted, fates[..last]);
      var before := PoppedOf(accepted, fates[..last]);
      assert accepted[..last + 1] == accepted[..last] + [accepted[last]];
      forall i | 0 <= i < |before| && before[i].producer == accepted[last].producer
        ensures before[i].number < accepted[last].number
      {
        assert before[i] in accepted[..last];
      }
    }
  }

  /** All that is ever known of a life cycle once its sinks have been dropped. */
  ghost predicate EndedOk(e: Ended) {
    && Ledger(e.queue) && e.queue.closed
    && ValidConfig(e.config) && |e.logs| == SinkCount(e.config)
    && (forall r | r in e.queue.history.accepted :: r.lifecycle == e.lifecycle)
    && Ordered(e.queue.history.accepted)
    && Spread(e.queue, e.logs, e.batch)
    && (forall j | 0 <= j < |e.logs| :: LogOk(e.logs[j], true, !e.failed))
    && (!e.failed ==> Agree(e.queue, e.logs) && MissOk(e.queue, e.config.flushPolicy, e.lastMiss))
  }

  ghost predicate ArchiveInv(s: System) {
    forall e | e in s.archive :: EndedOk(e)
  }

  ghost predicate Inv(s: System) {
    && Ledger(s.queue)
    && ConfigInv(s) && LockInv(s) && FlagInv(s)
    && GenerationInv(s) && OrderInv(s)
    && DataInv(s) && LogInv(s) && MissInv(s)
    && ArchiveInv(s)
  }

  lemma ArchivingKeepsOk(s: System)
    requires Inv(s) && SinksClosed(s.control)
    ensures ArchiveInv(Archived(s))
  {
    if s.sinks != [] {
      DataSpreads(s);
      var e := Ended(s.config, s.lifecycle, s.sinks, s.queue, s.batch, s.failed, s.lastMiss);
      forall j | 0 <= j < |e.logs| ensures LogOk(e.logs[j], true, !e.failed) {
        assert LogOk(s.sinks[j], true, !s.failed && (s.worker.Exited? || Retiring(s.control)));
      }
      assert EndedOk(e);
    }
  }
}
