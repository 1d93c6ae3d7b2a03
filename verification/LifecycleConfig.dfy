/** Configurations: which ones come into force, that the queue obeys the one that is, and what init and
    stop have done when they return. */
module LifecycleConfig {
  import opened QueueSpec
  import opened Lifecycle
  import opened LifecycleSafety
  import opened LifecycleTheorems
  import opened LifecycleLevels

  // ---------------------------------------------------------------- the queue obeys the configuration

  ghost predicate Obeys(q: State<Record>, config: Config) {
    q.policy == config.overflowPolicy && q.capacity == config.queueCapacity
  }

  /** Nothing has been done to new sinks before the worker starts. */
  ghost predicate FreshSinks(s: System) {
    s.control.InitStarting? || s.control.InitSpawning? ==> forall j | 0 <= j < |s.sinks| :: s.sinks[j] == []
  }

  ghost predicate ConfiguredInv(s: System) {
    && ByPolicy(s.queue) && FreshSinks(s)
    && (s.sinks != [] ==> Obeys(s.queue, s.config))
    && (s.control.InitInstalling? ==> Obeys(s.queue, s.control.config))
    && (forall e | e in s.archive :: ByPolicy(e.queue) && Obeys(e.queue, e.config))
  }

  lemma ConfiguredKeptByProducer(s: System, p: nat, act: ProducerAct)
    requires ConfiguredInv(s) && ProducerEnabled(s, p, act)
    ensures ConfiguredInv(ApplyProducer(s, p, act))
  {
    CallsOnlyPush(s, p, act);
    var pc := s.producers[p].pc;
    if act.Submit? || act.Resubmit? {
      PushByPolicy(s.queue, pc.generation, pc.record);
      PushKeepsSettings(s.queue, pc.generation, pc.record);
    }
  }

  lemma PushKeepsSettings(q: State<Record>, generation: nat, record: Record)
    ensures var t := PushEnter(q, generation, record).0; t.policy == q.policy && t.capacity == q.capacity
    ensures var t := PushResume(q, generation, record).0; t.policy == q.policy && t.capacity == q.capacity
  {
  }

  lemma CallsOnlyPush(s: System, p: nat, act: ProducerAct)
    requires ProducerEnabled(s, p, act)
    ensures var t := ApplyProducer(s, p, act);
            && t == s.(queue := t.queue, producers := t.producers)
            && (act.Submit? ==>
                  t.queue == PushEnter(s.queue, s.producers[p].pc.generation, s.producers[p].pc.record).0)
            && (act.Resubmit? ==>
                  t.queue == PushResume(s.queue, s.producers[p].pc.generation, s.producers[p].pc.record).0)
            && (!act.Submit? && !act.Resubmit? ==> t.queue == s.queue)
  {
  }

  lemma ConfiguredKeptByStart(s: System, act: ControlAct)
    requires ConfigInv(s) && FlagInv(s) && ConfiguredInv(s) && IsStart(act) && StartEnabled(s, act)
    ensures ConfiguredInv(ApplyStart(s, act))
  {
  }

  lemma ConfiguredKeptByQuiet(s: System, t: System)
    requires ConfiguredInv(s) && Quiet(s, t) && Archives(s, t)
    ensures ConfiguredInv(t)
  {
    assert t.archive == s.archive + t.archive[|s.archive|..];
  }

  /** The queue and configuration of a life cycle go on record with its sinks. */
  ghost predicate Archives(s: System, t: System) {
    || (t.archive == s.archive && |t.sinks| == |s.sinks|)
    || (s.sinks != [] && t.sinks == [] && |t.archive| == |s.archive| + 1 && t.archive[..|s.archive|] == s.archive
        && t.archive[|s.archive|].queue == s.queue && t.archive[|s.archive|].config == s.config)
  }

  lemma ControlArchives(s: System, act: ControlAct)
    requires ControlEnabled(s, act) && !IsStart(act)
    ensures Archives(s, ApplyControl(s, act))
  {
  }

  lemma ConfiguredKeptByWorker(s: System, act: WorkerAct)
    requires Conserved(s.queue) && s.config.writeBatchSize > 0 && FlagInv(s)
    requires ConfiguredInv(s) && WorkerEnabled(s, act)
    ensures ConfiguredInv(ApplyWorker(s, act))
  {
    WorkerStep(s, act);
    WorkerMovedHasFrame(s, ApplyWorker(s, act));
    if act.Poll? {
      TakeByPolicy(s.queue, s.config.writeBatchSize);
      TakeSplits(s.queue, s.config.writeBatchSize);
    } else {
      OnlyPollsTouch(s, act);
    }
  }

  lemma OnlyPollsTouch(s: System, act: WorkerAct)
    requires WorkerEnabled(s, act) && !act.Poll?
    ensures ApplyWorker(s, act).queue == s.queue || ApplyWorker(s, act).queue == Close(s.queue)
  {
  }

  lemma StepKeepsConfigured(s: System, a: Action)
    requires Conserved(s.queue) && s.config.writeBatchSize > 0 && ConfigInv(s) && FlagInv(s)
    requires ConfiguredInv(s) && Enabled(s, a)
    ensures ConfiguredInv(Apply(s, a))
  {
    match a
    case ByProducer(p, act) => ConfiguredKeptByProducer(s, p, act);
    case ByControl(act) =>
      if IsStart(act) {
        ConfiguredKeptByStart(s, act);
      } else {
        ControlIsQuiet(s, act);
        ControlArchives(s, act);
        ConfiguredKeptByQuiet(s, ApplyControl(s, act));
      }
    case ByWorker(act) => ConfiguredKeptByWorker(s, act);
    case SetLevel(_) =>
  }

  lemma {:induction false} RunKeepsConfigured(s: System, trace: seq<Action>)
    requires Inv(s) && Runs(s, trace) && ConfiguredInv(s)
    ensures ConfiguredInv(After(s, trace))
    decreases |trace|
  {
    if trace != [] {
      StepKeepsConfigured(s, trace[0]);
      ApplyKeepsInv(s, trace[0]);
      RunKeepsConfigured(Apply(s, trace[0]), trace[1..]);
    }
  }

  lemma ConfiguredAlways(count: nat, trace: seq<Action>)
    requires Runs(Start(count), trace)
    ensures Inv(After(Start(count), trace)) && ConfiguredInv(After(Start(count), trace))
  {
    StartHasInv(count);
    RunKeepsInv(Start(count), trace);
    RunKeepsConfigured(Start(count), trace);
  }

  /** As long as sinks are installed, the configuration is the one of the latest init() to install any,
      and the queue has the capacity and the overflow policy it asks for; and so it had in every life
      cycle that ended. */
  lemma QueueObeysConfiguration(count: nat, trace: seq<Action>)
    requires Runs(Start(count), trace)
    ensures var s := After(Start(count), trace);
            && s.config == Wished(trace).installed
            && (s.sinks != [] ==>
                  s.queue.policy == s.config.overflowPolicy && s.queue.capacity == s.config.queueCapacity)
            && (forall e | e in s.archive ::
                  e.queue.policy == e.config.overflowPolicy && e.queue.capacity == e.config.queueCapacity)
  {
    ConfiguredAlways(count, trace);
    RunGrants(Start(count), trace, []);
    assert [] + trace == trace;
  }

  /** What a life cycle that ended without failure did with the records submitted to it, by its
      configured overflow policy. Under Block each was delivered to every sink or left in the queue;
      under DropNewest, each that was taken in; under DropOldest all were taken in, and what is left is
      the end of them. Left behind is something only under Periodic. */
  lemma PolicyDecidesDelivery(count: nat, trace: seq<Action>, e: Ended, j: nat)
    requires Runs(Start(count), trace) && e in After(Start(count), trace).archive && !e.failed && j < |e.logs|
    ensures var h := e.queue.history;
            match e.config.overflowPolicy
            case Block => Delivered(e.logs[j]) + e.queue.items == h.submitted
            case DropNewest => Delivered(e.logs[j]) + e.queue.items == h.accepted
            case DropOldest =>
              && h.accepted == h.submitted && |e.queue.items| <= |h.submitted|
              && e.queue.items == h.submitted[|h.submitted| - |e.queue.items|..]
    ensures e.config.flushPolicy != Periodic ==> e.queue.items == []
  {
    ConfiguredAlways(count, trace);
    EndedByPolicy(e, j);
  }

  lemma EndedByPolicy(e: Ended, j: nat)
    requires EndedOk(e) && ByPolicy(e.queue) && Obeys(e.queue, e.config) && !e.failed && j < |e.logs|
    ensures var h := e.queue.history;
            match e.config.overflowPolicy
            case Block => Delivered(e.logs[j]) + e.queue.items == h.submitted
            case DropNewest => Delivered(e.logs[j]) + e.queue.items == h.accepted
            case DropOldest =>
              && h.accepted == h.submitted && |e.queue.items| <= |h.submitted|
              && e.queue.items == h.submitted[|h.submitted| - |e.queue.items|..]
    ensures e.config.flushPolicy != Periodic ==> e.queue.items == []
  {
    EndedDelivered(e, j);
    KeptByPolicy(e.queue);
  }

  lemma EndedDelivered(e: Ended, j: nat)
    requires EndedOk(e) && !e.failed && j < |e.logs|
    ensures Delivered(e.logs[j]) == PoppedValues(e.queue)
    ensures e.config.flushPolicy != Periodic ==> e.queue.items == []
  {
  }

  // ---------------------------------------------------------------- which configurations come into force

  ghost predicate ComesIntoForce(c: Config) {
    exists count, trace ::
      && Runs(Start(count), trace)
      && After(Start(count), trace).sinks != []
      && After(Start(count), trace).config == c
  }

  /** init() installs exactly the configurations that name a capacity, a batch size, levels between
      DEBUG and FATAL, an interval if the policy is Periodic, at least one sink, no null sink, and a
      path and a size if one of them is a file. */
  lemma WhatComesIntoForce(c: Config)
    ensures ComesIntoForce(c) <==>
              && c.queueCapacity > 0 && c.writeBatchSize > 0
              && 0 <= c.minLevel <= 4 && (c.flushAtOrAbove.None? || 0 <= c.flushAtOrAbove.value <= 4)
              && (c.flushPolicy == Periodic ==> c.flushInterval > 0)
              && (c.enableFileSink || c.enableConsoleSink || |c.additionalSinks| > 0)
              && (c.enableFileSink ==> c.maxFileSize > 0 && |c.basePath| > 0)
              && (forall i | 0 <= i < |c.additionalSinks| :: c.additionalSinks[i])
  {
    if ValidConfig(c) {
      ReachInitialized(c);
      var trace :| Runs(Start(1), trace) && After(Start(1), trace) == Initialized(c);
      assert Initialized(c).sinks != [] && Initialized(c).config == c;
    }
    if ComesIntoForce(c) {
      var count, trace :|
        && Runs(Start(count), trace)
        && After(Start(count), trace).sinks != []
        && After(Start(count), trace).config == c;
      InvAlways(count, trace);
    }
  }

  /** One sink for each that the configuration enables. */
  lemma SinksAsConfigured(count: nat, trace: seq<Action>)
    requires Runs(Start(count), trace)
    ensures var s := After(Start(count), trace);
            s.sinks == []
            || |s.sinks| == |s.config.additionalSinks| + (if s.config.enableFileSink then 1 else 0)
                            + (if s.config.enableConsoleSink then 1 else 0)
  {
    InvAlways(count, trace);
  }

  // ---------------------------------------------------------------- when init and stop return

  /** stop() returns with the logger stopped: not running, the queue closed, no worker and no sinks. */
  lemma StopReturnsStopped(count: nat, trace: seq<Action>)
    requires Runs(Start(count), trace) && StopEnabled(After(Start(count), trace), StopClear)
    ensures var t := ApplyStop(After(Start(count), trace), StopClear);
            t.control.Free? && !t.running && t.queue.closed && t.worker.Absent? && t.sinks == []
  {
    InvAlways(count, trace);
  }

  /** The last step of an init(). When it is the start of the worker, the logger runs under the
      configuration asked for, with an open and empty queue that nothing has gone through yet. When it
      is the refusal, nothing else has changed, and the logger was running or the configuration is not
      one that can come into force. When the sinks or the worker could not be made, the logger is
      stopped, without worker or sinks. */
  lemma InitReturns(count: nat, trace: seq<Action>, act: ControlAct)
    requires Runs(Start(count), trace) && ControlEnabled(After(Start(count), trace), act) && !IsStop(act)
    requires ApplyControl(After(Start(count), trace), act).control.Free?
    ensures var s := After(Start(count), trace);
            var t := ApplyControl(s, act);
            && act in {InitValidate, InitBuild(false), InitSpawn(true), UndoClear}
            && (act == InitSpawn(true) ==>
                  && t.running && t.worker.Polling? && !t.queue.closed
                  && t.queue.items == [] && t.queue.history.accepted == []
                  && t.config == Wished(trace).config)
            && (act == InitValidate ==>
                  t == s.(control := Free) && (s.running || !ComesIntoForce(Wished(trace).config)))
            && (act in {InitBuild(false), UndoClear} ==> !t.running && t.worker.Absent? && t.sinks == [])
  {
    InvAlways(count, trace);
    RunGrants(Start(count), trace, []);
    InstalledIsWished(Start(count), trace, []);
    assert [] + trace == trace;
    LastStepOfInit(After(Start(count), trace), act, Wished(trace));
  }

  lemma LastStepOfInit(s: System, act: ControlAct, wish: Wish)
    requires ConfigInv(s) && FlagInv(s) && GenerationInv(s) && Conserved(s.queue) && Granted(s, wish)
    requires s.control.InitSpawning? ==> wish.config == wish.installed
    requires ControlEnabled(s, act) && !IsStop(act) && ApplyControl(s, act).control.Free?
    ensures act in {InitValidate, InitBuild(false), InitSpawn(true), UndoClear}
    ensures var t := ApplyControl(s, act);
            && (act == InitSpawn(true) ==>
                  && t.running && t.worker.Polling? && !t.queue.closed
                  && t.queue.items == [] && t.queue.history.accepted == []
                  && t.config == wish.config)
            && (act == InitValidate ==> t == s.(control := Free) && (s.running || !ComesIntoForce(wish.config)))
            && (act in {InitBuild(false), UndoClear} ==> !t.running && t.worker.Absent? && t.sinks == [])
  {
    if act == InitValidate && !s.running {
      RefusedNeverInForce(s.control.config);
    }
  }

  lemma RefusedNeverInForce(c: Config)
    requires !ValidConfig(c)
    ensures !ComesIntoForce(c)
  {
    WhatComesIntoForce(c);
  }

  /** An init() whose sinks could not be made gives up there: the queue is not reset, and nothing else
      changes. */
  lemma FailedBuildGivesUp(count: nat, trace: seq<Action>)
    requires Runs(Start(count), trace) && After(Start(count), trace).control.InitBuilding?
    ensures var s := After(Start(count), trace);
            ApplyInit(s, InitBuild(false)) == s.(control := Free) && !s.running && s.worker.Absent? && s.sinks == []
  {
    InvAlways(count, trace);
  }

  /** The state in which the undoing of a start ends. */
  function Undone(s: System): System {
    Archived(s.(failed := true, running := false, queue := Close(s.queue),
                sinks := EachSink(s.sinks, CloseSink), control := UndoClearing)).(control := Free)
  }

  /** An init() whose worker could not be started undoes the start: the steps of init alone bring it to
      a state in which the logger is not running, the queue closed, and the new sinks have seen a close
      and nothing else. */
  lemma FailedStartIsUndone(count: nat, trace: seq<Action>)
    requires Runs(Start(count), trace) && After(Start(count), trace).control.InitSpawning?
    ensures CanReach(ApplyStart(After(Start(count), trace), InitSpawn(false)), Undone(After(Start(count), trace)))
    ensures var s := After(Start(count), trace);
            var t := Undone(s);
            && t.control.Free? && !t.running && t.queue.closed && t.worker.Absent? && t.sinks == []
            && |t.archive| == |s.archive| + 1
            && forall j | 0 <= j < |t.archive[|s.archive|].logs| :: t.archive[|s.archive|].logs[j] == [CloseSink]
  {
    ConfiguredAlways(count, trace);
    UndoSteps(After(Start(count), trace));
    UndoneIsStopped(After(Start(count), trace));
  }

  lemma UndoneIsStopped(s: System)
    requires ConfigInv(s) && FlagInv(s) && FreshSinks(s) && s.control.InitSpawning?
    ensures var t := Undone(s);
            && t.control.Free? && !t.running && t.queue.closed && t.worker.Absent? && t.sinks == []
            && |t.archive| == |s.archive| + 1
            && forall j | 0 <= j < |t.archive[|s.archive|].logs| :: t.archive[|s.archive|].logs[j] == [CloseSink]
  {
  }

  /** Half way: the queue is closed, the sinks are not. */
  function HalfUndone(s: System): System {
    s.(failed := true, running := false, queue := Close(s.queue), control := UndoDiscarding)
  }

  lemma FirstUndoSteps(s: System)
    requires s.control.InitSpawning?
    ensures CanReach(ApplyStart(s, InitSpawn(false)), HalfUndone(s))
  {
    var s1 := s.(failed := true, control := UndoFlagging);
    assert Runs(s1, []) && After(s1, []) == s1;
    ReachStep(s1, s1, ByControl(UndoFlag));
    ReachStep(s1, s1.(running := false, control := UndoClosing), ByControl(UndoClose));
  }

  lemma UndoSteps(s: System)
    requires s.control.InitSpawning?
    ensures CanReach(ApplyStart(s, InitSpawn(false)), Undone(s))
  {
    var s1, s3 := ApplyStart(s, InitSpawn(false)), HalfUndone(s);
    FirstUndoSteps(s);
    ReachStep(s1, s3, ByControl(UndoCloseSinks));
    ReachStep(s1, s3.(sinks := EachSink(s.sinks, CloseSink), control := UndoClearing), ByControl(UndoClear));
  }

  /** Between the installation and the start of the worker no other configuration is asked for. */
  lemma {:induction false} InstalledIsWished(s: System, trace: seq<Action>, before: seq<Action>)
    requires Runs(s, trace)
    requires s.control.InitStarting? || s.control.InitSpawning? ==> Wished(before).config == Wished(before).installed
    ensures var t := After(s, trace);
            t.control.InitStarting? || t.control.InitSpawning? ==>
              Wished(before + trace).config == Wished(before + trace).installed
    decreases |trace|
  {
    if trace == [] {
      assert before + [] == before;
    } else {
      assert (before + [trace[0]])[..|before|] == before;
      InstalledStep(s, trace[0]);
      InstalledIsWished(Apply(s, trace[0]), trace[1..], before + [trace[0]]);
      assert before + [trace[0]] + trace[1..] == before + trace;
    }
  }

  lemma InstalledStep(s: System, a: Action)
    requires Enabled(s, a)
    ensures var t := Apply(s, a);
            t.control.InitStarting? || t.control.InitSpawning? ==>
              && (a.ByControl? ==> !a.controlAct.CallInit?)
              && (s.control.InitStarting? || s.control.InitSpawning? || a == ByControl(InitInstall))
  {
    match a
    case ByProducer(p, act) => CallsOnlyPush(s, p, act);
    case ByControl(act) =>
      if IsStart(act) {
        InstalledStart(s, act);
      } else {
        ControlIsQuiet(s, act);
      }
    case ByWorker(act) => WorkerKeepsLevel(s, act);
    case SetLevel(_) =>
  }

  lemma InstalledStart(s: System, act: ControlAct)
    requires IsStart(act) && StartEnabled(s, act)
    ensures var t := ApplyStart(s, act);
            t.control.InitStarting? || t.control.InitSpawning? ==> s.control.InitStarting? || act.InitInstall?
  {
  }
}
