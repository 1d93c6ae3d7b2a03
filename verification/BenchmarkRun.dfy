/** One run of the benchmark: the producer group and the logger side by side. Each submission of a
    worker is one log() call, made step by step by the logger thread that stands for the worker, in
    every interleaving with the other workers, with the group's main thread and with the logger's
    own worker. The main thread is busy in start(), so nobody calls init or stop meanwhile. */
module BenchmarkRun {
  import Q = QueueSpec
  import L = Lifecycle
  import S = LifecycleSafety
  import T = LifecycleTheorems
  import A = LifecycleAccounts
  import B = StartBarrier

  /** Worker w of the group is thread first + w of the logger. */
  datatype Pair = Pair(log: L.System, group: B.Group, first: nat, level: int, tally: A.Tally)

  datatype Step = InLogger(a: L.Action) | InGroup(b: B.Action)

  function Caller(pair: Pair, w: nat): L.Producer
    requires pair.first + w < |pair.log.producers|
  {
    pair.log.producers[pair.first + w]
  }

  predicate Fits(pair: Pair) {
    pair.first + |pair.group.workers| <= |pair.log.producers|
  }

  /** Worker w is about to submit, and has not called log() for it yet. */
  predicate CallDue(pair: Pair, w: nat)
    requires Fits(pair) && w < |pair.group.workers|
  {
    var me := pair.group.workers[w];
    && me.pc.Submitting? && me.sent < pair.group.messages
    && Caller(pair, w).pc.Outside? && Caller(pair, w).calls == me.sent
  }

  /** It has called log(), and the call has returned. */
  predicate CallDone(pair: Pair, w: nat)
    requires Fits(pair) && w < |pair.group.workers|
  {
    Caller(pair, w).pc.Outside? && Caller(pair, w).calls == pair.group.workers[w].sent + 1
  }

  predicate LoggerMay(pair: Pair, a: L.Action)
    requires Fits(pair)
  {
    match a
    case ByProducer(p, act) =>
      act.Begin? ==>
        && pair.first <= p < pair.first + |pair.group.workers|
        && CallDue(pair, p - pair.first)
        && act.level >= pair.level
    case ByControl(_) => false
    case ByWorker(_) => true
    case SetLevel(minimum) => minimum <= pair.level
  }

  /** A submission succeeds when its call has returned; one that throws throws before the call. */
  predicate GroupMay(pair: Pair, b: B.Action)
    requires Fits(pair)
  {
    b.Submit? && b.w < |pair.group.workers| ==> if b.ok then CallDone(pair, b.w) else CallDue(pair, b.w)
  }

  predicate Enabled(pair: Pair, step: Step) {
    && Fits(pair)
    && match step
       case InLogger(a) => L.Enabled(pair.log, a) && LoggerMay(pair, a)
       case InGroup(b) => B.Enabled(pair.group, b) && GroupMay(pair, b)
  }

  function Apply(pair: Pair, step: Step): Pair
    requires Enabled(pair, step)
  {
    match step
    case InLogger(a) => pair.(log := L.Apply(pair.log, a), tally := A.Counted(pair.log, a, pair.tally))
    case InGroup(b) => pair.(group := B.Apply(pair.group, b))
  }

  predicate Runs(pair: Pair, trace: seq<Step>)
    decreases |trace|
  {
    trace == [] || (Enabled(pair, trace[0]) && Runs(Apply(pair, trace[0]), trace[1..]))
  }

  function After(pair: Pair, trace: seq<Step>): Pair
    requires Runs(pair, trace)
    decreases |trace|
  {
    if trace == [] then pair else After(Apply(pair, trace[0]), trace[1..])
  }

  // ---------------------------------------------------------------- calls and submissions

  function Calls(producers: seq<L.Producer>, first: nat, count: nat): nat
    requires first + count <= |producers|
  {
    if count == 0 then 0 else Calls(producers, first, count - 1) + producers[first + count - 1].calls
  }

  lemma {:induction false} CallsUpdate(producers: seq<L.Producer>, first: nat, count: nat, p: nat, now: L.Producer)
    requires first + count <= |producers| && p < |producers|
    ensures Calls(producers[p := now], first, count)
         == Calls(producers, first, count) + if first <= p < first + count then now.calls - producers[p].calls else 0
  {
    if count > 0 {
      CallsUpdate(producers, first, count - 1, p, now);
    }
  }

  lemma {:induction false} CallsAll(producers: seq<L.Producer>, first: nat, count: nat, calls: nat)
    requires first + count <= |producers|
    requires forall p | first <= p < first + count :: producers[p].calls == calls
    ensures Calls(producers, first, count) == count * calls
  {
    if count > 0 {
      CallsAll(producers, first, count - 1, calls);
    }
  }

  /** A worker's calls and submissions go together: they differ by the call being made. */
  predicate Matched(caller: L.Producer, me: B.Worker, messages: nat) {
    || (caller.pc.Outside? && caller.calls == me.sent)
    || (caller.calls == me.sent + 1 && me.pc.Submitting? && me.sent < messages)
  }

  ghost predicate InStep(pair: Pair) {
    && Fits(pair)
    && (forall w | 0 <= w < |pair.group.workers| ::
          Matched(Caller(pair, w), pair.group.workers[w], pair.group.messages))
    && (forall p | 0 <= p < |pair.log.producers| ::
          pair.first <= p < pair.first + |pair.group.workers| || pair.log.producers[p].pc.Outside?)
    && pair.tally.begun == Calls(pair.log.producers, pair.first, |pair.group.workers|)
  }

  /** As long as the worker has not failed the logger runs, and no call is refused. */
  ghost predicate Open(s: L.System, refused: nat) {
    !s.failed ==> s.running && !s.queue.closed && S.InLoop(s.worker) && refused == 0
  }

  ghost predicate Levels(s: L.System, level: int) {
    && s.minLevel <= level
    && (forall p | 0 <= p < |s.producers| && s.producers[p].pc.Holding? :: s.producers[p].pc.level >= level)
  }

  ghost predicate Joined(pair: Pair) {
    && pair.log.control.Free?
    && Open(pair.log, pair.tally.refused) && Levels(pair.log, pair.level)
    && InStep(pair)
  }

  ghost predicate Inv(pair: Pair) {
    S.Inv(pair.log) && A.Balanced(pair.log, pair.tally) && B.Inv(pair.group) && Joined(pair)
  }

  // ---------------------------------------------------------------- preservation

  lemma CallKeepsStep(pair: Pair, p: nat, act: L.ProducerAct)
    requires InStep(pair) && Enabled(pair, InLogger(L.ByProducer(p, act)))
    ensures InStep(Apply(pair, InLogger(L.ByProducer(p, act))))
  {
    var next := Apply(pair, InLogger(L.ByProducer(p, act)));
    var n := |pair.group.workers|;
    var now := next.log.producers[p];
    CallHasFrame(pair.log, p, act, pair.tally);
    CallsUpdate(pair.log.producers, pair.first, n, p, now);
    forall w | 0 <= w < n ensures Matched(Caller(next, w), next.group.workers[w], next.group.messages) {
      assert Matched(Caller(pair, w), pair.group.workers[w], pair.group.messages);
    }
  }

  /** What the group sees of a step of a log() call. */
  lemma CallHasFrame(s: L.System, p: nat, act: L.ProducerAct, tally: A.Tally)
    requires L.ProducerEnabled(s, p, act)
    ensures var t := L.ApplyProducer(s, p, act);
            && t.producers == s.producers[p := t.producers[p]]
            && t.producers[p].calls == s.producers[p].calls + (if act.Begin? then 1 else 0)
            && (act.Begin? <==> s.producers[p].pc.Outside?)
            && (act.Begin? ==> t.producers[p].pc == L.Holding(act.level))
            && (t.producers[p].pc.Holding? ==> act.Begin?)
            && t.control == s.control && t.failed == s.failed && t.running == s.running
            && t.worker == s.worker && t.queue.closed == s.queue.closed
            && t.minLevel == s.minLevel && t.config == s.config && t.lifecycle == s.lifecycle
            && A.CountedCall(s, p, act, tally).begun == tally.begun + (if act.Begin? then 1 else 0)
  {
    var pc := s.producers[p].pc;
    if act.Submit? || act.Resubmit? {
      A.PushGetsResult(s.queue, pc.generation, pc.record);
    }
  }

  lemma CallKeepsOpen(s: L.System, p: nat, act: L.ProducerAct, tally: A.Tally, level: int)
    requires L.ProducerEnabled(s, p, act) && Open(s, tally.refused) && Levels(s, level)
    requires act.Begin? ==> act.level >= level
    ensures Open(L.ApplyProducer(s, p, act), A.CountedCall(s, p, act, tally).refused)
    ensures Levels(L.ApplyProducer(s, p, act), level)
  {
    CallHasFrame(s, p, act, tally);
  }

  lemma WorkerKeepsOpen(s: L.System, act: L.WorkerAct, refused: nat, level: int)
    requires Q.Conserved(s.queue) && s.config.writeBatchSize > 0
    requires S.FlagInv(s) && L.WorkerEnabled(s, act) && Open(s, refused) && Levels(s, level)
    ensures var t := L.ApplyWorker(s, act);
            Open(t, refused) && Levels(t, level) && t.control == s.control && t.producers == s.producers
  {
    var t := L.ApplyWorker(s, act);
    S.WorkerStep(s, act);
    S.WorkerMovedHasFrame(s, t);
    A.FailureStays(s, act);
  }

  lemma LoggerKeepsJoined(pair: Pair, a: L.Action)
    requires Joined(pair) && Enabled(pair, InLogger(a))
    requires Q.Conserved(pair.log.queue) && pair.log.config.writeBatchSize > 0 && S.FlagInv(pair.log)
    ensures Joined(Apply(pair, InLogger(a)))
  {
    match a
    case ByProducer(p, act) =>
      CallHasFrame(pair.log, p, act, pair.tally);
      CallKeepsStep(pair, p, act);
      CallKeepsOpen(pair.log, p, act, pair.tally, pair.level);
    case ByWorker(act) =>
      WorkerKeepsOpen(pair.log, act, pair.tally.refused, pair.level);
      SameCallers(pair, Apply(pair, InLogger(a)));
    case SetLevel(_) =>
      SameCallers(pair, Apply(pair, InLogger(a)));
    case ByControl(_) =>
  }

  lemma SameCallers(pair: Pair, next: Pair)
    requires InStep(pair) && next == pair.(log := next.log) && next.log.producers == pair.log.producers
    ensures InStep(next)
  {
    forall w | 0 <= w < |next.group.workers|
      ensures Matched(Caller(next, w), next.group.workers[w], next.group.messages)
    {
      assert Matched(Caller(pair, w), pair.group.workers[w], pair.group.messages);
    }
  }

  lemma LoggerKeepsInv(pair: Pair, a: L.Action)
    requires Inv(pair) && Enabled(pair, InLogger(a))
    ensures Inv(Apply(pair, InLogger(a)))
  {
    T.ApplyKeepsInv(pair.log, a);
    A.StepKeepsBalance(pair.log, a, pair.tally);
    LoggerKeepsJoined(pair, a);
  }

  /** A submission is counted when its call is over; nothing else touches the counts. */
  ghost predicate Submitted(pair: Pair, w: nat, now: B.Worker)
    requires Fits(pair) && w < |pair.group.workers|
  {
    var was := pair.group.workers[w];
    || (now.sent == was.sent && now.pc.Submitting? == was.pc.Submitting?)
    || (now.sent == was.sent && (!was.pc.Submitting? || was.sent >= pair.group.messages || CallDue(pair, w)))
    || (now.sent == was.sent + 1 && CallDone(pair, w))
  }

  lemma SubmissionCounts(pair: Pair, b: B.Action, w: nat)
    requires Enabled(pair, InGroup(b)) && b.Submit? && w < |pair.group.workers|
    ensures |B.Apply(pair.group, b).workers| == |pair.group.workers|
    ensures Submitted(pair, w, B.Apply(pair.group, b).workers[w])
  {
  }

  lemma GroupSubmits(pair: Pair, b: B.Action, w: nat)
    requires B.Inv(pair.group) && Enabled(pair, InGroup(b)) && w < |pair.group.workers|
    ensures |B.Apply(pair.group, b).workers| == |pair.group.workers|
    ensures Submitted(pair, w, B.Apply(pair.group, b).workers[w])
  {
    if b.Submit? {
      SubmissionCounts(pair, b, w);
    } else {
      B.OthersSubmitNothing(pair.group, b, w);
    }
  }

  lemma GroupKeepsJoined(pair: Pair, b: B.Action)
    requires Joined(pair) && B.Inv(pair.group) && Enabled(pair, InGroup(b))
    ensures Joined(Apply(pair, InGroup(b)))
  {
    var next := Apply(pair, InGroup(b));
    B.GroupStays(pair.group, b);
    forall w | 0 <= w < |next.group.workers|
      ensures Matched(Caller(next, w), next.group.workers[w], next.group.messages)
    {
      GroupSubmits(pair, b, w);
      assert Matched(Caller(pair, w), pair.group.workers[w], pair.group.messages);
    }
  }

  lemma GroupKeepsInv(pair: Pair, b: B.Action)
    requires Inv(pair) && Enabled(pair, InGroup(b))
    ensures Inv(Apply(pair, InGroup(b)))
  {
    B.ApplyKeepsInv(pair.group, b);
    GroupKeepsJoined(pair, b);
  }

  /** What stays the same throughout a run. */
  ghost predicate SameRun(a: Pair, b: Pair) {
    && b.log.config == a.log.config && b.log.lifecycle == a.log.lifecycle
    && |b.group.workers| == |a.group.workers| && b.group.messages == a.group.messages
  }

  lemma StepStaysInRun(pair: Pair, step: Step)
    requires Enabled(pair, step)
    ensures SameRun(pair, Apply(pair, step))
  {
    match step
    case InLogger(ByProducer(p, act)) => CallHasFrame(pair.log, p, act, pair.tally);
    case InLogger(_) =>
    case InGroup(b) => B.GroupStays(pair.group, b);
  }

  lemma {:induction false} RunKeepsInv(pair: Pair, trace: seq<Step>)
    requires Inv(pair) && Runs(pair, trace)
    ensures Inv(After(pair, trace)) && SameRun(pair, After(pair, trace))
    decreases |trace|
  {
    if trace != [] {
      match trace[0] {
        case InLogger(a) => LoggerKeepsInv(pair, a);
        case InGroup(b) => GroupKeepsInv(pair, b);
      }
      StepStaysInRun(pair, trace[0]);
      RunKeepsInv(Apply(pair, trace[0]), trace[1..]);
    }
  }

  // ---------------------------------------------------------------- the whole run

  /** init() has returned and no log() call has been made since; the threads from `first` on are new. */
  ghost predicate Ready(s: L.System, tally: A.Tally, first: nat, threads: nat) {
    && s.control.Free? && s.running && !s.failed && A.AllReturned(s) && tally.begun == 0
    && first + threads <= |s.producers|
    && forall p | first <= p < first + threads :: s.producers[p].calls == 0
  }

  lemma BeginsJoined(s: L.System, tally: A.Tally, first: nat, threads: nat, messages: nat)
    requires S.FlagInv(s) && A.Balanced(s, tally) && Ready(s, tally, first, threads)
    ensures Joined(Pair(s, B.Begin(threads, messages), first, s.minLevel, tally))
  {
    RunningIsOpen(s);
    NothingCalled(s, tally, first, threads);
  }

  lemma BeginsWithInv(s: L.System, tally: A.Tally, first: nat, threads: nat, messages: nat)
    requires S.Inv(s) && A.Balanced(s, tally) && Ready(s, tally, first, threads)
    ensures Inv(Pair(s, B.Begin(threads, messages), first, s.minLevel, tally))
  {
    B.BeginHasInv(threads, messages);
    BeginsJoined(s, tally, first, threads, messages);
  }

  lemma NothingCalled(s: L.System, tally: A.Tally, first: nat, threads: nat)
    requires A.Balanced(s, tally) && Ready(s, tally, first, threads)
    ensures tally.refused == 0 && Calls(s.producers, first, threads) == 0
  {
    CallsAll(s.producers, first, threads, 0);
  }

  lemma RunningIsOpen(s: L.System)
    requires S.FlagInv(s) && s.control.Free? && s.running && !s.failed
    ensures !s.queue.closed && S.InLoop(s.worker)
  {
  }

  /** start() has returned the group: every call has returned, and threads times messages were made. */
  lemma AllCallsMade(pair: Pair)
    requires Inv(pair) && pair.group.main.Returned?
    ensures A.AllReturned(pair.log) && pair.tally.begun == |pair.group.workers| * pair.group.messages
    ensures pair.tally.begun == pair.tally.passed + pair.tally.refused
  {
    B.EachHasSubmitted(pair.group);
    var n := |pair.group.workers|;
    forall w | 0 <= w < n ensures Caller(pair, w).pc.Outside? && Caller(pair, w).calls == pair.group.messages {
      assert Matched(Caller(pair, w), pair.group.workers[w], pair.group.messages);
    }
    forall p | 0 <= p < |pair.log.producers|
      ensures pair.log.producers[p].pc.Outside?
      ensures pair.first <= p < pair.first + n ==> pair.log.producers[p].calls == pair.group.messages
    {
      if pair.first <= p < pair.first + n {
        assert Caller(pair, p - pair.first).pc.Outside?;
      }
    }
    CallsAll(pair.log.producers, pair.first, n, pair.group.messages);
    A.CountNone(pair.log.producers, A.Checking);
  }

  /** The benchmark's run, from the return of init() to the end of stop(), in states s, pair and t. */
  ghost predicate BenchmarkRuns(count: nat, before: seq<L.Action>, first: nat, threads: nat, messages: nat,
                                trace: seq<Step>, during: seq<L.Action>, t: L.System)
  {
    && L.Runs(L.Start(count), before)
    && var s := L.After(L.Start(count), before);
       var tally := A.CountedAll(L.Start(count), before, A.NO_CALLS);
       var pair := Pair(s, B.Begin(threads, messages), first, s.minLevel, tally);
       && Ready(s, tally, first, threads)
       && Runs(pair, trace)
       && After(pair, trace).group.main.Returned?
       && A.StopsFrom(After(pair, trace).log, during, t)
  }

  /** A benchmark run under `config` can bring stop() to state t, where it drops the sinks. */
  ghost predicate CanEnd(config: L.Config, threads: nat, messages: nat, t: L.System) {
    exists count, before, first, trace, during ::
      && BenchmarkRuns(count, before, first, threads, messages, trace, during, t)
      && L.After(L.Start(count), before).config == config
  }

  lemma RunAccounts(count: nat, before: seq<L.Action>, first: nat, threads: nat, messages: nat, trace: seq<Step>,
                    during: seq<L.Action>, t: L.System)
    requires BenchmarkRuns(count, before, first, threads, messages, trace, during, t) && !t.failed
    ensures forall j | 0 <= j < |t.sinks| ::
              |L.Delivered(t.sinks[j])| + |t.queue.items| + t.queue.dropped == threads * messages
    ensures t.config == L.After(L.Start(count), before).config
    ensures t.config.flushPolicy != L.Periodic ==> t.queue.items == []
  {
    var s := L.After(L.Start(count), before);
    var tally := A.CountedAll(L.Start(count), before, A.NO_CALLS);
    var pair := Pair(s, B.Begin(threads, messages), first, s.minLevel, tally);
    A.BalancedAlways(count, before);
    BeginsWithInv(s, tally, first, threads, messages);
    RunAccountsFrom(pair, trace, during, t);
  }

  lemma RunAccountsFrom(pair: Pair, trace: seq<Step>, during: seq<L.Action>, t: L.System)
    requires Inv(pair) && Runs(pair, trace) && After(pair, trace).group.main.Returned?
    requires A.StopsFrom(After(pair, trace).log, during, t) && !t.failed
    ensures forall j | 0 <= j < |t.sinks| ::
              |L.Delivered(t.sinks[j])| + |t.queue.items| + t.queue.dropped
              == |pair.group.workers| * pair.group.messages
    ensures t.config == pair.log.config
    ensures t.config.flushPolicy != L.Periodic ==> t.queue.items == []
  {
    RunKeepsInv(pair, trace);
    AllCallsMade(After(pair, trace));
    EndOfRun(After(pair, trace), during, t);
  }

  /** Every message is accounted for. After any benchmark run in which the logger's worker does not
      fail, each sink was given threads times messages records, less those in the drop counter and
      those left in the queue; and none is left unless the policy is Periodic. */
  lemma EveryMessageAccounted(config: L.Config, threads: nat, messages: nat, t: L.System, sink: nat)
    requires CanEnd(config, threads, messages, t) && !t.failed && sink < |t.sinks|
    ensures |L.Delivered(t.sinks[sink])| + |t.queue.items| + t.queue.dropped == threads * messages
    ensures config.flushPolicy != L.Periodic ==> t.queue.items == []
  {
    var count, before, first, trace, during :|
      && BenchmarkRuns(count, before, first, threads, messages, trace, during, t)
      && L.After(L.Start(count), before).config == config;
    RunAccounts(count, before, first, threads, messages, trace, during, t);
  }

  lemma EndOfRun(pair: Pair, during: seq<L.Action>, t: L.System)
    requires Inv(pair) && A.AllReturned(pair.log) && A.StopsFrom(pair.log, during, t) && !t.failed
    ensures forall j | 0 <= j < |t.sinks| ::
              |L.Delivered(t.sinks[j])| + |t.queue.items| + t.queue.dropped == pair.tally.passed
    ensures pair.tally.refused == 0 && t.config == pair.log.config
    ensures t.config.flushPolicy != L.Periodic ==> t.queue.items == []
  {
    A.StopIsUnderWay(pair.log, during, t);
    A.StopAccounts(pair.log, pair.tally, during, t);
  }
}
