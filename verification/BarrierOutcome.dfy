/** How the producer group ends: when start() returns the group and when it throws, who submits, and
    when the workers leave. */
module BarrierOutcome {
  import opened StartBarrier

  ghost predicate WorkerRight(g: Group, i: nat)
    requires i < |g.workers|
  {
    var me := g.workers[i];
    && (me.sent > 0 || me.pc.Submitting? ==> me.prepared)
    && (me.pc.ArrivingReady? || me.pc.StartParked? || me.pc.StartAwake? ==> me.pc.canSubmit == me.prepared)
    && (me.pc.Gone? ==> g.release)
  }

  predicate Ending(main: MainPc) {
    main.Releasing? || main.ReleaseNotifying? || main.Joining? || main.Finished?
  }

  ghost predicate MainRight(g: Group) {
    && (g.returned ==> !g.failure && g.completed == |g.workers| && (g.main.Returned? || Ending(g.main)))
    && (g.main.Returned? ==> g.returned)
    && (Ending(g.main) ==> g.returned || g.failure || g.launchFailed)
    && (g.main.Finished? ==> forall i | 0 <= i < |g.workers| :: g.workers[i].pc.Gone? || g.workers[i].pc.NotLaunched?)
  }

  ghost predicate Right(g: Group) {
    MainRight(g) && forall i | 0 <= i < |g.workers| :: WorkerRight(g, i)
  }

  // ---------------------------------------------------------------- every step keeps it

  /** The steps of one worker: `now` is what it becomes. */
  lemma OneWorkerRight(g: Group, t: Group, w: nat, now: Worker)
    requires Right(g) && w < |g.workers| && t.workers == g.workers[w := now] && t.release == g.release
    requires WorkerRight(t, w)
    ensures forall i | 0 <= i < |t.workers| :: WorkerRight(t, i)
  {
    forall i | 0 <= i < |t.workers| ensures WorkerRight(t, i) {
      assert WorkerRight(g, i);
    }
  }

  lemma SameWorkersRight(g: Group, t: Group)
    requires Right(g) && t.workers == g.workers && (g.release ==> t.release)
    ensures forall i | 0 <= i < |t.workers| :: WorkerRight(t, i)
  {
    forall i | 0 <= i < |t.workers| ensures WorkerRight(t, i) {
      assert WorkerRight(g, i);
    }
  }

  lemma AllDone(g: Group, w: nat)
    requires Inv(g) && g.completed == |g.workers| && w < |g.workers|
    ensures Stage(g.workers[w].pc) >= 6
  {
    ReachedByAll(g.workers, 6);
  }

  lemma PrepareKeepsRight(g: Group, w: nat, ok: bool)
    requires Inv(g) && Right(g) && Enabled(g, Prepare(w, ok))
    ensures Right(Apply(g, Prepare(w, ok)))
  {
    var t := Apply(g, Prepare(w, ok));
    assert WorkerRight(g, w) && WorkerOk(g, w);
    if g.completed == |g.workers| {
      AllDone(g, w);
    }
    OneWorkerRight(g, t, w, t.workers[w]);
  }

  lemma SubmitKeepsRight(g: Group, w: nat, ok: bool)
    requires Inv(g) && Right(g) && Enabled(g, Submit(w, ok))
    ensures Right(Apply(g, Submit(w, ok)))
  {
    var t := Apply(g, Submit(w, ok));
    assert WorkerRight(g, w);
    if g.completed == |g.workers| {
      AllDone(g, w);
    }
    OneWorkerRight(g, t, w, t.workers[w]);
  }

  lemma LaunchKeepsRight(g: Group, ok: bool)
    requires Inv(g) && Right(g) && Enabled(g, Launch(ok))
    ensures Right(Apply(g, Launch(ok)))
  {
    if ok {
      OneWorkerRight(g, Apply(g, Launch(ok)), g.main.next, Worker(Preparing, 0, false));
    } else {
      SameWorkersRight(g, Apply(g, Launch(ok)));
    }
  }

  lemma WakeKeepsRight(g: Group, w: nat)
    requires Right(g) && Enabled(g, WakeWorker(w))
    ensures Right(Apply(g, WakeWorker(w)))
  {
    var t := Apply(g, WakeWorker(w));
    assert WorkerRight(g, w);
    OneWorkerRight(g, t, w, t.workers[w]);
  }

  lemma WorkerKeepsRight(g: Group, w: nat)
    requires Inv(g) && Right(g) && Enabled(g, WorkerStep(w))
    ensures Right(ApplyWorker(g, w))
  {
    var t := ApplyWorker(g, w);
    assert WorkerRight(g, w) && WorkerOk(g, w);
    if g.completed == |g.workers| {
      AllDone(g, w);
    }
    OneWorkerRight(g, t, w, t.workers[w]);
  }

  lemma NotifyKeepsRight(g: Group)
    requires Right(g) && (g.main.FailNotifying? || g.main.StartNotifying? || g.main.ReleaseNotifying?)
    requires g.main.FailNotifying? ==> g.launchFailed
    ensures Right(ApplyMain(g))
  {
    var t := ApplyMain(g);
    forall i | 0 <= i < |t.workers| ensures WorkerRight(t, i) {
      assert WorkerRight(g, i);
    }
  }

  lemma MainKeepsRight(g: Group)
    requires Inv(g) && Right(g) && Enabled(g, MainStep)
    requires !g.main.FailNotifying? && !g.main.StartNotifying? && !g.main.ReleaseNotifying?
    ensures Right(ApplyMain(g))
  {
    SameWorkersRight(g, ApplyMain(g));
  }

  lemma StepKeepsRight(g: Group, a: Action)
    requires Inv(g) && Right(g) && Enabled(g, a)
    ensures Right(Apply(g, a))
  {
    match a
    case Launch(ok) => LaunchKeepsRight(g, ok);
    case MainStep =>
      if g.main.FailNotifying? || g.main.StartNotifying? || g.main.ReleaseNotifying? {
        NotifyKeepsRight(g);
      } else {
        MainKeepsRight(g);
      }
    case Prepare(w, ok) => PrepareKeepsRight(g, w, ok);
    case Submit(w, ok) => SubmitKeepsRight(g, w, ok);
    case WorkerStep(w) => WorkerKeepsRight(g, w);
    case WakeMain => SameWorkersRight(g, Apply(g, a));
    case WakeWorker(w) => WakeKeepsRight(g, w);
  }

  lemma {:induction false} RunKeepsRight(g: Group, trace: seq<Action>)
    requires Inv(g) && Right(g) && Runs(g, trace)
    ensures Right(After(g, trace)) && Inv(After(g, trace))
    decreases |trace|
  {
    if trace != [] {
      StepKeepsRight(g, trace[0]);
      ApplyKeepsInv(g, trace[0]);
      RunKeepsRight(Apply(g, trace[0]), trace[1..]);
    }
  }

  lemma RightAlways(count: nat, messages: nat, trace: seq<Action>)
    requires Runs(Begin(count, messages), trace)
    ensures Right(After(Begin(count, messages), trace)) && Inv(After(Begin(count, messages), trace))
  {
    BeginHasInv(count, messages);
    RunKeepsRight(Begin(count, messages), trace);
  }

  // ---------------------------------------------------------------- failures

  /** A call of prepare or submit that throws. */
  predicate Throws(a: Action) {
    (a.Prepare? && !a.ok) || (a.Submit? && !a.ok)
  }

  predicate LaunchThrows(a: Action) {
    a.Launch? && !a.ok
  }

  lemma FailureStep(g: Group, a: Action)
    requires Enabled(g, a)
    ensures Apply(g, a).failure <==> g.failure || Throws(a)
    ensures Apply(g, a).launchFailed <==> g.launchFailed || LaunchThrows(a)
  {
  }

  lemma {:induction false} FailuresRecorded(g: Group, trace: seq<Action>)
    requires Runs(g, trace)
    ensures After(g, trace).failure <==> g.failure || exists i | 0 <= i < |trace| :: Throws(trace[i])
    ensures After(g, trace).launchFailed <==> g.launchFailed || exists i | 0 <= i < |trace| :: LaunchThrows(trace[i])
    decreases |trace|
  {
    if trace != [] {
      var rest := trace[1..];
      FailureStep(g, trace[0]);
      FailuresRecorded(Apply(g, trace[0]), rest);
      assert forall i | 0 <= i < |rest| :: rest[i] == trace[i + 1];
      assert forall i | 1 <= i < |trace| :: trace[i] == rest[i - 1];
    }
  }

  // ---------------------------------------------------------------- what it means

  /** start() throws if and only if something threw: once the main thread is past its checks, it has
      returned the group exactly when no prepare, no submit and no launch of a thread has thrown. */
  lemma StartThrowsIffSomethingThrew(count: nat, messages: nat, trace: seq<Action>)
    requires Runs(Begin(count, messages), trace)
    requires var main := After(Begin(count, messages), trace).main; main.Returned? || Ending(main)
    ensures After(Begin(count, messages), trace).returned
       <==> forall i | 0 <= i < |trace| :: !Throws(trace[i]) && !LaunchThrows(trace[i])
  {
    RightAlways(count, messages, trace);
    FailuresRecorded(Begin(count, messages), trace);
    NeverBoth(count, messages, trace);
  }

  lemma NeverBoth(count: nat, messages: nat, trace: seq<Action>)
    requires Runs(Begin(count, messages), trace)
    ensures var g := After(Begin(count, messages), trace); g.returned ==> !g.launchFailed
  {
    BeginHasInv(count, messages);
    RunNeverBoth(Begin(count, messages), trace);
  }

  lemma {:induction false} RunNeverBoth(g: Group, trace: seq<Action>)
    requires Inv(g) && Runs(g, trace) && (g.returned ==> !g.launchFailed && !g.main.Launching?)
    ensures After(g, trace).returned ==> !After(g, trace).launchFailed && !After(g, trace).main.Launching?
    decreases |trace|
  {
    if trace != [] {
      BothStep(g, trace[0]);
      ApplyKeepsInv(g, trace[0]);
      RunNeverBoth(Apply(g, trace[0]), trace[1..]);
    }
  }

  lemma BothStep(g: Group, a: Action)
    requires Inv(g) && Enabled(g, a) && (g.returned ==> !g.launchFailed && !g.main.Launching?)
    ensures Apply(g, a).returned ==> !Apply(g, a).launchFailed && !Apply(g, a).main.Launching?
  {
  }

  /** A worker whose prepare() threw, or has not run, submits nothing. */
  lemma UnpreparedSubmitsNothing(count: nat, messages: nat, trace: seq<Action>, w: nat)
    requires Runs(Begin(count, messages), trace) && w < |After(Begin(count, messages), trace).workers|
    requires !After(Begin(count, messages), trace).workers[w].prepared
    ensures var me := After(Begin(count, messages), trace).workers[w]; me.sent == 0 && !me.pc.Submitting?
  {
    RightAlways(count, messages, trace);
    assert WorkerRight(After(Begin(count, messages), trace), w);
  }

  /** No worker leaves before the release; the release comes only when all have completed, unless a
      launch failed; and when the group is destroyed every worker that was launched has left. */
  lemma WorkersStayUntilRelease(count: nat, messages: nat, trace: seq<Action>)
    requires Runs(Begin(count, messages), trace)
    ensures var g := After(Begin(count, messages), trace);
            && ((exists w | 0 <= w < |g.workers| :: g.workers[w].pc.Gone?) ==> g.release)
            && (g.release ==> g.launchFailed || g.completed == |g.workers|)
            && (g.main.Finished? ==>
                  forall w | 0 <= w < |g.workers| :: g.workers[w].pc.Gone? || g.workers[w].pc.NotLaunched?)
  {
    RightAlways(count, messages, trace);
    var g := After(Begin(count, messages), trace);
    forall w | 0 <= w < |g.workers| && g.workers[w].pc.Gone? ensures g.release {
      assert WorkerRight(g, w);
    }
  }
}
