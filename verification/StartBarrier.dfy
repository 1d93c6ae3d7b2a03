/** The benchmark's producer group as a transition system: the main thread launches the workers, lets
    them start together, waits for all of them, and releases them when the logger has drained. Each
    critical section is a step; parking on a condition variable, notifying after the unlock and
    spurious wakeups are explicit. prepare, submit and the launch of a thread may throw. */
module StartBarrier {
  datatype WorkerPc =
    | NotLaunched
    | Preparing
    | ArrivingReady(canSubmit: bool)
    | StartParked(canSubmit: bool) | StartAwake(canSubmit: bool)
    | Submitting
    | Completing
    | NotifyingDone                 // counted as completed, notification still to come
    | ArrivingRelease
    | ReleaseParked | ReleaseAwake
    | Gone

  datatype Worker = Worker(pc: WorkerPc, sent: nat, prepared: bool)  // prepare() has succeeded

  datatype MainPc =
    | Launching(next: nat)
    | FailFlagging | FailNotifying       // a launch threw: let the launched workers go
    | ReadyArriving | ReadyParked | ReadyAwake
    | StartNotifying
    | DoneArriving | DoneParked | DoneAwake
    | Checking                           // rethrowWorkerFailure
    | Returned                           // start() has returned the group
    | Releasing | ReleaseNotifying | Joining(next: nat)
    | Finished

  datatype Group = Group(
    messages: nat,
    workers: seq<Worker>,
    main: MainPc,
    ready: nat, start: bool, completed: nat, release: bool,
    failure: bool,        // workerFailure_ is set
    launchFailed: bool,
    returned: bool)       // start() has returned the group, not thrown

  datatype Action =
    | Launch(ok: bool)
    | MainStep
    | Prepare(w: nat, ok: bool)
    | Submit(w: nat, ok: bool)
    | WorkerStep(w: nat)
    | WakeMain
    | WakeWorker(w: nat)

  function Begin(count: nat, messages: nat): Group {
    Group(messages, seq(count, _ => Worker(NotLaunched, 0, false)), Launching(0), 0, false, 0, false, false, false,
          false)
  }

  predicate Enabled(g: Group, a: Action) {
    match a
    case Launch(_) => g.main.Launching? && g.main.next < |g.workers|
    case MainStep =>
      (match g.main
       case Launching(k) => k >= |g.workers|
       case ReadyParked => false
       case DoneParked => false
       case Joining(k) => k >= |g.workers| || g.workers[k].pc.Gone? || g.workers[k].pc.NotLaunched?
       case Finished => false
       case _ => true)
    case Prepare(w, _) => w < |g.workers| && g.workers[w].pc.Preparing?
    case Submit(w, _) => w < |g.workers| && g.workers[w].pc.Submitting? && g.workers[w].sent < g.messages
    case WorkerStep(w) =>
      && w < |g.workers|
      && (match g.workers[w].pc
          case NotLaunched => false
          case Preparing => false
          case StartParked(_) => false
          case Submitting => g.workers[w].sent >= g.messages
          case ReleaseParked => false
          case Gone => false
          case _ => true)
    case WakeMain => g.main.ReadyParked? || g.main.DoneParked?
    case WakeWorker(w) => w < |g.workers| && (g.workers[w].pc.StartParked? || g.workers[w].pc.ReleaseParked?)
  }

  /** The wait of a worker for the start, on arrival or after a wakeup. */
  function StartWait(g: Group, canSubmit: bool): WorkerPc {
    if !g.start then StartParked(canSubmit) else if canSubmit then Submitting else Completing
  }

  function WakeStart(workers: seq<Worker>): seq<Worker> {
    seq(|workers|, i requires 0 <= i < |workers| =>
      if workers[i].pc.StartParked? then workers[i].(pc := StartAwake(workers[i].pc.canSubmit)) else workers[i])
  }

  function WakeRelease(workers: seq<Worker>): seq<Worker> {
    seq(|workers|, i requires 0 <= i < |workers| =>
      if workers[i].pc.ReleaseParked? then workers[i].(pc := ReleaseAwake) else workers[i])
  }

  /** Where the main thread goes next. */
  function NextMain(g: Group): MainPc {
    match g.main
    case Launching(_) => ReadyArriving
    case FailFlagging => FailNotifying
    case FailNotifying => Releasing
    case ReadyArriving => if g.ready == |g.workers| then StartNotifying else ReadyParked
    case ReadyAwake => if g.ready == |g.workers| then StartNotifying else ReadyParked
    case StartNotifying => DoneArriving
    case DoneArriving => if g.completed == |g.workers| then Checking else DoneParked
    case DoneAwake => if g.completed == |g.workers| then Checking else DoneParked
    case Checking => if g.failure then Releasing else Returned
    case Returned => Releasing
    case Releasing => ReleaseNotifying
    case ReleaseNotifying => Joining(0)
    case Joining(k) => if k >= |g.workers| then Finished else Joining(k + 1)
    case _ => g.main
  }

  /** A step of the main thread: it sets a flag in the critical section before it notifies. */
  function ApplyMain(g: Group): Group
    requires Enabled(g, MainStep)
  {
    var main := NextMain(g);
    g.(main := main,
       start := g.start || main.FailNotifying? || main.StartNotifying?,
       release := g.release || main.ReleaseNotifying?,
       returned := g.returned || main.Returned?,
       workers := if g.main.FailNotifying? || g.main.StartNotifying? then WakeStart(g.workers)
                  else if g.main.ReleaseNotifying? then WakeRelease(g.workers)
                  else g.workers)
  }

  /** Where a worker goes next. */
  function NextPc(g: Group, pc: WorkerPc): WorkerPc {
    match pc
    case ArrivingReady(canSubmit) => StartWait(g, canSubmit)
    case StartAwake(canSubmit) => StartWait(g, canSubmit)
    case Submitting => Completing
    case Completing => NotifyingDone
    case NotifyingDone => ArrivingRelease
    case ArrivingRelease => if g.release then Gone else ReleaseParked
    case ReleaseAwake => if g.release then Gone else ReleaseParked
    case _ => pc
  }

  /** A step of a worker. On arrival it counts itself, notifies the main thread and enters its own wait
      in one critical section; on completion it notifies after the unlock. */
  function ApplyWorker(g: Group, w: nat): Group
    requires Enabled(g, WorkerStep(w))
  {
    var me := g.workers[w];
    g.(ready := if me.pc.ArrivingReady? then g.ready + 1 else g.ready,
       completed := if me.pc.Completing? then g.completed + 1 else g.completed,
       main := if me.pc.ArrivingReady? && g.main.ReadyParked? then ReadyAwake
               else if me.pc.NotifyingDone? && g.main.DoneParked? then DoneAwake
               else g.main,
       workers := g.workers[w := me.(pc := NextPc(g, me.pc))])
  }

  function Apply(g: Group, a: Action): Group
    requires Enabled(g, a)
  {
    match a
    case Launch(ok) =>
      var k := g.main.next;
      if ok then g.(workers := g.workers[k := Worker(Preparing, 0, false)], main := Launching(k + 1))
      else g.(launchFailed := true, main := FailFlagging)
    case MainStep => ApplyMain(g)
    case Prepare(w, ok) =>
      g.(failure := g.failure || !ok, workers := g.workers[w := g.workers[w].(pc := ArrivingReady(ok), prepared := ok)])
    case Submit(w, ok) =>
      if ok then g.(workers := g.workers[w := g.workers[w].(sent := g.workers[w].sent + 1)])
      else g.(failure := true, workers := g.workers[w := g.workers[w].(pc := Completing)])
    case WorkerStep(w) => ApplyWorker(g, w)
    case WakeMain => g.(main := if g.main.ReadyParked? then ReadyAwake else DoneAwake)
    case WakeWorker(w) =>
      var pc := g.workers[w].pc;
      var awake := if pc.StartParked? then StartAwake(pc.canSubmit) else ReleaseAwake;
      g.(workers := g.workers[w := g.workers[w].(pc := awake)])
  }

  predicate Runs(g: Group, trace: seq<Action>)
    decreases |trace|
  {
    trace == [] || (Enabled(g, trace[0]) && Runs(Apply(g, trace[0]), trace[1..]))
  }

  function After(g: Group, trace: seq<Action>): Group
    requires Runs(g, trace)
    decreases |trace|
  {
    if trace == [] then g else After(Apply(g, trace[0]), trace[1..])
  }

  // ---------------------------------------------------------------- counting workers

  function Stage(pc: WorkerPc): nat {
    match pc
    case NotLaunched => 0
    case Preparing => 1
    case ArrivingReady(_) => 2
    case StartParked(_) => 3
    case StartAwake(_) => 3
    case Submitting => 4
    case Completing => 5
    case NotifyingDone => 6
    case ArrivingRelease => 7
    case ReleaseParked => 8
    case ReleaseAwake => 8
    case Gone => 9
  }

  /** How many workers have got as far as `stage`. */
  function Reached(workers: seq<Worker>, stage: nat): nat {
    if workers == [] then 0
    else (if Stage(workers[0].pc) >= stage then 1 else 0) + Reached(workers[1..], stage)
  }

  lemma {:induction false} ReachedUpdate(workers: seq<Worker>, w: nat, now: Worker, stage: nat)
    requires w < |workers|
    ensures Reached(workers[w := now], stage) + (if Stage(workers[w].pc) >= stage then 1 else 0)
         == Reached(workers, stage) + (if Stage(now.pc) >= stage then 1 else 0)
  {
    if w == 0 {
      assert workers[w := now][1..] == workers[1..];
    } else {
      assert workers[w := now][1..] == workers[1..][w - 1 := now];
      ReachedUpdate(workers[1..], w - 1, now, stage);
    }
  }

  lemma {:induction false} ReachedSame(a: seq<Worker>, b: seq<Worker>, stage: nat)
    requires |a| == |b| && forall i | 0 <= i < |a| :: Stage(a[i].pc) == Stage(b[i].pc)
    ensures Reached(a, stage) == Reached(b, stage)
  {
    if a != [] {
      ReachedSame(a[1..], b[1..], stage);
    }
  }

  lemma {:induction false} ReachedByAll(workers: seq<Worker>, stage: nat)
    ensures Reached(workers, stage) <= |workers|
    ensures Reached(workers, stage) == |workers| <==> forall i | 0 <= i < |workers| :: Stage(workers[i].pc) >= stage
  {
    if workers != [] {
      ReachedByAll(workers[1..], stage);
      assert forall i | 1 <= i < |workers| :: workers[i] == workers[1..][i - 1];
    }
  }

  // ---------------------------------------------------------------- the invariant

  predicate Collecting(main: MainPc) {
    main.ReadyArriving? || main.ReadyParked? || main.ReadyAwake?
  }

  predicate AfterCompletion(main: MainPc) {
    main.Checking? || main.Returned? || main.Releasing? || main.ReleaseNotifying? || main.Joining? || main.Finished?
  }

  ghost predicate WorkerOk(g: Group, i: nat)
    requires i < |g.workers|
  {
    var me := g.workers[i];
    && me.sent <= g.messages
    && (Stage(me.pc) < 4 ==> me.sent == 0)
    && (Stage(me.pc) >= 4 ==> g.start)
    && (Stage(me.pc) >= 5 ==> me.sent == g.messages || g.failure)
    && ((me.pc.ArrivingReady? || me.pc.StartParked? || me.pc.StartAwake?) && !me.pc.canSubmit ==> g.failure)
    && (me.pc.StartParked? && g.start ==> g.main.StartNotifying? || g.main.FailNotifying?)
    && (me.pc.ReleaseParked? && g.release ==> g.main.ReleaseNotifying?)
    && (if g.main.Launching? then me.pc.NotLaunched? <==> i >= g.main.next
        else me.pc.NotLaunched? ==> g.launchFailed)
  }

  ghost predicate MainOk(g: Group) {
    && (g.main.Launching? ==> g.main.next <= |g.workers|)
    && (g.launchFailed ==> g.main.FailFlagging? || g.main.FailNotifying? || g.main.Releasing?
                           || g.main.ReleaseNotifying? || g.main.Joining? || g.main.Finished?)
    && (g.main.FailFlagging? || g.main.FailNotifying? ==> g.launchFailed)
    && (g.main.Launching? || g.main.FailFlagging? || Collecting(g.main) ==> !g.start)
    && (!(g.main.Launching? || g.main.FailFlagging? || Collecting(g.main)) ==> g.start)
    && (g.start ==> g.launchFailed || g.ready == |g.workers|)
    && (g.main.ReadyParked? ==> g.ready < |g.workers|)
    && (g.main.DoneParked? ==>
          g.completed < |g.workers| || exists i | 0 <= i < |g.workers| :: g.workers[i].pc.NotifyingDone?)
    && (AfterCompletion(g.main) ==> g.launchFailed || g.completed == |g.workers|)
    && (g.main.Returned? ==> !g.failure)
    && (g.main.ReleaseNotifying? || g.main.Joining? || g.main.Finished? <==> g.release)
    && (forall i | 0 <= i < |g.workers| && g.main.Joining? && i < g.main.next ::
          g.workers[i].pc.Gone? || g.workers[i].pc.NotLaunched?)
  }

  ghost predicate Inv(g: Group) {
    && g.ready == Reached(g.workers, 3)
    && g.completed == Reached(g.workers, 6)
    && (forall i | 0 <= i < |g.workers| :: WorkerOk(g, i))
    && MainOk(g)
  }

  // ---------------------------------------------------------------- preservation

  lemma Counts(workers: seq<Worker>, w: nat, now: Worker)
    requires w < |workers|
    ensures Reached(workers[w := now], 3) + (if Stage(workers[w].pc) >= 3 then 1 else 0)
         == Reached(workers, 3) + (if Stage(now.pc) >= 3 then 1 else 0)
    ensures Reached(workers[w := now], 6) + (if Stage(workers[w].pc) >= 6 then 1 else 0)
         == Reached(workers, 6) + (if Stage(now.pc) >= 6 then 1 else 0)
    ensures Reached(workers[w := now], 3) <= |workers| && Reached(workers[w := now], 6) <= |workers|
  {
    ReachedUpdate(workers, w, now, 3);
    ReachedUpdate(workers, w, now, 6);
    ReachedByAll(workers[w := now], 3);
    ReachedByAll(workers[w := now], 6);
  }

  lemma NotifyAllKeepsInv(g: Group)
    requires Inv(g) && (g.main.FailNotifying? || g.main.StartNotifying? || g.main.ReleaseNotifying?)
    ensures Inv(ApplyMain(g))
  {
    var t := ApplyMain(g);
    NotifyAllWakes(g);
    ReachedSame(g.workers, t.workers, 3);
    ReachedSame(g.workers, t.workers, 6);
  }

  lemma NotifyAllWakes(g: Group)
    requires g.main.FailNotifying? || g.main.StartNotifying? || g.main.ReleaseNotifying?
    requires forall i | 0 <= i < |g.workers| :: WorkerOk(g, i)
    requires MainOk(g)
    ensures var t := ApplyMain(g);
            && |t.workers| == |g.workers|
            && (forall i | 0 <= i < |t.workers| :: Stage(t.workers[i].pc) == Stage(g.workers[i].pc) && WorkerOk(t, i))
  {
    var t := ApplyMain(g);
    forall i | 0 <= i < |t.workers| ensures WorkerOk(t, i) {
      assert WorkerOk(g, i);
    }
  }

  predicate Evaluating(main: MainPc) {
    main.ReadyArriving? || main.ReadyAwake? || main.DoneArriving? || main.DoneAwake?
  }

  /** The main thread evaluates the predicate of one of its waits. */
  lemma MainWaitKeepsInv(g: Group)
    requires Inv(g) && Evaluating(g.main)
    ensures Inv(ApplyMain(g))
  {
    var t := ApplyMain(g);
    ReachedByAll(g.workers, 3);
    ReachedByAll(g.workers, 6);
    forall i | 0 <= i < |t.workers| ensures WorkerOk(t, i) {
      assert WorkerOk(g, i);
    }
  }

  lemma MainKeepsInv(g: Group)
    requires Inv(g) && Enabled(g, MainStep) && !Evaluating(g.main)
    requires !g.main.FailNotifying? && !g.main.StartNotifying? && !g.main.ReleaseNotifying?
    ensures Inv(ApplyMain(g))
  {
    var t := ApplyMain(g);
    ReachedByAll(g.workers, 3);
    ReachedByAll(g.workers, 6);
    forall i | 0 <= i < |t.workers| ensures WorkerOk(t, i) {
      assert WorkerOk(g, i);
    }
  }

  lemma LaunchKeepsInv(g: Group, ok: bool)
    requires Inv(g) && Enabled(g, Launch(ok))
    ensures Inv(Apply(g, Launch(ok)))
  {
    var t := Apply(g, Launch(ok));
    if ok {
      assert WorkerOk(g, g.main.next);
      Counts(g.workers, g.main.next, Worker(Preparing, 0, false));
    }
    forall i | 0 <= i < |t.workers| ensures WorkerOk(t, i) {
      assert WorkerOk(g, i);
    }
  }

  /** A worker's step that leaves the counters alone and notifies nobody. */
  lemma QuietStepKeepsInv(g: Group, w: nat, now: Worker, failure: bool)
    requires Inv(g) && w < |g.workers| && (g.failure ==> failure)
    requires var was := g.workers[w];
             && (Stage(was.pc) >= 3 <==> Stage(now.pc) >= 3) && (Stage(was.pc) >= 6 <==> Stage(now.pc) >= 6)
             && !was.pc.NotLaunched? && !now.pc.NotLaunched? && !was.pc.NotifyingDone? && !was.pc.Gone?
    requires WorkerOk(g.(workers := g.workers[w := now], failure := failure), w)
    requires g.main.Returned? ==> !failure
    ensures Inv(g.(workers := g.workers[w := now], failure := failure))
  {
    var t := g.(workers := g.workers[w := now], failure := failure);
    Counts(g.workers, w, now);
    forall i | 0 <= i < |t.workers| ensures WorkerOk(t, i) {
      assert WorkerOk(g, i);
    }
    if g.main.DoneParked? && g.completed == |g.workers| {
      var i :| 0 <= i < |g.workers| && g.workers[i].pc.NotifyingDone?;
      assert t.workers[i].pc.NotifyingDone?;
    }
  }

  lemma ArrivalKeepsInv(g: Group, w: nat)
    requires Inv(g) && Enabled(g, WorkerStep(w)) && g.workers[w].pc.ArrivingReady?
    ensures Inv(ApplyWorker(g, w))
  {
    var t := ApplyWorker(g, w);
    assert WorkerOk(g, w);
    Counts(g.workers, w, t.workers[w]);
    ReachedByAll(g.workers, 3);
    ReachedByAll(t.workers, 3);
    assert !g.main.DoneParked?;
    forall i | 0 <= i < |t.workers| ensures WorkerOk(t, i) {
      assert WorkerOk(g, i);
    }
  }

  lemma CompletionKeepsInv(g: Group, w: nat)
    requires Inv(g) && Enabled(g, WorkerStep(w)) && (g.workers[w].pc.Completing? || g.workers[w].pc.NotifyingDone?)
    ensures Inv(ApplyWorker(g, w))
  {
    var t := ApplyWorker(g, w);
    assert WorkerOk(g, w);
    Counts(g.workers, w, t.workers[w]);
    forall i | 0 <= i < |t.workers| ensures WorkerOk(t, i) {
      assert WorkerOk(g, i);
    }
    if t.main.DoneParked? {
      assert t.workers[w].pc.NotifyingDone?;
    }
  }

  /** After a return without failure nobody is left who could fail. */
  lemma NoLateFailure(g: Group, w: nat)
    requires Inv(g) && w < |g.workers| && g.main.Returned?
    ensures Stage(g.workers[w].pc) >= 6
  {
    ReachedByAll(g.workers, 6);
  }

  lemma SubmitKeepsInv(g: Group, w: nat, ok: bool)
    requires Inv(g) && Enabled(g, Submit(w, ok))
    ensures Inv(Apply(g, Submit(w, ok)))
  {
    assert WorkerOk(g, w);
    if g.main.Returned? { NoLateFailure(g, w); }
    if ok {
      QuietStepKeepsInv(g, w, g.workers[w].(sent := g.workers[w].sent + 1), g.failure);
    } else {
      QuietStepKeepsInv(g, w, g.workers[w].(pc := Completing), true);
    }
  }

  lemma PrepareKeepsInv(g: Group, w: nat, ok: bool)
    requires Inv(g) && Enabled(g, Prepare(w, ok))
    ensures Inv(Apply(g, Prepare(w, ok)))
  {
    assert WorkerOk(g, w);
    if g.main.Returned? { NoLateFailure(g, w); }
    QuietStepKeepsInv(g, w, g.workers[w].(pc := ArrivingReady(ok), prepared := ok), g.failure || !ok);
  }

  lemma WorkerKeepsInv(g: Group, w: nat)
    requires Inv(g) && Enabled(g, WorkerStep(w))
    ensures Inv(ApplyWorker(g, w))
  {
    assert WorkerOk(g, w);
    var pc := g.workers[w].pc;
    if pc.ArrivingReady? {
      ArrivalKeepsInv(g, w);
    } else if pc.Completing? || pc.NotifyingDone? {
      CompletionKeepsInv(g, w);
    } else {
      var now := ApplyWorker(g, w).workers[w];
      QuietStepKeepsInv(g, w, now, g.failure);
      assert ApplyWorker(g, w) == g.(workers := g.workers[w := now], failure := g.failure);
    }
  }

  lemma WakeKeepsInv(g: Group, w: nat)
    requires Inv(g) && Enabled(g, WakeWorker(w))
    ensures Inv(Apply(g, WakeWorker(w)))
  {
    assert WorkerOk(g, w);
    QuietStepKeepsInv(g, w, Apply(g, WakeWorker(w)).workers[w], g.failure);
  }

  lemma ApplyKeepsInv(g: Group, a: Action)
    requires Inv(g) && Enabled(g, a)
    ensures Inv(Apply(g, a))
  {
    match a
    case Launch(ok) => LaunchKeepsInv(g, ok);
    case MainStep =>
      if g.main.FailNotifying? || g.main.StartNotifying? || g.main.ReleaseNotifying? {
        NotifyAllKeepsInv(g);
      } else if Evaluating(g.main) {
        MainWaitKeepsInv(g);
      } else {
        MainKeepsInv(g);
      }
    case Prepare(w, ok) => PrepareKeepsInv(g, w, ok);
    case Submit(w, ok) => SubmitKeepsInv(g, w, ok);
    case WorkerStep(w) => WorkerKeepsInv(g, w);
    case WakeMain => MainWakeKeepsInv(g);
    case WakeWorker(w) => WakeKeepsInv(g, w);
  }

  lemma MainWakeKeepsInv(g: Group)
    requires Inv(g) && Enabled(g, WakeMain)
    ensures Inv(Apply(g, WakeMain))
  {
    var t := Apply(g, WakeMain);
    forall i | 0 <= i < |t.workers| ensures WorkerOk(t, i) {
      assert WorkerOk(g, i);
    }
  }

  lemma {:induction false} RunKeepsInv(g: Group, trace: seq<Action>)
    requires Inv(g) && Runs(g, trace)
    ensures Inv(After(g, trace))
    decreases |trace|
  {
    if trace != [] {
      ApplyKeepsInv(g, trace[0]);
      RunKeepsInv(Apply(g, trace[0]), trace[1..]);
    }
  }

  lemma BeginHasInv(count: nat, messages: nat)
    ensures Inv(Begin(count, messages))
  {
    var g := Begin(count, messages);
    NobodyLaunched(g.workers, 3);
    NobodyLaunched(g.workers, 6);
    assert forall i | 0 <= i < |g.workers| :: WorkerOk(g, i);
  }

  lemma InvAlways(count: nat, messages: nat, trace: seq<Action>)
    requires Runs(Begin(count, messages), trace)
    ensures Inv(After(Begin(count, messages), trace))
  {
    BeginHasInv(count, messages);
    RunKeepsInv(Begin(count, messages), trace);
  }

  lemma {:induction false} NobodyLaunched(workers: seq<Worker>, stage: nat)
    requires stage > 0 && forall i | 0 <= i < |workers| :: workers[i].pc.NotLaunched?
    ensures Reached(workers, stage) == 0
  {
    if workers != [] {
      NobodyLaunched(workers[1..], stage);
    }
  }

  // ---------------------------------------------------------------- what it means

  /** No worker submits before all of them are ready, unless a launch failed. */
  lemma NoEarlySubmit(count: nat, messages: nat, trace: seq<Action>)
    requires Runs(Begin(count, messages), trace)
    ensures var g := After(Begin(count, messages), trace);
            && !g.launchFailed
            && (exists w | 0 <= w < |g.workers| :: g.workers[w].sent > 0 || g.workers[w].pc.Submitting?) ==>
              forall i | 0 <= i < |g.workers| :: Stage(g.workers[i].pc) >= 3
  {
    var g := After(Begin(count, messages), trace);
    InvAlways(count, messages, trace);
    forall w | 0 <= w < |g.workers| && (g.workers[w].sent > 0 || g.workers[w].pc.Submitting?) ensures g.start {
      assert WorkerOk(g, w);
    }
    ReachedByAll(g.workers, 3);
  }

  function Sent(workers: seq<Worker>): nat {
    if workers == [] then 0 else workers[0].sent + Sent(workers[1..])
  }

  lemma {:induction false} SentByAll(workers: seq<Worker>, messages: nat)
    requires forall i | 0 <= i < |workers| :: workers[i].sent == messages
    ensures Sent(workers) == |workers| * messages
  {
    if workers != [] {
      SentByAll(workers[1..], messages);
    }
  }

  lemma MainStays(g: Group)
    requires Enabled(g, MainStep)
    ensures |ApplyMain(g).workers| == |g.workers| && ApplyMain(g).messages == g.messages
  {
  }

  lemma WorkerStays(g: Group, w: nat)
    requires Enabled(g, WorkerStep(w))
    ensures |ApplyWorker(g, w).workers| == |g.workers| && ApplyWorker(g, w).messages == g.messages
  {
  }

  lemma GroupStays(g: Group, a: Action)
    requires Enabled(g, a)
    ensures |Apply(g, a).workers| == |g.workers| && Apply(g, a).messages == g.messages
  {
    if a.MainStep? {
      MainStays(g);
    } else if a.WorkerStep? {
      WorkerStays(g, a.w);
    }
  }

  lemma {:induction false} WorkersStay(g: Group, trace: seq<Action>)
    requires Runs(g, trace)
    ensures |After(g, trace).workers| == |g.workers| && After(g, trace).messages == g.messages
    decreases |trace|
  {
    if trace != [] {
      GroupStays(g, trace[0]);
      WorkersStay(Apply(g, trace[0]), trace[1..]);
    }
  }

  /** No step but a submission touches what a worker has sent, or ends its submitting early. */
  ghost predicate Unsubmitted(g: Group, w: nat, now: Worker)
    requires w < |g.workers|
  {
    var was := g.workers[w];
    && now.sent == was.sent
    && (now.pc.Submitting? == was.pc.Submitting? || !was.pc.Submitting? || was.sent >= g.messages)
  }

  lemma MainSubmitsNothing(g: Group, w: nat)
    requires Enabled(g, MainStep) && w < |g.workers|
    ensures |ApplyMain(g).workers| == |g.workers| && Unsubmitted(g, w, ApplyMain(g).workers[w])
  {
  }

  lemma WorkerSubmitsNothing(g: Group, v: nat, w: nat)
    requires Enabled(g, WorkerStep(v)) && w < |g.workers|
    ensures |ApplyWorker(g, v).workers| == |g.workers| && Unsubmitted(g, w, ApplyWorker(g, v).workers[w])
  {
  }

  lemma OthersSubmitNothing(g: Group, a: Action, w: nat)
    requires Inv(g) && Enabled(g, a) && w < |g.workers| && !a.Submit?
    ensures |Apply(g, a).workers| == |g.workers| && Unsubmitted(g, w, Apply(g, a).workers[w])
  {
    assert WorkerOk(g, w);
    if a.MainStep? {
      MainSubmitsNothing(g, w);
    } else if a.WorkerStep? {
      WorkerSubmitsNothing(g, a.w, w);
    }
  }

  /** When start() has returned, no worker is submitting and each has submitted all its messages. */
  lemma EachHasSubmitted(g: Group)
    requires Inv(g) && g.main.Returned?
    ensures forall i | 0 <= i < |g.workers| :: g.workers[i].sent == g.messages && !g.workers[i].pc.Submitting?
  {
    ReachedByAll(g.workers, 6);
    forall i | 0 <= i < |g.workers| ensures g.workers[i].sent == g.messages && !g.workers[i].pc.Submitting? {
      assert WorkerOk(g, i);
    }
  }

  /** start() returns the group only when every worker has submitted all its messages: exactly
      threads times messages in all. */
  lemma ReturnsWhenAllSubmitted(count: nat, messages: nat, trace: seq<Action>)
    requires Runs(Begin(count, messages), trace) && After(Begin(count, messages), trace).main.Returned?
    ensures Sent(After(Begin(count, messages), trace).workers) == count * messages
  {
    var g := After(Begin(count, messages), trace);
    InvAlways(count, messages, trace);
    WorkersStay(Begin(count, messages), trace);
    EachHasSubmitted(g);
    SentByAll(g.workers, messages);
  }

  // ---------------------------------------------------------------- no hang

  /** A wakeup without a notification, or a woken thread that finds its predicate false again. */
  predicate Idle(g: Group, a: Action) {
    match a
    case WakeMain => true
    case WakeWorker(_) => true
    case MainStep => (g.main.ReadyAwake? && g.ready != |g.workers|) || (g.main.DoneAwake? && g.completed != |g.workers|)
    case WorkerStep(w) =>
      w < |g.workers| && ((g.workers[w].pc.StartAwake? && !g.start) || (g.workers[w].pc.ReleaseAwake? && !g.release))
    case _ => false
  }

  function WorkerRank(w: Worker, messages: nat): int {
    10 - Stage(w.pc) + if Stage(w.pc) <= 4 then messages - w.sent else 0
  }

  function Ranks(workers: seq<Worker>, messages: nat): int {
    if workers == [] then 0 else WorkerRank(workers[0], messages) + Ranks(workers[1..], messages)
  }

  function MainRank(main: MainPc, count: nat): int {
    match main
    case Launching(k) => 2 * count + 10 - k
    case FailFlagging => count + 5
    case FailNotifying => count + 4
    case ReadyArriving => count + 9
    case ReadyParked => count + 8
    case ReadyAwake => count + 8
    case StartNotifying => count + 7
    case DoneArriving => count + 6
    case DoneParked => count + 5
    case DoneAwake => count + 5
    case Checking => count + 4
    case Returned => count + 3
    case Releasing => count + 2
    case ReleaseNotifying => count + 1
    case Joining(k) => if k <= count then count - k else 0
    case Finished => -1
  }

  /** How much is left to do. */
  function WorkLeft(g: Group): int {
    Ranks(g.workers, g.messages) + MainRank(g.main, |g.workers|)
  }

  lemma {:induction false} RanksUpdate(workers: seq<Worker>, w: nat, now: Worker, messages: nat)
    requires w < |workers|
    ensures Ranks(workers[w := now], messages) - WorkerRank(now, messages)
         == Ranks(workers, messages) - WorkerRank(workers[w], messages)
  {
    if w == 0 {
      assert workers[w := now][1..] == workers[1..];
    } else {
      assert workers[w := now][1..] == workers[1..][w - 1 := now];
      RanksUpdate(workers[1..], w - 1, now, messages);
    }
  }

  lemma {:induction false} RanksSame(a: seq<Worker>, b: seq<Worker>, messages: nat)
    requires |a| == |b| && forall i | 0 <= i < |a| :: WorkerRank(a[i], messages) == WorkerRank(b[i], messages)
    ensures Ranks(a, messages) == Ranks(b, messages)
  {
    if a != [] {
      RanksSame(a[1..], b[1..], messages);
    }
  }

  lemma {:induction false} RanksNotNegative(workers: seq<Worker>, messages: nat)
    requires forall i | 0 <= i < |workers| :: workers[i].sent <= messages
    ensures Ranks(workers, messages) >= 0
  {
    if workers != [] {
      RanksNotNegative(workers[1..], messages);
    }
  }

  lemma ChangedWorker(g: Group, w: nat, now: Worker)
    requires w < |g.workers|
    ensures Ranks(g.workers[w := now], g.messages)
         == Ranks(g.workers, g.messages) - WorkerRank(g.workers[w], g.messages) + WorkerRank(now, g.messages)
  {
    RanksUpdate(g.workers, w, now, g.messages);
  }

  lemma MainRankFalls(g: Group)
    requires Enabled(g, MainStep) && MainOk(g)
    ensures var before, after := MainRank(g.main, |g.workers|), MainRank(ApplyMain(g).main, |g.workers|);
            if Idle(g, MainStep) then after == before else after < before
  {
  }

  lemma MainWorks(g: Group)
    requires Enabled(g, MainStep) && MainOk(g)
    ensures if Idle(g, MainStep) then WorkLeft(ApplyMain(g)) == WorkLeft(g) else WorkLeft(ApplyMain(g)) < WorkLeft(g)
  {
    var t := ApplyMain(g);
    assert |t.workers| == |g.workers| && t.messages == g.messages;
    assert t.workers == g.workers || t.workers == WakeStart(g.workers) || t.workers == WakeRelease(g.workers);
    WakingKeepsRanks(g.workers, g.messages);
    MainRankFalls(g);
  }

  lemma WakingKeepsRanks(workers: seq<Worker>, messages: nat)
    ensures Ranks(WakeStart(workers), messages) == Ranks(workers, messages)
    ensures Ranks(WakeRelease(workers), messages) == Ranks(workers, messages)
  {
    RanksSame(workers, WakeStart(workers), messages);
    RanksSame(workers, WakeRelease(workers), messages);
  }

  lemma WorkerWorks(g: Group, w: nat)
    requires Enabled(g, WorkerStep(w)) && g.workers[w].sent <= g.messages
    ensures if Idle(g, WorkerStep(w)) then WorkLeft(ApplyWorker(g, w)) == WorkLeft(g)
            else WorkLeft(ApplyWorker(g, w)) < WorkLeft(g)
  {
    var t := ApplyWorker(g, w);
    assert t.workers == g.workers[w := t.workers[w]] && t.messages == g.messages;
    assert MainRank(t.main, |g.workers|) == MainRank(g.main, |g.workers|);
    ChangedWorker(g, w, t.workers[w]);
    WorkerRankFalls(g, w);
  }

  lemma WorkerRankFalls(g: Group, w: nat)
    requires Enabled(g, WorkerStep(w)) && g.workers[w].sent <= g.messages
    ensures var before := WorkerRank(g.workers[w], g.messages);
            var after := WorkerRank(ApplyWorker(g, w).workers[w], g.messages);
            if Idle(g, WorkerStep(w)) then after == before else after < before
  {
    StageRises(g, w);
    RankFollowsStage(g.workers[w], ApplyWorker(g, w).workers[w], g.messages);
  }

  lemma StageRises(g: Group, w: nat)
    requires Enabled(g, WorkerStep(w))
    ensures var before, after := g.workers[w], ApplyWorker(g, w).workers[w];
            && after.sent == before.sent
            && if Idle(g, WorkerStep(w)) then Stage(after.pc) == Stage(before.pc)
               else Stage(after.pc) > Stage(before.pc)
  {
  }

  lemma RankFollowsStage(was: Worker, now: Worker, messages: nat)
    requires now.sent == was.sent <= messages
    ensures Stage(now.pc) == Stage(was.pc) ==> WorkerRank(now, messages) == WorkerRank(was, messages)
    ensures Stage(now.pc) > Stage(was.pc) ==> WorkerRank(now, messages) < WorkerRank(was, messages)
  {
  }

  lemma MovedWork(g: Group, t: Group, w: nat)
    requires w < |g.workers| == |t.workers| && t.workers == g.workers[w := t.workers[w]]
    requires t.main == g.main && t.messages == g.messages
    ensures WorkLeft(t) == WorkLeft(g) - WorkerRank(g.workers[w], g.messages) + WorkerRank(t.workers[w], g.messages)
  {
    ChangedWorker(g, w, t.workers[w]);
  }

  lemma PrepareWorks(g: Group, w: nat, ok: bool)
    requires Enabled(g, Prepare(w, ok))
    ensures WorkLeft(Apply(g, Prepare(w, ok))) < WorkLeft(g)
  {
    MovedWork(g, Apply(g, Prepare(w, ok)), w);
  }

  lemma SubmitWorks(g: Group, w: nat, ok: bool)
    requires Enabled(g, Submit(w, ok))
    ensures WorkLeft(Apply(g, Submit(w, ok))) < WorkLeft(g)
  {
    MovedWork(g, Apply(g, Submit(w, ok)), w);
  }

  lemma WakeWorks(g: Group, w: nat)
    requires Enabled(g, WakeWorker(w))
    ensures WorkLeft(Apply(g, WakeWorker(w))) == WorkLeft(g)
  {
    MovedWork(g, Apply(g, WakeWorker(w)), w);
  }

  lemma LaunchWorks(g: Group, ok: bool)
    requires Inv(g) && Enabled(g, Launch(ok))
    ensures WorkLeft(Apply(g, Launch(ok))) < WorkLeft(g)
  {
    assert WorkerOk(g, g.main.next);
    if ok {
      ChangedWorker(g, g.main.next, Worker(Preparing, 0, false));
    }
  }

  lemma StepWorks(g: Group, a: Action)
    requires Inv(g) && Enabled(g, a)
    ensures if Idle(g, a) then WorkLeft(Apply(g, a)) == WorkLeft(g) else WorkLeft(Apply(g, a)) < WorkLeft(g)
  {
    match a
    case Launch(ok) => LaunchWorks(g, ok);
    case MainStep => MainWorks(g);
    case WorkerStep(w) => assert WorkerOk(g, w); WorkerWorks(g, w);
    case Prepare(w, ok) => PrepareWorks(g, w, ok);
    case Submit(w, ok) => SubmitWorks(g, w, ok);
    case WakeWorker(w) => WakeWorks(g, w);
    case WakeMain =>
  }

  /** Every step does some of the work that is left, except a wakeup without a notification and the
      return to waiting after one, which leave it as it is. */
  lemma StepsDoWork(count: nat, messages: nat, trace: seq<Action>, a: Action)
    requires Runs(Begin(count, messages), trace) && Enabled(After(Begin(count, messages), trace), a)
    ensures var g := After(Begin(count, messages), trace);
            var t := Apply(g, a);
            (if Idle(g, a) then WorkLeft(t) == WorkLeft(g) else WorkLeft(t) < WorkLeft(g)) && WorkLeft(g) >= -1
  {
    var g := After(Begin(count, messages), trace);
    InvAlways(count, messages, trace);
    StepWorks(g, a);
    forall i | 0 <= i < |g.workers| ensures g.workers[i].sent <= g.messages {
      assert WorkerOk(g, i);
    }
    RanksNotNegative(g.workers, g.messages);
  }

  /** A worker that has been launched and is not done for good, once the start is given, can work,
      unless it waits for a release that has not come. */
  lemma WorkerCanWork(g: Group, w: nat)
    requires Inv(g) && w < |g.workers| && 1 <= Stage(g.workers[w].pc) < 9
    requires Stage(g.workers[w].pc) >= 3 ==> g.start && !g.main.StartNotifying? && !g.main.FailNotifying?
    requires Stage(g.workers[w].pc) >= 8 ==> g.release && !g.main.ReleaseNotifying?
    ensures exists a :: Enabled(g, a) && !Idle(g, a)
  {
    assert WorkerOk(g, w);
    var a := if g.workers[w].pc.Preparing? then Prepare(w, true)
             else if g.workers[w].pc.Submitting? && g.workers[w].sent < g.messages then Submit(w, true)
             else WorkerStep(w);
    assert Enabled(g, a) && !Idle(g, a);
  }

  /** The main thread cannot hang, whatever throws: in every reachable state, until start() has
      returned or everything is over, some thread can do some of the work that is left. */
  lemma NeverHangs(count: nat, messages: nat, trace: seq<Action>)
    requires Runs(Begin(count, messages), trace) && !After(Begin(count, messages), trace).main.Finished?
    ensures var g := After(Begin(count, messages), trace); exists a :: Enabled(g, a) && !Idle(g, a)
  {
    var g := After(Begin(count, messages), trace);
    InvAlways(count, messages, trace);
    ReachedByAll(g.workers, 3);
    ReachedByAll(g.workers, 6);
    if Enabled(g, MainStep) && !Idle(g, MainStep) {
    } else if g.main.Launching? {
      assert Enabled(g, Launch(true)) && !Idle(g, Launch(true));
    } else if Collecting(g.main) {
      var w :| 0 <= w < |g.workers| && Stage(g.workers[w].pc) < 3;
      assert WorkerOk(g, w);
      WorkerCanWork(g, w);
    } else if g.main.DoneParked? || g.main.DoneAwake? {
      if g.completed < |g.workers| {
        var w :| 0 <= w < |g.workers| && Stage(g.workers[w].pc) < 6;
        assert WorkerOk(g, w);
        WorkerCanWork(g, w);
      } else {
        var w :| 0 <= w < |g.workers| && g.workers[w].pc.NotifyingDone?;
        WorkerCanWork(g, w);
      }
    } else {
      assert WorkerOk(g, g.main.next);
      WorkerCanWork(g, g.main.next);
    }
  }
}
