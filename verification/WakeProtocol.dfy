/** The queue's two condition variables, as a transition system over any number of threads.

    Every critical section of QueueSpec is one step. A thread that must wait parks on its condition
    variable; a notification is a step of its own, taken after the mutex has been released, so
    that any other thread may run between an operation and its notification. Wakeups may be
    spurious, timed waits may expire at any moment, and a woken thread still has to win the mutex
    before it evaluates its predicate again. */
module WakeProtocol {
  import opened QueueSpec

  datatype PopKind = Single | Batch(max: nat) | Timed(max: nat)

  datatype Thread<T> =
    | Idle
    | ParkedFull(generation: nat, value: T)   // on notFull, not notified
    | AwakeFull(generation: nat, value: T)    // left notFull, about to take the mutex
    | ParkedData(kind: PopKind)               // on notEmpty, not notified
    | AwakeData(kind: PopKind, expired: bool)
    | WillNotifyData                          // mutex released, notification still to come
    | WillNotifyOneFull
    | WillNotifyAllFull
    | CloseWillNotifyData                     // close notifies notEmpty, then notFull
    | CloseWillNotifyFull

  datatype System<T> = System(queue: State<T>, threads: seq<Thread<T>>)

  datatype Action<T> =
    | CallPush(t: nat, generation: nat, value: T)
    | ContinuePush(t: nat)
    | CallPop(t: nat, kind: PopKind)
    | ContinuePop(t: nat)
    | Expire(t: nat)
    | WakeSpuriously(t: nat)
    | NotifyOne(t: nat, woken: nat)
    | NotifyAll(t: nat)
    | CallClose(t: nat)
    | CallReset(t: nat, capacity: nat, policy: OverflowPolicy)

  function MaxCount(kind: PopKind): nat {
    match kind
    case Single => 1
    case Batch(max) => max
    case Timed(max) => max
  }

  function Woken<T>(th: Thread<T>): Thread<T> {
    match th
    case ParkedFull(generation, value) => AwakeFull(generation, value)
    case ParkedData(kind) => AwakeData(kind, false)
    case _ => th
  }

  function AfterPush<T>(outcome: PushOutcome, generation: nat, value: T): Thread<T> {
    if outcome.WaitForRoom? then ParkedFull(generation, value)
    else if PushSignal(outcome) == OneConsumer then WillNotifyData
    else Idle
  }

  function AfterPop<T>(outcome: PopOutcome<T>, kind: PopKind): Thread<T> {
    if outcome.WaitForData? then ParkedData(kind)
    else match PopSignal(outcome, kind.Single?)
      case OneProducer => WillNotifyOneFull
      case AllProducers => WillNotifyAllFull
      case _ => Idle
  }

  function WakeAllFull<T>(threads: seq<Thread<T>>): seq<Thread<T>> {
    seq(|threads|, i requires 0 <= i < |threads| =>
      if threads[i].ParkedFull? then Woken(threads[i]) else threads[i])
  }

  function WakeAllData<T>(threads: seq<Thread<T>>): seq<Thread<T>> {
    seq(|threads|, i requires 0 <= i < |threads| =>
      if threads[i].ParkedData? then Woken(threads[i]) else threads[i])
  }

  predicate SomeParkedFull<T>(threads: seq<Thread<T>>) {
    exists i | 0 <= i < |threads| :: threads[i].ParkedFull?
  }

  predicate SomeParkedData<T>(threads: seq<Thread<T>>) {
    exists i | 0 <= i < |threads| :: threads[i].ParkedData?
  }

  /** notify_one wakes one parked thread if there is any; which one is up to the scheduler. */
  predicate NotifyOneEnabled<T>(s: System<T>, t: nat, woken: nat)
    requires t < |s.threads|
  {
    match s.threads[t]
    case WillNotifyData =>
      SomeParkedData(s.threads) ==> woken < |s.threads| && s.threads[woken].ParkedData?
    case WillNotifyOneFull =>
      SomeParkedFull(s.threads) ==> woken < |s.threads| && s.threads[woken].ParkedFull?
    case _ => false
  }

  predicate Enabled<T>(s: System<T>, a: Action<T>) {
    && a.t < |s.threads|
    && var th := s.threads[a.t];
       match a
       case CallPush(_, _, _) => th.Idle?
       case ContinuePush(_) => th.AwakeFull?
       case CallPop(_, _) => th.Idle?
       case ContinuePop(_) => th.AwakeData?
       case Expire(_) => th.ParkedData? && th.kind.Timed?
       case WakeSpuriously(_) => th.ParkedFull? || th.ParkedData?
       case NotifyOne(t, woken) => NotifyOneEnabled(s, t, woken)
       case NotifyAll(_) => th.WillNotifyAllFull? || th.CloseWillNotifyData? || th.CloseWillNotifyFull?
       case CallClose(_) => th.Idle?
       case CallReset(_, _, _) => th.Idle?
  }

  function Apply<T>(s: System<T>, a: Action<T>): System<T>
    requires Enabled(s, a)
  {
    var th := s.threads[a.t];
    match a
    case CallPush(t, generation, value) =>
      var (q, outcome) := PushEnter(s.queue, generation, value);
      System(q, s.threads[t := AfterPush(outcome, generation, value)])
    case ContinuePush(t) =>
      var (q, outcome) := PushResume(s.queue, th.generation, th.value);
      System(q, s.threads[t := AfterPush(outcome, th.generation, th.value)])
    case CallPop(t, kind) =>
      var (q, outcome) := PopBatch(s.queue, MaxCount(kind), false);
      System(q, s.threads[t := AfterPop(outcome, kind)])
    case ContinuePop(t) =>
      var (q, outcome) := PopBatch(s.queue, MaxCount(th.kind), th.expired);
      System(q, s.threads[t := AfterPop(outcome, th.kind)])
    case Expire(t) =>
      s.(threads := s.threads[t := AwakeData(th.kind, true)])
    case WakeSpuriously(t) =>
      s.(threads := s.threads[t := Woken(th)])
    case NotifyOne(t, woken) =>
      var parked := if th.WillNotifyData? then SomeParkedData(s.threads) else SomeParkedFull(s.threads);
      var threads := if parked then s.threads[woken := Woken(s.threads[woken])] else s.threads;
      s.(threads := threads[t := Idle])
    case NotifyAll(t) =>
      if th.CloseWillNotifyData? then
        s.(threads := WakeAllData(s.threads)[t := CloseWillNotifyFull])
      else
        s.(threads := WakeAllFull(s.threads)[t := Idle])
    case CallClose(t) =>
      System(Close(s.queue), s.threads[t := CloseWillNotifyData])
    case CallReset(t, capacity, policy) =>
      // reset notifies before it releases the mutex
      System(Reset(s.queue, capacity, policy), WakeAllFull(WakeAllData(s.threads)))
  }

  predicate Runs<T>(s: System<T>, trace: seq<Action<T>>)
    decreases |trace|
  {
    trace == [] || (Enabled(s, trace[0]) && Runs(Apply(s, trace[0]), trace[1..]))
  }

  function After<T>(s: System<T>, trace: seq<Action<T>>): System<T>
    requires Runs(s, trace)
    decreases |trace|
  {
    if trace == [] then s else After(Apply(s, trace[0]), trace[1..])
  }

  /** A new queue and any number of threads that have not called it yet. */
  function Start<T>(count: nat): System<T> {
    System(Initial(), seq(count, _ => Idle))
  }

  // ---------------------------------------------------------------- counting threads

  datatype Class = ClassAwakeFull | ClassOneFull | ClassAwakeData | ClassNotifyData

  /** Woken producers count only under the current generation: the others will return Closed. */
  function Weight<T>(th: Thread<T>, c: Class, generation: nat): nat {
    match c
    case ClassAwakeFull => if th.AwakeFull? && th.generation == generation then 1 else 0
    case ClassOneFull => if th.WillNotifyOneFull? then 1 else 0
    case ClassAwakeData => if th.AwakeData? then 1 else 0
    case ClassNotifyData => if th.WillNotifyData? then 1 else 0
  }

  function Count<T>(threads: seq<Thread<T>>, c: Class, generation: nat): nat {
    if threads == [] then 0
    else Weight(threads[0], c, generation) + Count(threads[1..], c, generation)
  }

  lemma {:induction false} CountUpdate<T>(threads: seq<Thread<T>>, t: nat, th: Thread<T>, c: Class, generation: nat)
    requires t < |threads|
    ensures Count(threads[t := th], c, generation) + Weight(threads[t], c, generation)
         == Count(threads, c, generation) + Weight(th, c, generation)
  {
    if t == 0 {
      assert threads[t := th][1..] == threads[1..];
    } else {
      assert threads[t := th][1..] == threads[1..][t - 1 := th];
      CountUpdate(threads[1..], t - 1, th, c, generation);
    }
  }

  lemma {:induction false} CountSame<T>(a: seq<Thread<T>>, b: seq<Thread<T>>, c: Class, generation: nat)
    requires |a| == |b|
    requires forall i | 0 <= i < |a| :: Weight(a[i], c, generation) == Weight(b[i], c, generation)
    ensures Count(a, c, generation) == Count(b, c, generation)
  {
    if a != [] {
      CountSame(a[1..], b[1..], c, generation);
    }
  }

  // ---------------------------------------------------------------- the invariant

  ghost predicate Pending<T>(threads: seq<Thread<T>>, th: Thread<T>) {
    th in threads
  }

  /** If a producer is parked on the open queue, then a notify_all is on its way or every free slot
      already has a woken producer or a notify_one on its way. Once the queue is closed, a parked
      producer means that close has yet to notify. */
  ghost predicate ProducersServed<T>(s: System<T>) {
    var q := s.queue;
    && (forall i | 0 <= i < |s.threads| && s.threads[i].ParkedFull? :: s.threads[i].generation == q.generation)
    && (SomeParkedFull(s.threads) ==>
          if q.closed then
            Pending(s.threads, CloseWillNotifyData) || Pending(s.threads, CloseWillNotifyFull)
          else
            || Pending(s.threads, WillNotifyAllFull)
            || q.capacity - |q.items| <= Count(s.threads, ClassAwakeFull, q.generation)
                                         + Count(s.threads, ClassOneFull, q.generation))
  }

  /** The same for consumers: every queued item has a woken consumer or a notification on its way. */
  ghost predicate ConsumersServed<T>(s: System<T>) {
    var q := s.queue;
    && (forall i | 0 <= i < |s.threads| && (s.threads[i].ParkedData? || s.threads[i].AwakeData?) ::
          MaxCount(s.threads[i].kind) > 0)
    && (SomeParkedData(s.threads) ==>
          if q.closed then
            Pending(s.threads, CloseWillNotifyData)
          else
            |q.items| <= Count(s.threads, ClassAwakeData, q.generation)
                         + Count(s.threads, ClassNotifyData, q.generation))
  }

  ghost predicate Inv<T>(s: System<T>) {
    Ledger(s.queue) && ProducersServed(s) && ConsumersServed(s)
  }

  predicate IsCritical<T>(a: Action<T>) {
    a.CallPush? || a.ContinuePush? || a.CallPop? || a.ContinuePop? || a.CallClose? || a.CallReset?
  }

  function OpOf<T>(s: System<T>, a: Action<T>): Op<T>
    requires Enabled(s, a) && IsCritical(a)
  {
    var th := s.threads[a.t];
    match a
    case CallPush(_, generation, value) => OpPush(generation, value)
    case ContinuePush(_) => OpResume(th.generation, th.value)
    case CallPop(_, kind) => OpPop(MaxCount(kind), false)
    case ContinuePop(_) => OpPop(MaxCount(th.kind), th.expired)
    case CallClose(_) => OpClose
    case CallReset(_, capacity, policy) => OpReset(capacity, policy)
  }

  /** Every step is one critical section of the queue, or leaves the queue alone. */
  lemma StepRefinesQueue<T>(s: System<T>, a: Action<T>)
    requires Enabled(s, a) && Ledger(s.queue)
    ensures if IsCritical(a) then Apply(s, a).queue == Step(s.queue, OpOf(s, a)) else Apply(s, a).queue == s.queue
    ensures Ledger(Apply(s, a).queue)
  {
    if IsCritical(a) {
      StepKeepsLedger(s.queue, OpOf(s, a));
    }
  }

  // ---------------------------------------------------------------- preservation

  lemma AllCounts<T>(threads: seq<Thread<T>>, t: nat, th: Thread<T>, generation: nat)
    requires t < |threads|
    ensures forall c :: Count(threads[t := th], c, generation) + Weight(threads[t], c, generation)
                     == Count(threads, c, generation) + Weight(th, c, generation)
  {
    forall c ensures Count(threads[t := th], c, generation) + Weight(threads[t], c, generation)
                  == Count(threads, c, generation) + Weight(th, c, generation) {
      CountUpdate(threads, t, th, c, generation);
    }
  }

  /** How pending notifications and parked threads carry over a step of thread t alone. */
  lemma PendingAfterUpdate<T>(threads: seq<Thread<T>>, t: nat, th: Thread<T>)
    requires t < |threads|
    ensures forall p :: Pending(threads, p) && threads[t] != p ==> Pending(threads[t := th], p)
    ensures Pending(threads[t := th], th)
    ensures SomeParkedFull(threads[t := th]) ==> th.ParkedFull? || SomeParkedFull(threads)
    ensures SomeParkedData(threads[t := th]) ==> th.ParkedData? || SomeParkedData(threads)
  {
    var after := threads[t := th];
    assert after[t] == th;
    forall p | Pending(threads, p) && threads[t] != p ensures Pending(after, p) {
      var i :| 0 <= i < |threads| && threads[i] == p;
      assert after[i] == p;
    }
  }

  /** All that the invariant sees of a push. */
  ghost predicate PushEffect<T>(q: State<T>, after: State<T>, generation: nat, outcome: PushOutcome) {
    && after.closed == q.closed && after.generation == q.generation && after.capacity == q.capacity
    && (outcome.WaitForRoom? ==> !q.closed && generation == q.generation && |q.items| >= q.capacity)
    && (if PushSignal(outcome) == OneConsumer then |q.items| <= |after.items| <= |q.items| + 1
        else after.items == q.items)
  }

  /** A woken producer of the current generation that does not go back to wait fills a slot. */
  ghost predicate SlotUsed<T>(q: State<T>, after: State<T>, generation: nat, outcome: PushOutcome) {
    q.closed || generation != q.generation || outcome.WaitForRoom? || |after.items| == |q.items| + 1
  }

  lemma PushHasEffect<T>(q: State<T>, generation: nat, value: T)
    ensures var (after, outcome) := PushEnter(q, generation, value); PushEffect(q, after, generation, outcome)
    ensures var (after, outcome) := PushResume(q, generation, value);
            PushEffect(q, after, generation, outcome) && SlotUsed(q, after, generation, outcome)
  {
  }

  lemma PushServesProducers<T>(s: System<T>, t: nat, generation: nat, value: T, after: State<T>, outcome: PushOutcome)
    requires ProducersServed(s) && t < |s.threads| && PushEffect(s.queue, after, generation, outcome)
    requires s.threads[t].Idle? || s.threads[t] == AwakeFull(generation, value)
    requires s.threads[t].Idle? || SlotUsed(s.queue, after, generation, outcome)
    ensures ProducersServed(System(after, s.threads[t := AfterPush(outcome, generation, value)]))
  {
    var th := AfterPush(outcome, generation, value);
    AllCounts(s.threads, t, th, s.queue.generation);
    PendingAfterUpdate(s.threads, t, th);
  }

  lemma PushServesConsumers<T>(s: System<T>, t: nat, generation: nat, value: T, after: State<T>, outcome: PushOutcome)
    requires ConsumersServed(s) && t < |s.threads| && PushEffect(s.queue, after, generation, outcome)
    requires s.threads[t].Idle? || s.threads[t] == AwakeFull(generation, value)
    ensures ConsumersServed(System(after, s.threads[t := AfterPush(outcome, generation, value)]))
  {
    var th := AfterPush(outcome, generation, value);
    AllCounts(s.threads, t, th, s.queue.generation);
    PendingAfterUpdate(s.threads, t, th);
  }

  /** All that the invariant sees of a pop. */
  ghost predicate PopEffect<T>(q: State<T>, after: State<T>, outcome: PopOutcome<T>, max: nat, single: bool) {
    && after.closed == q.closed && after.generation == q.generation && after.capacity == q.capacity
    && (outcome.WaitForData? ==> !q.closed && q.items == [] && max > 0)
    && (if outcome.Got? then |after.items| < |q.items| && (single ==> |after.items| + 1 == |q.items|)
        else after.items == q.items && (max == 0 || q.items == []))
  }

  lemma PopHasEffect<T>(q: State<T>, max: nat, expired: bool)
    requires Conserved(q)
    ensures var (after, outcome) := PopBatch(q, max, expired);
            PopEffect(q, after, outcome, max, max == 1)
  {
    TakeHandsOutFront(q, max);
  }

  lemma PopServesProducers<T>(s: System<T>, t: nat, kind: PopKind, expired: bool, after: State<T>,
                               outcome: PopOutcome<T>)
    requires ProducersServed(s) && t < |s.threads|
    requires PopEffect(s.queue, after, outcome, MaxCount(kind), kind.Single?)
    requires s.threads[t].Idle? || s.threads[t] == AwakeData(kind, expired)
    ensures ProducersServed(System(after, s.threads[t := AfterPop(outcome, kind)]))
  {
    var th := AfterPop(outcome, kind);
    AllCounts(s.threads, t, th, s.queue.generation);
    PendingAfterUpdate(s.threads, t, th);
  }

  lemma PopServesConsumers<T>(s: System<T>, t: nat, kind: PopKind, expired: bool, after: State<T>,
                               outcome: PopOutcome<T>)
    requires ConsumersServed(s) && t < |s.threads|
    requires PopEffect(s.queue, after, outcome, MaxCount(kind), kind.Single?)
    requires s.threads[t].Idle? || s.threads[t] == AwakeData(kind, expired)
    ensures ConsumersServed(System(after, s.threads[t := AfterPop(outcome, kind)]))
  {
    var th := AfterPop(outcome, kind);
    AllCounts(s.threads, t, th, s.queue.generation);
    PendingAfterUpdate(s.threads, t, th);
  }

  ghost predicate Leaves<T>(parked: Thread<T>, awake: Thread<T>) {
    || (parked.ParkedData? && awake == AwakeData(parked.kind, true))
    || ((parked.ParkedFull? || parked.ParkedData?) && awake == Woken(parked))
  }

  lemma UnparkKeepsServed<T>(s: System<T>, t: nat, th: Thread<T>)
    requires ProducersServed(s) && ConsumersServed(s) && t < |s.threads| && Leaves(s.threads[t], th)
    ensures ProducersServed(s.(threads := s.threads[t := th]))
    ensures ConsumersServed(s.(threads := s.threads[t := th]))
  {
    AllCounts(s.threads, t, th, s.queue.generation);
    PendingAfterUpdate(s.threads, t, th);
  }

  predicate SomeoneToWake<T>(s: System<T>, t: nat)
    requires t < |s.threads|
  {
    if s.threads[t].WillNotifyData? then SomeParkedData(s.threads) else SomeParkedFull(s.threads)
  }

  /** The notification is given up only together with the wakeup that replaces it. */
  lemma HandOverKeepsProducers<T>(s: System<T>, t: nat, woken: nat)
    requires ProducersServed(s) && t < |s.threads| && NotifyOneEnabled(s, t, woken) && SomeoneToWake(s, t)
    requires s.threads[t].WillNotifyData? || s.threads[t].WillNotifyOneFull?
    ensures ProducersServed(s.(threads := s.threads[woken := Woken(s.threads[woken])][t := Idle]))
  {
    var th, g := Woken(s.threads[woken]), s.queue.generation;
    var m := s.threads[woken := th];
    AllCounts(s.threads, woken, th, g);
    PendingAfterUpdate(s.threads, woken, th);
    AllCounts(m, t, Idle, g);
    PendingAfterUpdate(m, t, Idle);
  }

  lemma HandOverKeepsConsumers<T>(s: System<T>, t: nat, woken: nat)
    requires ConsumersServed(s) && t < |s.threads| && NotifyOneEnabled(s, t, woken) && SomeoneToWake(s, t)
    requires s.threads[t].WillNotifyData? || s.threads[t].WillNotifyOneFull?
    ensures ConsumersServed(s.(threads := s.threads[woken := Woken(s.threads[woken])][t := Idle]))
  {
    var th, g := Woken(s.threads[woken]), s.queue.generation;
    var m := s.threads[woken := th];
    AllCounts(s.threads, woken, th, g);
    PendingAfterUpdate(s.threads, woken, th);
    AllCounts(m, t, Idle, g);
    PendingAfterUpdate(m, t, Idle);
  }

  /** With nobody to wake it, the notification is of no use. */
  lemma GivingUpKeepsServed<T>(s: System<T>, t: nat)
    requires ProducersServed(s) && ConsumersServed(s) && t < |s.threads| && !SomeoneToWake(s, t)
    requires s.threads[t].WillNotifyData? || s.threads[t].WillNotifyOneFull?
    ensures ProducersServed(s.(threads := s.threads[t := Idle]))
    ensures ConsumersServed(s.(threads := s.threads[t := Idle]))
  {
    AllCounts(s.threads, t, Idle, s.queue.generation);
    PendingAfterUpdate(s.threads, t, Idle);
  }

  lemma NotifyOneKeepsServed<T>(s: System<T>, t: nat, woken: nat)
    requires ProducersServed(s) && ConsumersServed(s) && Enabled(s, NotifyOne(t, woken))
    ensures ProducersServed(Apply(s, NotifyOne(t, woken)))
    ensures ConsumersServed(Apply(s, NotifyOne(t, woken)))
  {
    if SomeoneToWake(s, t) {
      HandOverKeepsProducers(s, t, woken);
      HandOverKeepsConsumers(s, t, woken);
    } else {
      GivingUpKeepsServed(s, t);
    }
  }

  lemma PendingAfterWakeAll<T>(threads: seq<Thread<T>>, m: seq<Thread<T>>, p: Thread<T>)
    requires m == WakeAllData(threads) || m == WakeAllFull(threads)
    requires Pending(threads, p) && !p.ParkedFull? && !p.ParkedData?
    ensures Pending(m, p)
  {
    var i :| 0 <= i < |threads| && threads[i] == p;
    assert m[i] == p;
  }

  lemma NotifyAllDataKeepsProducers<T>(s: System<T>, t: nat)
    requires ProducersServed(s) && t < |s.threads| && s.threads[t].CloseWillNotifyData?
    ensures ProducersServed(Apply(s, NotifyAll(t)))
  {
    var g := s.queue.generation;
    var m := WakeAllData(s.threads);
    WakingConsumersKeepsProducers(s, t);
    AllCounts(m, t, CloseWillNotifyFull, g);
    PendingAfterUpdate(m, t, CloseWillNotifyFull);
  }

  /** Close's own notification is still to come after its first half. */
  lemma WakingConsumersKeepsProducers<T>(s: System<T>, t: nat)
    requires ProducersServed(s) && t < |s.threads| && s.threads[t].CloseWillNotifyData?
    ensures ProducersServed(s.(threads := WakeAllData(s.threads)))
  {
    var g := s.queue.generation;
    var m := WakeAllData(s.threads);
    CountSame(s.threads, m, ClassAwakeFull, g);
    CountSame(s.threads, m, ClassOneFull, g);
    assert m[t] == CloseWillNotifyData;
    if Pending(s.threads, WillNotifyAllFull) {
      PendingAfterWakeAll(s.threads, m, WillNotifyAllFull);
    }
  }

  lemma NotifyAllDataKeepsConsumers<T>(s: System<T>, t: nat)
    requires ConsumersServed(s) && t < |s.threads| && s.threads[t].CloseWillNotifyData?
    ensures ConsumersServed(Apply(s, NotifyAll(t)))
  {
    var m := WakeAllData(s.threads);
    assert !SomeParkedData(m);
    PendingAfterUpdate(m, t, CloseWillNotifyFull);
  }

  lemma NotifyAllFullKeepsProducers<T>(s: System<T>, t: nat)
    requires ProducersServed(s) && t < |s.threads|
    requires s.threads[t].WillNotifyAllFull? || s.threads[t].CloseWillNotifyFull?
    ensures ProducersServed(Apply(s, NotifyAll(t)))
  {
    var m := WakeAllFull(s.threads);
    assert !SomeParkedFull(m);
    PendingAfterUpdate(m, t, Idle);
  }

  lemma NotifyAllFullKeepsConsumers<T>(s: System<T>, t: nat)
    requires ConsumersServed(s) && t < |s.threads|
    requires s.threads[t].WillNotifyAllFull? || s.threads[t].CloseWillNotifyFull?
    ensures ConsumersServed(Apply(s, NotifyAll(t)))
  {
    var g := s.queue.generation;
    var m := WakeAllFull(s.threads);
    CountSame(s.threads, m, ClassAwakeData, g);
    CountSame(s.threads, m, ClassNotifyData, g);
    if Pending(s.threads, CloseWillNotifyData) {
      PendingAfterWakeAll(s.threads, m, CloseWillNotifyData);
    }
    AllCounts(m, t, Idle, g);
    PendingAfterUpdate(m, t, Idle);
  }

  lemma CloseKeepsServed<T>(s: System<T>, t: nat)
    requires ProducersServed(s) && ConsumersServed(s) && Enabled(s, CallClose(t))
    ensures ProducersServed(Apply(s, CallClose(t)))
    ensures ConsumersServed(Apply(s, CallClose(t)))
  {
    PendingAfterUpdate(s.threads, t, CloseWillNotifyData);
  }

  lemma PushKeepsInv<T>(s: System<T>, a: Action<T>)
    requires Inv(s) && Enabled(s, a) && (a.CallPush? || a.ContinuePush?)
    ensures ProducersServed(Apply(s, a)) && ConsumersServed(Apply(s, a))
  {
    var th := s.threads[a.t];
    var generation := if a.CallPush? then a.generation else th.generation;
    var value := if a.CallPush? then a.value else th.value;
    var (q, outcome) :=
      if a.CallPush? then PushEnter(s.queue, generation, value) else PushResume(s.queue, generation, value);
    PushHasEffect(s.queue, generation, value);
    PushServesProducers(s, a.t, generation, value, q, outcome);
    PushServesConsumers(s, a.t, generation, value, q, outcome);
  }

  lemma PopKeepsInv<T>(s: System<T>, a: Action<T>)
    requires Inv(s) && Enabled(s, a) && (a.CallPop? || a.ContinuePop?)
    ensures ProducersServed(Apply(s, a)) && ConsumersServed(Apply(s, a))
  {
    var th := s.threads[a.t];
    var kind := if a.CallPop? then a.kind else th.kind;
    var expired := a.ContinuePop? && th.expired;
    var (q, outcome) := PopBatch(s.queue, MaxCount(kind), expired);
    PopHasEffect(s.queue, MaxCount(kind), expired);
    PopServesProducers(s, a.t, kind, expired, q, outcome);
    PopServesConsumers(s, a.t, kind, expired, q, outcome);
  }

  lemma NotifyKeepsInv<T>(s: System<T>, a: Action<T>)
    requires ProducersServed(s) && ConsumersServed(s) && Enabled(s, a) && (a.NotifyOne? || a.NotifyAll?)
    ensures ProducersServed(Apply(s, a)) && ConsumersServed(Apply(s, a))
  {
    if a.NotifyOne? {
      NotifyOneKeepsServed(s, a.t, a.woken);
    } else if s.threads[a.t].CloseWillNotifyData? {
      NotifyAllDataKeepsProducers(s, a.t);
      NotifyAllDataKeepsConsumers(s, a.t);
    } else {
      NotifyAllFullKeepsProducers(s, a.t);
      NotifyAllFullKeepsConsumers(s, a.t);
    }
  }

  lemma ApplyKeepsInv<T>(s: System<T>, a: Action<T>)
    requires Inv(s) && Enabled(s, a)
    ensures Inv(Apply(s, a))
  {
    StepRefinesQueue(s, a);
    match a
    case CallPush(_, _, _) => PushKeepsInv(s, a);
    case ContinuePush(_) => PushKeepsInv(s, a);
    case CallPop(_, _) => PopKeepsInv(s, a);
    case ContinuePop(_) => PopKeepsInv(s, a);
    case Expire(t) => UnparkKeepsServed(s, t, AwakeData(s.threads[t].kind, true));
    case WakeSpuriously(t) => UnparkKeepsServed(s, t, Woken(s.threads[t]));
    case NotifyOne(_, _) => NotifyKeepsInv(s, a);
    case NotifyAll(_) => NotifyKeepsInv(s, a);
    case CallClose(t) => CloseKeepsServed(s, t);
    case CallReset(_, _, _) =>
  }

  lemma {:induction false} RunKeepsInv<T>(s: System<T>, trace: seq<Action<T>>)
    requires Inv(s) && Runs(s, trace)
    ensures Inv(After(s, trace))
    decreases |trace|
  {
    if trace != [] {
      ApplyKeepsInv(s, trace[0]);
      RunKeepsInv(Apply(s, trace[0]), trace[1..]);
    }
  }

  lemma InvAlways<T>(count: nat, trace: seq<Action<T>>)
    requires Runs(Start(count), trace)
    ensures Inv(After(Start(count), trace))
  {
    ResetLedger(Initial<T>(), 1, Block);
    RunKeepsInv(Start(count), trace);
  }

  // ---------------------------------------------------------------- what it means

  /** No thread is running in the queue: each is outside it, or parked and not notified. */
  predicate Quiescent<T>(s: System<T>) {
    forall i | 0 <= i < |s.threads| ::
      s.threads[i].Idle? || s.threads[i].ParkedFull? || s.threads[i].ParkedData?
  }

  lemma {:induction false} QuiescentCounts<T>(threads: seq<Thread<T>>, c: Class, generation: nat)
    requires forall i | 0 <= i < |threads| :: Weight(threads[i], c, generation) == 0
    ensures Count(threads, c, generation) == 0
  {
    if threads != [] {
      QuiescentCounts(threads[1..], c, generation);
    }
  }

  /** No lost wakeup. When nothing is left to run, every parked thread is rightly parked: its own
      predicate is false. A producer is parked only under the current generation on an open, full
      queue, a consumer only on an open, empty one, so the two are never parked together. */
  lemma NoLostWakeup<T>(count: nat, trace: seq<Action<T>>)
    requires Runs(Start(count), trace) && Quiescent(After(Start(count), trace))
    ensures var s := After(Start(count), trace);
            && (forall i | 0 <= i < |s.threads| && s.threads[i].ParkedFull? ::
                  !RoomOrOver(s.queue, s.threads[i].generation) && |s.queue.items| == s.queue.capacity)
            && (SomeParkedData(s.threads) ==> !DataOrOver(s.queue))
            && !(SomeParkedFull(s.threads) && SomeParkedData(s.threads))
  {
    var s := After(Start(count), trace);
    InvAlways(count, trace);
    var g := s.queue.generation;
    forall c ensures Count(s.threads, c, g) == 0 {
      QuiescentCounts(s.threads, c, g);
    }
  }

  /** Resetting the queue leaves nobody parked, whatever they waited for; each finds out for itself when
      it has the mutex. */
  lemma ResetWakesEverybody<T>(s: System<T>, t: nat, capacity: nat, policy: OverflowPolicy)
    requires Enabled(s, CallReset(t, capacity, policy))
    ensures var after := Apply(s, CallReset(t, capacity, policy));
            && !SomeParkedFull(after.threads) && !SomeParkedData(after.threads)
            && |after.threads| == |s.threads|
            && (forall i | 0 <= i < |s.threads| ::
                  && (s.threads[i].ParkedFull? ==>
                        after.threads[i] == AwakeFull(s.threads[i].generation, s.threads[i].value))
                  && (s.threads[i].ParkedData? ==> after.threads[i] == AwakeData(s.threads[i].kind, false)))
  {
  }

  /** The critical sections of a run, in the order the mutex admitted them. */
  function CriticalSections<T>(s: System<T>, trace: seq<Action<T>>): seq<Op<T>>
    requires Runs(s, trace)
    decreases |trace|
  {
    if trace == [] then [] else
      CriticalSection(s, trace[0]) + CriticalSections(Apply(s, trace[0]), trace[1..])
  }

  lemma Associative<X>(a: seq<X>, b: seq<X>, c: seq<X>)
    ensures a + b + c == a + (b + c)
  {
  }

  lemma RunSnoc<T>(ops: seq<Op<T>>, op: Op<T>)
    ensures Run(ops + [op]) == Step(Run(ops), op)
  {
    assert (ops + [op])[..|ops|] == ops;
  }

  function CriticalSection<T>(s: System<T>, a: Action<T>): seq<Op<T>>
    requires Enabled(s, a)
  {
    if IsCritical(a) then [OpOf(s, a)] else []
  }

  lemma ApplyRefinesQueue<T>(s: System<T>, a: Action<T>, before: seq<Op<T>>)
    requires Enabled(s, a) && s.queue == Run(before)
    ensures Apply(s, a).queue == Run(before + CriticalSection(s, a))
  {
    LedgerAlways(before);
    StepRefinesQueue(s, a);
    if IsCritical(a) {
      RunSnoc(before, OpOf(s, a));
    } else {
      assert before + [] == before;
    }
  }

  lemma {:induction false} RunRefinesQueue<T>(s: System<T>, trace: seq<Action<T>>, before: seq<Op<T>>)
    requires Runs(s, trace) && s.queue == Run(before)
    ensures After(s, trace).queue == Run(before + CriticalSections(s, trace))
    decreases |trace|
  {
    if trace == [] {
      assert before + [] == before;
    } else {
      var first := CriticalSection(s, trace[0]);
      var next := Apply(s, trace[0]);
      ApplyRefinesQueue(s, trace[0], before);
      RunRefinesQueue(next, trace[1..], before + first);
      Associative(before, first, CriticalSections(next, trace[1..]));
    }
  }

  /** Whatever the interleaving of threads, wakeups and notifications, the queue ends as the
      sequential run of the same critical sections leaves it; so all that QueueSpec proves of
      sequential runs holds of concurrent ones. */
  lemma ConcurrentRunsAreSequential<T>(count: nat, trace: seq<Action<T>>)
    requires Runs(Start(count), trace)
    ensures After(Start(count), trace).queue == Run(CriticalSections(Start(count), trace))
    ensures Ledger(After(Start(count), trace).queue)
  {
    RunRefinesQueue(Start(count), trace, []);
    assert [] + CriticalSections(Start(count), trace) == CriticalSections(Start(count), trace);
    LedgerAlways(CriticalSections(Start(count), trace));
  }
}
