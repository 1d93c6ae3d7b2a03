/** The bounded queue as a value: one function per critical section of BlockingQueue,
    together with the history a ledger needs.

    A value that enters the queue gets the next position in `accepted`. The queue is first in,
    first out, so the positions that have left it are always a prefix, and `fates[i]` tells how
    position i left: popped by a consumer, or evicted by DropOldest. The history starts afresh
    with every generation. */
module QueueSpec {
  import opened Sizes

  type pos = n: int | 1 <= n witness 1

  datatype OverflowPolicy = Block | DropNewest | DropOldest
  datatype PushResult = Enqueued | DroppedNewest | DroppedOldest | Closed
  datatype Fate = Popped | Evicted

  /** A DroppedNewest result: how many values had been accepted, and how many had left, by then. */
  datatype Refusal = Refusal(accepted: nat, left: nat)

  datatype History<T> = History(
    accepted: seq<T>,
    fates: seq<Fate>,
    submitted: seq<T>,         // the values of all pushes that were not answered Closed, in order
    results: seq<PushResult>,  // and their results
    refusals: seq<Refusal>,
    depths: seq<nat>)          // the queue length after every insertion and removal

  datatype State<T> = State(
    items: seq<T>,
    capacity: pos,
    highWater: nat,
    generation: nat,
    dropped: nat,
    policy: OverflowPolicy,
    closed: bool,
    history: History<T>)

  function NoHistory<T>(): History<T> {
    History([], [], [], [], [], [0])
  }

  function Initial<T>(): State<T> {
    State([], SIZE_MAX, 0, 0, 0, Block, false, NoHistory())
  }

  // ---------------------------------------------------------------- critical sections

  /** How a push leaves the mutex: with a result, or to wait on notFull. */
  datatype PushOutcome = Returned(result: PushResult) | WaitForRoom

  /** How a pop leaves the mutex: with values, with nothing (closed and empty, or timed out), or
      to wait on notEmpty. */
  datatype PopOutcome<T> = Got(values: seq<T>) | Nothing | WaitForData

  /** The predicate a blocked producer waits for. */
  predicate RoomOrOver<T>(s: State<T>, generation: nat) {
    s.closed || generation != s.generation || |s.items| < s.capacity
  }

  /** The predicate a consumer waits for. */
  predicate DataOrOver<T>(s: State<T>) {
    s.closed || s.items != []
  }

  function Emplace<T>(s: State<T>, value: T, result: PushResult): State<T> {
    var items := s.items + [value];
    s.(items := items,
       highWater := if |items| > s.highWater then |items| else s.highWater,
       history := s.history.(accepted := s.history.accepted + [value],
                             submitted := s.history.submitted + [value],
                             results := s.history.results + [result],
                             depths := s.history.depths + [|items|]))
  }

  function Remove<T>(s: State<T>, fate: Fate): State<T>
    requires s.items != []
  {
    s.(items := s.items[1..],
       history := s.history.(fates := s.history.fates + [fate],
                             depths := s.history.depths + [|s.items| - 1]))
  }

  function Refuse<T>(s: State<T>, value: T): State<T> {
    s.(dropped := s.dropped + 1,
       history := s.history.(submitted := s.history.submitted + [value],
                             results := s.history.results + [DroppedNewest],
                             refusals := s.history.refusals +
                                         [Refusal(|s.history.accepted|, |s.history.fates|)]))
  }

  /** A push from its first instruction under the mutex to its first unlock. */
  function PushEnter<T>(s: State<T>, generation: nat, value: T): (State<T>, PushOutcome) {
    if s.closed || generation != s.generation then
      (s, Returned(Closed))
    else if s.policy == Block then
      PushResume(s, generation, value)
    else if |s.items| >= s.capacity then
      if s.policy == DropNewest then
        (Refuse(s, value), Returned(DroppedNewest))
      else
        var evicted := Remove(s, Evicted);
        (Emplace(evicted.(dropped := evicted.dropped + 1), value, DroppedOldest), Returned(DroppedOldest))
    else
      (Emplace(s, value, Enqueued), Returned(Enqueued))
  }

  /** A Block push evaluating its wait predicate, on arrival or after every wakeup. */
  function PushResume<T>(s: State<T>, generation: nat, value: T): (State<T>, PushOutcome) {
    if !RoomOrOver(s, generation) then
      (s, WaitForRoom)
    else if s.closed || generation != s.generation then
      (s, Returned(Closed))
    else
      (Emplace(s, value, Enqueued), Returned(Enqueued))
  }

  /** Removing up to `count` values from the front. */
  function Take<T>(s: State<T>, count: nat): (State<T>, seq<T>)
    decreases count
  {
    if count == 0 || s.items == [] then
      (s, [])
    else
      var (rest, values) := Take(Remove(s, Popped), count - 1);
      (rest, [s.items[0]] + values)
  }

  /** popBatch and popBatchFor, on arrival or after every wakeup; `expired` says that a timed wait
      has reached its deadline. The call with maxCount 0 never takes the mutex. */
  function PopBatch<T>(s: State<T>, maxCount: nat, expired: bool): (State<T>, PopOutcome<T>) {
    if maxCount == 0 then
      (s, Nothing)
    else if !DataOrOver(s) then
      (s, if expired then Nothing else WaitForData)
    else if s.items == [] then
      (s, Nothing)
    else
      var (rest, values) := Take(s, maxCount);
      (rest, Got(values))
  }

  function Close<T>(s: State<T>): State<T> {
    s.(closed := true)
  }

  function Reset<T>(s: State<T>, capacity: nat, policy: OverflowPolicy): State<T> {
    State([], if capacity == 0 then 1 else capacity, 0, s.generation + 1, 0, policy, false, NoHistory())
  }

  /** The notification a thread issues once it has released the mutex. */
  datatype Signal = NoSignal | OneConsumer | OneProducer | AllProducers

  function PushSignal(outcome: PushOutcome): Signal {
    if outcome in {Returned(Enqueued), Returned(DroppedOldest)} then OneConsumer else NoSignal
  }

  /** pop wakes one producer, the batch forms wake all of them. */
  function PopSignal<T>(outcome: PopOutcome<T>, single: bool): Signal {
    if !outcome.Got? then NoSignal else if single then OneProducer else AllProducers
  }

  // ---------------------------------------------------------------- runs

  datatype Op<T> =
    | OpPush(generation: nat, value: T)
    | OpResume(generation: nat, value: T)
    | OpPop(maxCount: nat, expired: bool)
    | OpClose
    | OpReset(capacity: nat, policy: OverflowPolicy)

  function Step<T>(s: State<T>, op: Op<T>): State<T> {
    match op
    case OpPush(generation, value) => PushEnter(s, generation, value).0
    case OpResume(generation, value) => PushResume(s, generation, value).0
    case OpPop(maxCount, expired) => PopBatch(s, maxCount, expired).0
    case OpClose => Close(s)
    case OpReset(capacity, policy) => Reset(s, capacity, policy)
  }

  /** The state after a sequence of critical sections, in the order the mutex admitted them. A
      Block push resumed under another policy does not occur: the reset that changed the policy
      also changed the generation. */
  function Run<T>(ops: seq<Op<T>>): State<T> {
    if ops == [] then Initial() else Step(Run(ops[..|ops| - 1]), ops[|ops| - 1])
  }

  // ---------------------------------------------------------------- the ledger

  ghost predicate Conserved<T>(s: State<T>) {
    var h := s.history;
    && |h.fates| <= |h.accepted|
    && s.items == h.accepted[|h.fates|..]
  }

  /** Counters against results: nothing is counted twice or forgotten. */
  ghost predicate Accounted<T>(s: State<T>) {
    var h := s.history;
    var results, fates := multiset(h.results), multiset(h.fates);
    && |h.accepted| == results[Enqueued] + results[DroppedOldest]
    && fates[Evicted] == results[DroppedOldest]
    && |h.fates| == fates[Popped] + fates[Evicted]
    && |h.results| == |h.accepted| + results[DroppedNewest]
    && |h.refusals| == results[DroppedNewest]
    && s.dropped == results[DroppedNewest] + results[DroppedOldest]
    && (s.policy == Block ==> s.dropped == 0)
  }

  ghost predicate Bounded<T>(s: State<T>) {
    var h := s.history;
    && |s.items| <= s.capacity
    && h.depths != []
    && h.depths[|h.depths| - 1] == |s.items|
    && s.highWater in h.depths
    && (forall d | d in h.depths :: d <= s.highWater)
    && s.highWater <= s.capacity
  }

  /** Losses are forced: an evicted value has `capacity` newer ones behind it, and a refused value
      found exactly `capacity` older ones in the queue. */
  ghost predicate Retained<T>(s: State<T>) {
    var h := s.history;
    && (forall i | 0 <= i < |h.fates| && h.fates[i] == Evicted :: i + s.capacity < |h.accepted|)
    && (forall r | r in h.refusals :: r.left + s.capacity == r.accepted <= |h.accepted|)
  }

  ghost predicate Ledger<T>(s: State<T>) {
    Conserved(s) && Accounted(s) && Bounded(s) && Retained(s)
  }

  lemma EmplaceKeepsLedger<T>(s: State<T>, value: T, result: PushResult)
    requires Ledger(s) && result == Enqueued && |s.items| < s.capacity
    ensures Ledger(Emplace(s, value, result))
  {
    var t := Emplace(s, value, result);
    assert t.history.depths[|t.history.depths| - 1] in t.history.depths;
    assert forall d | d in t.history.depths :: d in s.history.depths || d == |t.items|;
    assert s.highWater in s.history.depths;
    var k :| 0 <= k < |s.history.depths| && s.history.depths[k] == s.highWater;
    assert t.history.depths[k] == s.highWater;
  }

  lemma RemoveKeepsLedger<T>(s: State<T>)
    requires Ledger(s) && s.items != []
    ensures Ledger(Remove(s, Popped))
  {
    var t := Remove(s, Popped);
    var k :| 0 <= k < |s.history.depths| && s.history.depths[k] == s.highWater;
    assert t.history.depths[k] == s.highWater;
    assert |s.items| in s.history.depths;
  }

  lemma EvictKeepsLedger<T>(s: State<T>, value: T)
    requires Ledger(s) && !s.closed && s.policy == DropOldest && |s.items| >= s.capacity
    ensures Ledger(PushEnter(s, s.generation, value).0)
  {
    var h := s.history;
    var t := PushEnter(s, s.generation, value).0;
    assert t.history.accepted == h.accepted + [value] && t.history.fates == h.fates + [Evicted];
    assert t.items == s.items[1..] + [value];
    assert t.history.depths == h.depths + [|s.items| - 1] + [|s.items|];
    assert t.highWater == s.highWater == s.capacity by {
      assert h.depths[|h.depths| - 1] in h.depths;
    }
    var k :| 0 <= k < |h.depths| && h.depths[k] == s.highWater;
    assert t.history.depths[k] == s.highWater;
  }

  lemma {:induction false} TakeKeepsLedger<T>(s: State<T>, count: nat)
    requires Ledger(s)
    ensures Ledger(Take(s, count).0)
    decreases count
  {
    if count > 0 && s.items != [] {
      RemoveKeepsLedger(s);
      TakeKeepsLedger(Remove(s, Popped), count - 1);
    }
  }

  lemma PushKeepsLedger<T>(s: State<T>, generation: nat, value: T)
    requires Ledger(s)
    ensures Ledger(PushEnter(s, generation, value).0)
  {
    if s.closed || generation != s.generation {
    } else if s.policy != Block && |s.items| >= s.capacity {
      if s.policy == DropOldest {
        EvictKeepsLedger(s, value);
      }
    } else if |s.items| < s.capacity {
      EmplaceKeepsLedger(s, value, Enqueued);
    }
  }

  lemma ResumeKeepsLedger<T>(s: State<T>, generation: nat, value: T)
    requires Ledger(s)
    ensures Ledger(PushResume(s, generation, value).0)
  {
    if !s.closed && generation == s.generation && |s.items| < s.capacity {
      EmplaceKeepsLedger(s, value, Enqueued);
    }
  }

  lemma StepKeepsLedger<T>(s: State<T>, op: Op<T>)
    requires Ledger(s)
    ensures Ledger(Step(s, op))
  {
    match op
    case OpPush(generation, value) => PushKeepsLedger(s, generation, value);
    case OpResume(generation, value) => ResumeKeepsLedger(s, generation, value);
    case OpPop(maxCount, expired) => TakeKeepsLedger(s, maxCount);
    case OpClose =>
    case OpReset(capacity, policy) => ResetLedger(s, capacity, policy);
  }

  lemma ResetLedger<T>(s: State<T>, capacity: nat, policy: OverflowPolicy)
    ensures Ledger(Reset(s, capacity, policy)) && Ledger(Initial<T>())
  {
    assert NoHistory<T>().depths[0] == 0;
  }

  /** The ledger holds after every run, whatever the operations, their order and their arguments. */
  lemma {:induction false} LedgerAlways<T>(ops: seq<Op<T>>)
    ensures Ledger(Run(ops))
  {
    if ops == [] {
      ResetLedger(Initial<T>(), 1, Block);
    } else {
      LedgerAlways(ops[..|ops| - 1]);
      StepKeepsLedger(Run(ops[..|ops| - 1]), ops[|ops| - 1]);
    }
  }

  /** The queue length is what was enqueued less what was popped: evictions replace one for one.
      No push is lost: each one that was not turned away as Closed is popped, queued or counted in
      `dropped`. */
  lemma LengthAndLosses<T>(ops: seq<Op<T>>)
    ensures var s := Run(ops);
            && |s.items| + multiset(s.history.fates)[Popped] == multiset(s.history.results)[Enqueued]
            && |s.history.results| == multiset(s.history.fates)[Popped] + |s.items| + s.dropped
  {
    LedgerAlways(ops);
  }

  /** The most recent min(capacity, accepted) values are never lost: each is still queued, or was
      popped by a consumer. */
  lemma RecentNeverLost<T>(ops: seq<Op<T>>, i: nat)
    requires i < |Run(ops).history.accepted| <= i + Run(ops).capacity
    ensures var s := Run(ops);
            var h := s.history;
            if i < |h.fates| then h.fates[i] == Popped
            else i - |h.fates| < |s.items| && s.items[i - |h.fates|] == h.accepted[i]
  {
    LedgerAlways(ops);
  }

  // ---------------------------------------------------------------- which policy loses what

  /** The submitted values that were taken in: all but those refused. */
  function AcceptedOf<T>(submitted: seq<T>, results: seq<PushResult>): seq<T>
    requires |submitted| == |results|
  {
    if results == [] then [] else
      var last := |results| - 1;
      AcceptedOf(submitted[..last], results[..last])
      + if results[last] == DroppedNewest then [] else [submitted[last]]
  }

  ghost predicate ByPolicy<T>(s: State<T>) {
    var h := s.history;
    && |h.submitted| == |h.results| && h.accepted == AcceptedOf(h.submitted, h.results)
    && Closed !in h.results
    && (s.policy != DropNewest ==> DroppedNewest !in h.results)
    && (s.policy != DropOldest ==> DroppedOldest !in h.results && Evicted !in h.fates)
  }

  lemma EmplaceByPolicy<T>(s: State<T>, value: T, result: PushResult)
    requires ByPolicy(s) && (result == Enqueued || (result == DroppedOldest && s.policy == DropOldest))
    ensures ByPolicy(Emplace(s, value, result))
  {
    var h, t := s.history, Emplace(s, value, result).history;
    assert t.submitted[..|h.results|] == h.submitted && t.results[..|h.results|] == h.results;
  }

  lemma RefuseByPolicy<T>(s: State<T>, value: T)
    requires ByPolicy(s) && s.policy == DropNewest
    ensures ByPolicy(Refuse(s, value))
  {
    var h, t := s.history, Refuse(s, value).history;
    assert t.submitted[..|h.results|] == h.submitted && t.results[..|h.results|] == h.results;
  }

  lemma PushByPolicy<T>(s: State<T>, generation: nat, value: T)
    requires ByPolicy(s)
    ensures ByPolicy(PushEnter(s, generation, value).0) && ByPolicy(PushResume(s, generation, value).0)
  {
    EmplaceByPolicy(s, value, Enqueued);
    if s.policy == DropNewest {
      RefuseByPolicy(s, value);
    } else if s.policy == DropOldest && s.items != [] {
      var evicted := Remove(s, Evicted);
      EmplaceByPolicy(evicted.(dropped := evicted.dropped + 1), value, DroppedOldest);
    }
  }

  lemma {:induction false} TakeByPolicy<T>(s: State<T>, count: nat)
    requires ByPolicy(s)
    ensures ByPolicy(Take(s, count).0)
    decreases count
  {
    if count > 0 && s.items != [] {
      TakeByPolicy(Remove(s, Popped), count - 1);
    }
  }

  lemma {:induction false} ByPolicyAlways<T>(ops: seq<Op<T>>)
    ensures ByPolicy(Run(ops))
  {
    if ops != [] {
      var s, op := Run(ops[..|ops| - 1]), ops[|ops| - 1];
      ByPolicyAlways(ops[..|ops| - 1]);
      match op
      case OpPush(generation, value) => PushByPolicy(s, generation, value);
      case OpResume(generation, value) => PushByPolicy(s, generation, value);
      case OpPop(maxCount, _) => TakeByPolicy(s, maxCount);
      case OpClose =>
      case OpReset(_, _) =>
    }
  }

  lemma {:induction false} NothingRefused<T>(submitted: seq<T>, results: seq<PushResult>)
    requires |submitted| == |results| && DroppedNewest !in results
    ensures AcceptedOf(submitted, results) == submitted
  {
    if results != [] {
      var last := |results| - 1;
      NothingRefused(submitted[..last], results[..last]);
      assert submitted == submitted[..last] + [submitted[last]];
    }
  }

  lemma {:induction false} NothingEvicted<T>(accepted: seq<T>, fates: seq<Fate>)
    requires |fates| <= |accepted| && Evicted !in fates
    ensures PoppedOf(accepted, fates) == accepted[..|fates|]
  {
    if fates != [] {
      var last := |fates| - 1;
      NothingEvicted(accepted, fates[..last]);
      assert fates[last] == Popped;
      assert accepted[..last + 1] == accepted[..last] + [accepted[last]];
    }
  }

  /** Only DropNewest refuses, and only DropOldest evicts. */
  ghost predicate LossesByPolicy<T>(s: State<T>) {
    && (DroppedNewest in s.history.results ==> s.policy == DropNewest)
    && (DroppedOldest in s.history.results || Evicted in s.history.fates ==> s.policy == DropOldest)
  }

  lemma KeptByPolicy<T>(s: State<T>)
    requires Conserved(s) && ByPolicy(s)
    ensures LossesByPolicy(s)
    ensures var h := s.history; |h.submitted| == |h.results| && h.accepted == AcceptedOf(h.submitted, h.results)
    ensures s.policy == Block ==> PoppedValues(s) + s.items == s.history.submitted
    ensures s.policy == DropNewest ==> PoppedValues(s) + s.items == s.history.accepted
    ensures s.policy == DropOldest ==>
              var items, submitted := s.items, s.history.submitted;
              && s.history.accepted == submitted
              && |items| <= |submitted| && items == submitted[|submitted| - |items|..]
  {
    var h := s.history;
    assert s.items == h.accepted[|h.accepted| - |s.items|..];
    if s.policy != DropOldest {
      NothingEvicted(h.accepted, h.fates);
    }
    if s.policy != DropNewest {
      NothingRefused(h.submitted, h.results);
    }
  }

  /** Each policy loses what it says. What is taken in is what was submitted, less what was answered
      DroppedNewest, which happens only under DropNewest; what is taken in is handed out or queued,
      less what was evicted, which happens only under DropOldest. So under Block nothing is lost;
      under DropNewest nothing that was taken in is lost; under DropOldest nothing is refused, and
      the queue is always the end of what was submitted. */
  lemma PolicyDecidesLosses<T>(ops: seq<Op<T>>)
    ensures Conserved(Run(ops)) && LossesByPolicy(Run(ops))
    ensures var h := Run(ops).history;
            |h.submitted| == |h.results| && h.accepted == AcceptedOf(h.submitted, h.results)
    ensures Run(ops).policy == Block ==> PoppedValues(Run(ops)) + Run(ops).items == Run(ops).history.submitted
    ensures Run(ops).policy == DropNewest ==> PoppedValues(Run(ops)) + Run(ops).items == Run(ops).history.accepted
    ensures Run(ops).policy == DropOldest ==>
              var items, submitted := Run(ops).items, Run(ops).history.submitted;
              && Run(ops).history.accepted == submitted
              && |items| <= |submitted| && items == submitted[|submitted| - |items|..]
  {
    LedgerAlways(ops);
    ByPolicyAlways(ops);
    KeptByPolicy(Run(ops));
  }

  /** Which answer a push gets. One that waits is under Block and finds the queue full; the drop policies
      never wait. */
  lemma PushAnswers<T>(s: State<T>, generation: nat, value: T)
    ensures PushEnter(s, generation, value).1 == Returned(Closed) <==> s.closed || generation != s.generation
    ensures !s.closed && generation == s.generation && |s.items| < s.capacity ==>
              PushEnter(s, generation, value).1 == Returned(Enqueued)
    ensures !s.closed && generation == s.generation && |s.items| >= s.capacity ==>
              PushEnter(s, generation, value).1
              == match s.policy
                 case Block => WaitForRoom
                 case DropNewest => Returned(DroppedNewest)
                 case DropOldest => Returned(DroppedOldest)
  {
  }

  /** What each answer means for the queue and the drop counter. */
  lemma PushLeaves<T>(s: State<T>, generation: nat, value: T)
    ensures var t := PushEnter(s, generation, value).0;
            match PushEnter(s, generation, value).1
            case Returned(Enqueued) => t.items == s.items + [value] && t.dropped == s.dropped
            case Returned(DroppedOldest) => t.items == s.items[1..] + [value] && t.dropped == s.dropped + 1
            case Returned(DroppedNewest) => t.items == s.items && t.dropped == s.dropped + 1
            case _ => t == s
  {
  }

  // ---------------------------------------------------------------- what consumers receive

  /** The accepted values whose fate is Popped, in order. */
  function PoppedOf<T>(accepted: seq<T>, fates: seq<Fate>): seq<T>
    requires |fates| <= |accepted|
  {
    if fates == [] then [] else
      var last := |fates| - 1;
      PoppedOf(accepted, fates[..last]) + if fates[last] == Popped then [accepted[last]] else []
  }

  function PoppedValues<T>(s: State<T>): seq<T>
    requires |s.history.fates| <= |s.history.accepted|
  {
    PoppedOf(s.history.accepted, s.history.fates)
  }

  /** The accepted values that were not evicted, in order of acceptance: `evicted(i)` decides. */
  function SurvivorsOf<T>(accepted: seq<T>, fates: seq<Fate>): seq<T>
    requires |fates| <= |accepted|
  {
    if accepted == [] then [] else
      var last := |accepted| - 1;
      if last < |fates| then
        SurvivorsOf(accepted[..last], fates[..last]) + if fates[last] == Evicted then [] else [accepted[last]]
      else
        SurvivorsOf(accepted[..last], fates) + [accepted[last]]
  }

  lemma {:induction false} PoppedOfPrefix<T>(accepted: seq<T>, more: seq<T>, fates: seq<Fate>)
    requires |fates| <= |accepted|
    ensures PoppedOf(accepted + more, fates) == PoppedOf(accepted, fates)
  {
    if fates != [] {
      PoppedOfPrefix(accepted, more, fates[..|fates| - 1]);
    }
  }

  /** Popped values followed by the queue are exactly the survivors. */
  lemma {:induction false} SurvivorsSplit<T>(accepted: seq<T>, fates: seq<Fate>)
    requires |fates| <= |accepted|
    ensures SurvivorsOf(accepted, fates) == PoppedOf(accepted, fates) + accepted[|fates|..]
  {
    if accepted != [] {
      var last := |accepted| - 1;
      var before := accepted[..last];
      assert accepted == before + [accepted[last]];
      if last < |fates| {
        SurvivorsSplit(before, fates[..last]);
        PoppedOfPrefix(before, [accepted[last]], fates[..last]);
        assert accepted[|fates|..] == [] && before[last..] == [];
      } else {
        SurvivorsSplit(before, fates);
        PoppedOfPrefix(before, [accepted[last]], fates);
        assert accepted[|fates|..] == before[|fates|..] + [accepted[last]];
      }
    }
  }

  lemma RemoveFront<T>(s: State<T>)
    requires Conserved(s) && s.items != []
    ensures var t := Remove(s, Popped);
            Conserved(t) && PoppedValues(t) == PoppedValues(s) + [s.items[0]]
  {
    var t := Remove(s, Popped);
    assert t.history.fates[..|s.history.fates|] == s.history.fates;
  }

  lemma {:induction false} TakeSplits<T>(s: State<T>, count: nat)
    ensures var (t, values) := Take(s, count);
            && |values| == (if count < |s.items| then count else |s.items|)
            && s.items == values + t.items
            && t == s.(items := t.items, history := t.history)
            && t.history.accepted == s.history.accepted
            && t.history.results == s.history.results
    decreases count
  {
    if count > 0 && s.items != [] {
      TakeSplits(Remove(s, Popped), count - 1);
    }
  }

  lemma {:induction false} TakePops<T>(s: State<T>, count: nat)
    requires Conserved(s)
    ensures var (t, values) := Take(s, count);
            Conserved(t) && PoppedValues(t) == PoppedValues(s) + values
    decreases count
  {
    if count > 0 && s.items != [] {
      RemoveFront(s);
      TakePops(Remove(s, Popped), count - 1);
      var (t, rest) := Take(Remove(s, Popped), count - 1);
      assert PoppedValues(t) == PoppedValues(s) + ([s.items[0]] + rest);
    }
  }

  /** Taking a batch hands out the front of the queue, extends the popped values by exactly that,
      and touches nothing else. */
  lemma TakeHandsOutFront<T>(s: State<T>, count: nat)
    requires Conserved(s)
    ensures var (t, values) := Take(s, count);
            && Conserved(t)
            && |values| == (if count < |s.items| then count else |s.items|)
            && s.items == values + t.items
            && t.history.accepted == s.history.accepted
            && PoppedValues(t) == PoppedValues(s) + values
            && t == s.(items := t.items, history := t.history)
            && t.history.results == s.history.results
  {
    TakeSplits(s, count);
    TakePops(s, count);
  }

  /** What a push may do to the history: accept its value, at most evicting one; nothing at all when
      the queue is closed, has moved on to another generation, or the push has to wait. */
  ghost predicate PushedOrNot<T>(s: State<T>, t: State<T>, generation: nat, value: T)
    requires |s.history.fates| <= |s.history.accepted| && |t.history.fates| <= |t.history.accepted|
  {
    && t.closed == s.closed && t.generation == s.generation
    && PoppedValues(t) == PoppedValues(s)
    && (t.history.fates == s.history.fates || t.history.fates == s.history.fates + [Evicted])
    && (t == s || (!s.closed && generation == s.generation && t.history.accepted == s.history.accepted + [value])
        || (!s.closed && generation == s.generation && t.history.accepted == s.history.accepted
            && t.items == s.items && t.history.fates == s.history.fates))
  }

  lemma EmplaceEffect<T>(s: State<T>, value: T, result: PushResult)
    requires Conserved(s)
    ensures var t := Emplace(s, value, result); Conserved(t) && PoppedValues(t) == PoppedValues(s)
  {
    PoppedOfPrefix(s.history.accepted, [value], s.history.fates);
  }

  lemma EvictEffect<T>(s: State<T>)
    requires Conserved(s) && s.items != []
    ensures var t := Remove(s, Evicted); Conserved(t) && PoppedValues(t) == PoppedValues(s)
  {
    assert (s.history.fates + [Evicted])[..|s.history.fates|] == s.history.fates;
  }

  lemma EnterPreservesPopped<T>(s: State<T>, generation: nat, value: T)
    requires Conserved(s)
    ensures var (t, outcome) := PushEnter(s, generation, value);
            Conserved(t) && PushedOrNot(s, t, generation, value) && (outcome.WaitForRoom? ==> t == s)
  {
    EmplaceEffect(s, value, Enqueued);
    if s.items != [] {
      var evicted := Remove(s, Evicted);
      EvictEffect(s);
      EmplaceEffect(evicted.(dropped := evicted.dropped + 1), value, DroppedOldest);
    }
  }

  lemma ResumePreservesPopped<T>(s: State<T>, generation: nat, value: T)
    requires Conserved(s)
    ensures var (t, outcome) := PushResume(s, generation, value);
            Conserved(t) && PushedOrNot(s, t, generation, value) && (outcome.WaitForRoom? ==> t == s)
  {
    EmplaceEffect(s, value, Enqueued);
  }

  lemma PushPreservesPopped<T>(s: State<T>, generation: nat, value: T)
    requires Conserved(s)
    ensures var (t, outcome) := PushEnter(s, generation, value);
            Conserved(t) && PushedOrNot(s, t, generation, value) && (outcome.WaitForRoom? ==> t == s)
    ensures var (t, outcome) := PushResume(s, generation, value);
            Conserved(t) && PushedOrNot(s, t, generation, value) && (outcome.WaitForRoom? ==> t == s)
  {
    EnterPreservesPopped(s, generation, value);
    ResumePreservesPopped(s, generation, value);
  }
}
