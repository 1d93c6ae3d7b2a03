/** The queue as the object the program mutates. Each method is one critical section; a section
    that ends in a condition-variable wait returns WaitForRoom or WaitForData, and the thread comes
    back through the corresponding Resume method. `signal` is the notification the thread issues
    after it has released the mutex. */
module BlockingQueueClass {
  import opened Sizes
  import opened QueueSpec

  class BlockingQueue<T> {
    var queue: seq<T>
    var capacity: pos
    var highWaterMark: nat
    var generation: nat
    var droppedCount: nat
    var overflowPolicy: OverflowPolicy
    var closed: bool
    ghost var history: History<T>

    ghost function Abs(): State<T>
      reads this
    {
      State(queue, capacity, highWaterMark, generation, droppedCount, overflowPolicy, closed, history)
    }

    ghost predicate Valid()
      reads this
    {
      Ledger(Abs())
    }

    constructor ()
      ensures Valid() && Abs() == Initial()
    {
      queue, capacity, highWaterMark := [], SIZE_MAX, 0;
      generation, droppedCount, overflowPolicy, closed := 0, 0, Block, false;
      history := NoHistory();
      new;
      ResetLedger(Initial<T>(), 1, Block);
    }

    method Push(expectedGeneration: nat, value: T) returns (outcome: PushOutcome, signal: Signal)
      requires Valid()
      modifies this
      ensures Valid()
      ensures (Abs(), outcome) == PushEnter(old(Abs()), expectedGeneration, value)
      ensures var stale := old(closed) || expectedGeneration != old(generation);
              var full := old(|queue|) >= old(capacity);
              && (outcome == Returned(Closed) <==> stale)
              && (outcome == WaitForRoom <==> !stale && full && old(overflowPolicy) == Block)
              && (outcome == Returned(DroppedNewest) <==> !stale && full && old(overflowPolicy) == DropNewest)
              && (outcome == Returned(DroppedOldest) <==> !stale && full && old(overflowPolicy) == DropOldest)
              && (outcome == Returned(Enqueued) ==> queue == old(queue) + [value])
              && (outcome == Returned(DroppedOldest) ==> queue == old(queue)[1..] + [value])
              && (outcome !in {Returned(Enqueued), Returned(DroppedOldest)} ==> queue == old(queue))
      ensures signal == if outcome in {Returned(Enqueued), Returned(DroppedOldest)} then OneConsumer else NoSignal
    {
      PushAnswers(Abs(), expectedGeneration, value);
      PushLeaves(Abs(), expectedGeneration, value);
      StepKeepsLedger(Abs(), OpPush(expectedGeneration, value));
      outcome, signal := PushLocked(expectedGeneration, value);
    }

    /** A blocked push back from notFull, evaluating the predicate of its wait. */
    method ResumePush(expectedGeneration: nat, value: T) returns (outcome: PushOutcome, signal: Signal)
      requires Valid()
      modifies this
      ensures Valid()
      ensures (Abs(), outcome) == PushResume(old(Abs()), expectedGeneration, value)
      ensures signal == PushSignal(outcome)
    {
      StepKeepsLedger(Abs(), OpResume(expectedGeneration, value));
      outcome, signal := WaitForRoomThenEmplace(expectedGeneration, value);
    }

    method PushLocked(expectedGeneration: nat, value: T) returns (outcome: PushOutcome, signal: Signal)
      modifies this
      ensures (Abs(), outcome) == PushEnter(old(Abs()), expectedGeneration, value)
      ensures signal == PushSignal(outcome)
    {
      if closed || expectedGeneration != generation {
        return Returned(Closed), NoSignal;
      }
      if overflowPolicy == Block {
        outcome, signal := WaitForRoomThenEmplace(expectedGeneration, value);
        return;
      } else if |queue| >= capacity {
        if overflowPolicy == DropNewest {
          history := Refuse(Abs(), value).history;
          droppedCount := droppedCount + 1;
          return Returned(DroppedNewest), NoSignal;
        }
        history := Remove(Abs(), Evicted).history;
        queue := queue[1..];
        droppedCount := droppedCount + 1;
        EmplaceLocked(value, DroppedOldest);
        return Returned(DroppedOldest), OneConsumer;
      }
      EmplaceLocked(value, Enqueued);
      return Returned(Enqueued), OneConsumer;
    }

    method WaitForRoomThenEmplace(expectedGeneration: nat, value: T)
      returns (outcome: PushOutcome, signal: Signal)
      modifies this
      ensures (Abs(), outcome) == PushResume(old(Abs()), expectedGeneration, value)
      ensures signal == PushSignal(outcome)
    {
      if !(closed || expectedGeneration != generation || |queue| < capacity) {
        return WaitForRoom, NoSignal;
      }
      if closed || expectedGeneration != generation {
        return Returned(Closed), NoSignal;
      }
      EmplaceLocked(value, Enqueued);
      return Returned(Enqueued), OneConsumer;
    }

    method EmplaceLocked(value: T, ghost result: PushResult)
      modifies this
      ensures Abs() == Emplace(old(Abs()), value, result)
    {
      queue := queue + [value];
      history := Emplace(old(Abs()), value, result).history;
      if |queue| > highWaterMark {
        highWaterMark := |queue|;
      }
    }

    method Pop() returns (outcome: PopOutcome<T>, signal: Signal)
      requires Valid()
      modifies this
      ensures Valid()
      ensures (Abs(), outcome) == PopBatch(old(Abs()), 1, false)
      ensures signal == if outcome.Got? then OneProducer else NoSignal
      ensures outcome.Got? ==> outcome.values == old(queue)[..1]
    {
      StepKeepsLedger(Abs(), OpPop(1, false));
      TakeHandsOutFront(Abs(), 1);
      if !(closed || queue != []) {
        return WaitForData, NoSignal;
      }
      if queue == [] {
        return Nothing, NoSignal;
      }
      var value := queue[0];
      queue := queue[1..];
      history := Remove(old(Abs()), Popped).history;
      assert Take(Abs(), 0) == (Abs(), []) && [value] + [] == [value];
      return Got([value]), OneProducer;
    }

    method PopBatchUntimed(maxCount: nat) returns (outcome: PopOutcome<T>, signal: Signal)
      requires Valid()
      modifies this
      ensures Valid()
      ensures (Abs(), outcome) == PopBatch(old(Abs()), maxCount, false)
      ensures signal == if outcome.Got? then AllProducers else NoSignal
      ensures outcome.Got? ==> |outcome.values| == (if maxCount < |old(queue)| then maxCount else |old(queue)|)
                               && old(queue) == outcome.values + queue
    {
      StepKeepsLedger(Abs(), OpPop(maxCount, false));
      TakeHandsOutFront(Abs(), maxCount);
      outcome, signal := PopBatchImpl(maxCount, false);
    }

    /** popBatchFor: `expired` is true once the wait has reached its deadline. */
    method PopBatchFor(maxCount: nat, expired: bool) returns (outcome: PopOutcome<T>, signal: Signal)
      requires Valid()
      modifies this
      ensures Valid()
      ensures (Abs(), outcome) == PopBatch(old(Abs()), maxCount, expired)
      ensures signal == if outcome.Got? then AllProducers else NoSignal
      ensures outcome == Nothing ==> maxCount == 0 || queue == [] == old(queue)
    {
      StepKeepsLedger(Abs(), OpPop(maxCount, expired));
      outcome, signal := PopBatchImpl(maxCount, expired);
    }

    method PopBatchImpl(maxCount: nat, expired: bool) returns (outcome: PopOutcome<T>, signal: Signal)
      modifies this
      ensures (Abs(), outcome) == PopBatch(old(Abs()), maxCount, expired)
      ensures signal == PopSignal(outcome, false)
    {
      if maxCount == 0 {
        return Nothing, NoSignal;
      }
      if !(closed || queue != []) {
        return if expired then Nothing else WaitForData, NoSignal;
      }
      if queue == [] {
        return Nothing, NoSignal;
      }
      var values := [];
      var index := 0;
      while index < maxCount && queue != []
        invariant 0 <= index <= maxCount
        invariant Take(old(Abs()), maxCount).0 == Take(Abs(), maxCount - index).0
        invariant Take(old(Abs()), maxCount).1 == values + Take(Abs(), maxCount - index).1
      {
        values := values + [queue[0]];
        history := Remove(Abs(), Popped).history;
        queue := queue[1..];
        index := index + 1;
      }
      assert values + [] == values;
      return Got(values), AllProducers;
    }

    method CloseQueue()
      requires Valid()
      modifies this`closed
      ensures Valid() && Abs() == Close(old(Abs()))
    {
      closed := true;
    }

    method ResetQueue(newCapacity: nat, policy: OverflowPolicy)
      modifies this
      ensures Valid() && Abs() == Reset(old(Abs()), newCapacity, policy)
    {
      ResetLedger(Abs(), newCapacity, policy);
      queue := [];
      capacity := if newCapacity == 0 then 1 else newCapacity;
      overflowPolicy := policy;
      highWaterMark := 0;
      droppedCount := 0;
      closed := false;
      generation := generation + 1;
      history := NoHistory();
    }
  }
}
