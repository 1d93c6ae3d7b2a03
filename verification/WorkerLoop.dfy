/** The worker's loop as the program runs it: clock readings, formatting, fan-out to the sinks and
    the flush policies. What the rest of the system does is given as a script with one turn for each
    iteration; a script of any length may end anywhere, so what holds when it runs out holds at
    every loop head. Exceptions and the interleaving with other threads are in Lifecycle. */
module WorkerLoop {
  import opened Formatting
  import opened Lifecycle

  const NS_PER_MS: int := 1_000_000

  /** One iteration: the clock before the pop, what the pop returned (None for false), the clock when
      the flush deadline is checked, the clock when the deadline is renewed, and whether the queue
      was found closed. */
  datatype Turn = Turn(start: int, batch: Option<seq<LogRecord>>, checked: int, renewed: int, closed: bool)

  /** A clock that never goes back. */
  ghost predicate Monotone(begun: int, turns: seq<Turn>) {
    forall i | 0 <= i < |turns| ::
      Clock(begun, turns, i) <= turns[i].start <= turns[i].checked <= turns[i].renewed
  }

  /** The last reading before turn i. */
  ghost function Clock(begun: int, turns: seq<Turn>, i: nat): int
    requires i <= |turns|
  {
    if i == 0 then begun else turns[i - 1].renewed
  }

  /** The turn on which the loop ends. */
  predicate LastTurn(turn: Turn) {
    turn.batch.None? && turn.closed
  }

  /** The loop has gone on past every turn but the one it ended on. */
  ghost predicate EndsAt(turns: seq<Turn>, taken: nat, exited: bool)
    requires taken <= |turns|
  {
    forall i | 0 <= i < taken :: LastTurn(turns[i]) <==> exited && i == taken - 1
  }

  /** How long popBatchFor may wait, in milliseconds. */
  function Timeout(now: int, nextFlush: int): int {
    if now >= nextFlush then 0 else (nextFlush - now) / NS_PER_MS
  }

  /** Rounding to milliseconds never makes the wait overrun the deadline, and cuts it short by less
      than one millisecond. */
  lemma TimeoutWithinDeadline(now: int, nextFlush: int)
    ensures var remaining := if now >= nextFlush then 0 else nextFlush - now;
            var timeout := Timeout(now, nextFlush);
            timeout >= 0 && timeout * NS_PER_MS <= remaining < (timeout + 1) * NS_PER_MS
  {
  }

  lemma TimeoutWithinInterval(now: int, nextFlush: int, interval: int)
    ensures 0 <= Timeout(now, nextFlush)
    ensures interval > 0 && nextFlush <= now + interval * NS_PER_MS ==> Timeout(now, nextFlush) <= interval
  {
    TimeoutWithinDeadline(now, nextFlush);
  }

  function Repeat(x: int, count: nat): seq<int> {
    seq(count, _ => x)
  }

  function Batch(turn: Turn): seq<LogRecord> {
    match turn.batch
    case None => []
    case Some(batch) => batch
  }

  /** All the records that were popped, in order. */
  function Handed(turns: seq<Turn>): seq<LogRecord> {
    if turns == [] then [] else Handed(turns[..|turns| - 1]) + Batch(turns[|turns| - 1])
  }

  /** For each of them, the clock before it was popped. */
  function Stamps(turns: seq<Turn>): (stamps: seq<int>)
    ensures |stamps| == |Handed(turns)|
  {
    if turns == [] then [] else
      var last := turns[|turns| - 1];
      Stamps(turns[..|turns| - 1]) + Repeat(last.start, |Batch(last)|)
  }

  lemma HandedSnoc(turns: seq<Turn>, n: nat)
    requires n < |turns|
    ensures Handed(turns[..n + 1]) == Handed(turns[..n]) + Batch(turns[n])
    ensures Stamps(turns[..n + 1]) == Stamps(turns[..n]) + Repeat(turns[n].start, |Batch(turns[n])|)
  {
    assert turns[..n + 1][..n] == turns[..n];
  }

  function Mapped<X, Y>(f: X -> Y, xs: seq<X>): seq<Y> {
    seq(|xs|, i requires 0 <= i < |xs| => f(xs[i]))
  }

  function LineOf(calendar: int -> string): LogRecord -> string {
    r => LineText(calendar, r)
  }

  function Lines(calendar: int -> string, records: seq<LogRecord>): seq<string> {
    Mapped(LineOf(calendar), records)
  }

  lemma MappedSnoc<X, Y>(f: X -> Y, xs: seq<X>, more: seq<X>)
    ensures Mapped(f, xs + more) == Mapped(f, xs) + Mapped(f, more)
  {
  }

  lemma LinesSnoc(calendar: int -> string, records: seq<LogRecord>, more: seq<LogRecord>)
    ensures Lines(calendar, records + more) == Lines(calendar, records) + Lines(calendar, more)
  {
    MappedSnoc(LineOf(calendar), records, more);
  }

  // ---------------------------------------------------------------- the flush rules

  /** When to flush; the interval is in nanoseconds. */
  datatype Rules = Rules(policy: FlushPolicy, interval: int, threshold: Option<Level>)

  ghost predicate SomeAtOrAbove(records: seq<LogRecord>, from: nat, threshold: Option<Level>) {
    threshold.Some? && exists k | from <= k < |records| :: Rank(records[k].level) >= Rank(threshold.value)
  }

  /** Whether the sinks are flushed in a turn, given the deadline. */
  ghost predicate Due(rules: Rules, turn: Turn, deadline: int) {
    || (rules.policy == EveryBatch && turn.batch.Some?)
    || SomeAtOrAbove(Batch(turn), 0, rules.threshold)
    || (rules.policy == Periodic && turn.checked >= deadline)
  }

  /** The deadline at the start of turn n. */
  ghost function Deadline(rules: Rules, begun: int, turns: seq<Turn>, n: nat): int
    requires n <= |turns|
    decreases n, 0
  {
    if n == 0 then begun + rules.interval
    else if rules.policy == Periodic && Flushes(rules, begun, turns, n - 1) then turns[n - 1].renewed + rules.interval
    else Deadline(rules, begun, turns, n - 1)
  }

  ghost predicate Flushes(rules: Rules, begun: int, turns: seq<Turn>, i: nat)
    requires i < |turns|
    decreases i, 1
  {
    Due(rules, turns[i], Deadline(rules, begun, turns, i))
  }

  /** How often the sinks have been flushed in the first n turns. */
  ghost function FlushCount(rules: Rules, begun: int, turns: seq<Turn>, n: nat): nat
    requires n <= |turns|
  {
    if n == 0 then 0
    else FlushCount(rules, begun, turns, n - 1) + if Flushes(rules, begun, turns, n - 1) then 1 else 0
  }

  /** How many of the records handed over in them have been flushed. */
  ghost function FlushedUpTo(rules: Rules, begun: int, turns: seq<Turn>, n: nat): nat
    requires n <= |turns|
  {
    if n == 0 then 0
    else if Flushes(rules, begun, turns, n - 1) then |Handed(turns[..n])|
    else FlushedUpTo(rules, begun, turns, n - 1)
  }

  /** The latest check of the deadline. */
  function Checked(begun: int, turns: seq<Turn>, n: nat): int
    requires n <= |turns|
  {
    if n == 0 then begun else turns[n - 1].checked
  }

  // ---------------------------------------------------------------- no record waits too long

  /** What the flush policy owes at a loop head: of the records in `handed` the first `flushed` have been
      flushed; `checked` is the latest check of the deadline. */
  ghost predicate Owed(rules: Rules, handed: seq<LogRecord>, stamps: seq<int>, flushed: nat, checked: int) {
    && flushed <= |handed| == |stamps|
    && (rules.policy == EveryBatch ==> flushed == |handed|)
    && !SomeAtOrAbove(handed, flushed, rules.threshold)
    && (rules.policy == Periodic ==> forall k | flushed <= k < |handed| :: checked - stamps[k] < rules.interval)
  }

  /** The same in terms of the next deadline. */
  ghost predicate Kept(rules: Rules, handed: seq<LogRecord>, stamps: seq<int>, flushed: nat, checked: int,
                       deadline: int)
  {
    && flushed <= |handed| == |stamps|
    && (rules.policy == EveryBatch ==> flushed == |handed|)
    && !SomeAtOrAbove(handed, flushed, rules.threshold)
    && (rules.policy == Periodic ==>
          forall k | flushed <= k < |handed| :: checked < deadline <= stamps[k] + rules.interval)
  }

  lemma NothingUrgent(handed: seq<LogRecord>, batch: seq<LogRecord>, flushed: nat, threshold: Option<Level>)
    requires !SomeAtOrAbove(handed, flushed, threshold) && !SomeAtOrAbove(batch, 0, threshold)
    ensures !SomeAtOrAbove(handed + batch, flushed, threshold)
  {
    forall k | flushed <= k < |handed + batch| && threshold.Some?
      ensures Rank((handed + batch)[k].level) < Rank(threshold.value)
    {
      if k >= |handed| {
        assert (handed + batch)[k] == batch[k - |handed|];
      }
    }
  }

  lemma DeadlineWithinInterval(rules: Rules, begun: int, turns: seq<Turn>, n: nat)
    requires n <= |turns| && Monotone(begun, turns)
    ensures Deadline(rules, begun, turns, n) <= Clock(begun, turns, n) + rules.interval
  {
    if n > 0 {
      DeadlineWithinInterval(rules, begun, turns, n - 1);
      assert Clock(begun, turns, n - 1) <= turns[n - 1].start <= turns[n - 1].checked <= turns[n - 1].renewed;
    }
  }

  lemma TurnKeeps(rules: Rules, turn: Turn, deadline: int, handed: seq<LogRecord>, stamps: seq<int>,
                  flushed: nat, checked: int)
    requires Kept(rules, handed, stamps, flushed, checked, deadline) && !Due(rules, turn, deadline)
    requires rules.policy == Periodic ==> deadline <= turn.start + rules.interval
    ensures Kept(rules, handed + Batch(turn), stamps + Repeat(turn.start, |Batch(turn)|), flushed, turn.checked,
                 deadline)
  {
    NothingUrgent(handed, Batch(turn), flushed, rules.threshold);
    if turn.batch.None? {
      assert handed + Batch(turn) == handed;
    }
  }

  lemma {:induction false} KeptAtHead(rules: Rules, begun: int, turns: seq<Turn>, n: nat)
    requires n <= |turns| && Monotone(begun, turns)
    ensures Kept(rules, Handed(turns[..n]), Stamps(turns[..n]), FlushedUpTo(rules, begun, turns, n),
                 Checked(begun, turns, n), Deadline(rules, begun, turns, n))
  {
    if n > 0 {
      var turn, deadline := turns[n - 1], Deadline(rules, begun, turns, n - 1);
      KeptAtHead(rules, begun, turns, n - 1);
      HandedSnoc(turns, n - 1);
      DeadlineWithinInterval(rules, begun, turns, n - 1);
      assert Clock(begun, turns, n - 1) <= turn.start;
      if !Due(rules, turn, deadline) {
        TurnKeeps(rules, turn, deadline, Handed(turns[..n - 1]), Stamps(turns[..n - 1]),
                  FlushedUpTo(rules, begun, turns, n - 1), Checked(begun, turns, n - 1));
      }
    }
  }

  /** No record waits too long. At every loop head EveryBatch leaves nothing unflushed, no record at or
      above the threshold is unflushed, and under Periodic what is unflushed had been popped less than an
      interval before the latest check. */
  lemma OwedAtHead(rules: Rules, begun: int, turns: seq<Turn>, n: nat)
    requires n <= |turns| && Monotone(begun, turns)
    ensures Owed(rules, Handed(turns[..n]), Stamps(turns[..n]), FlushedUpTo(rules, begun, turns, n),
                 Checked(begun, turns, n))
  {
    KeptAtHead(rules, begun, turns, n);
  }

  // ---------------------------------------------------------------- no flush without need

  /** A turn in which the sinks are flushed, or more records become flushed, is one with a batch under
      EveryBatch, one whose batch holds a record at or above the threshold, or one whose check finds the
      deadline reached under Periodic; and in every such turn they are flushed. */
  lemma FlushedOnlyWhenDue(rules: Rules, begun: int, turns: seq<Turn>, i: nat)
    requires i < |turns|
    ensures var before, after := FlushCount(rules, begun, turns, i), FlushCount(rules, begun, turns, i + 1);
            && before <= after <= before + 1
            && (after > before <==>
                  || (rules.policy == EveryBatch && turns[i].batch.Some?)
                  || (turns[i].batch.Some? && rules.threshold.Some?
                      && exists k | 0 <= k < |turns[i].batch.value| ::
                           Rank(turns[i].batch.value[k].level) >= Rank(rules.threshold.value))
                  || (rules.policy == Periodic && turns[i].checked >= Deadline(rules, begun, turns, i)))
            && FlushedUpTo(rules, begun, turns, i + 1)
               == if after > before then |Handed(turns[..i + 1])| else FlushedUpTo(rules, begun, turns, i)
  {
  }

  /** Under OnStop, and as long as no record reaches the threshold, nothing is flushed while the loop
      runs. */
  lemma {:induction false} OnStopDoesNotFlush(rules: Rules, begun: int, turns: seq<Turn>, n: nat)
    requires n <= |turns| && rules.policy == OnStop && !SomeAtOrAbove(Handed(turns[..n]), 0, rules.threshold)
    ensures FlushCount(rules, begun, turns, n) == 0 && FlushedUpTo(rules, begun, turns, n) == 0
  {
    if n > 0 {
      HandedSnoc(turns, n - 1);
      UrgentParts(Handed(turns[..n - 1]), Batch(turns[n - 1]), rules.threshold);
      OnStopDoesNotFlush(rules, begun, turns, n - 1);
    }
  }

  lemma UrgentParts(a: seq<LogRecord>, b: seq<LogRecord>, threshold: Option<Level>)
    requires !SomeAtOrAbove(a + b, 0, threshold)
    ensures !SomeAtOrAbove(a, 0, threshold) && !SomeAtOrAbove(b, 0, threshold)
  {
    forall k | 0 <= k < |a| && threshold.Some? ensures Rank(a[k].level) < Rank(threshold.value) {
      assert (a + b)[k] == a[k];
    }
    forall k | 0 <= k < |b| && threshold.Some? ensures Rank(b[k].level) < Rank(threshold.value) {
      assert (a + b)[|a| + k] == b[k];
    }
  }

  /** Turn i made the latest flush before turn n, and the deadline is one interval after its renewal. */
  ghost predicate DeadlineFrom(rules: Rules, begun: int, turns: seq<Turn>, n: nat, i: nat)
    requires n <= |turns|
  {
    && i < n && Flushes(rules, begun, turns, i)
    && FlushCount(rules, begun, turns, n) == FlushCount(rules, begun, turns, i) + 1
    && Deadline(rules, begun, turns, n) == turns[i].renewed + rules.interval
  }

  /** Under Periodic the deadline is one interval after the latest flush; before the first flush, one
      interval after the loop began. */
  lemma {:induction false} DeadlineFollowsLastFlush(rules: Rules, begun: int, turns: seq<Turn>, n: nat)
    requires n <= |turns| && rules.policy == Periodic
    ensures || (FlushCount(rules, begun, turns, n) == 0 && Deadline(rules, begun, turns, n) == begun + rules.interval)
            || exists i :: DeadlineFrom(rules, begun, turns, n, i)
  {
    if n > 0 {
      if Flushes(rules, begun, turns, n - 1) {
        assert DeadlineFrom(rules, begun, turns, n, n - 1);
      } else {
        DeadlineFollowsLastFlush(rules, begun, turns, n - 1);
        if FlushCount(rules, begun, turns, n - 1) != 0 {
          var i :| DeadlineFrom(rules, begun, turns, n - 1, i);
          assert DeadlineFrom(rules, begun, turns, n, i);
        }
      }
    }
  }

  lemma RenewedInOrder(begun: int, turns: seq<Turn>, n: nat)
    requires 0 < n < |turns| && Monotone(begun, turns)
    ensures turns[n - 1].renewed <= turns[n].renewed
  {
    assert Clock(begun, turns, n) <= turns[n].start <= turns[n].checked <= turns[n].renewed;
  }

  lemma {:induction false} DeadlineAfterFlush(rules: Rules, begun: int, turns: seq<Turn>, i: nat, n: nat)
    requires i < n <= |turns| && rules.policy == Periodic && Monotone(begun, turns)
    requires Flushes(rules, begun, turns, i)
    ensures turns[i].renewed + rules.interval <= Deadline(rules, begun, turns, n)
    ensures turns[i].renewed <= turns[n - 1].renewed
  {
    if i < n - 1 {
      DeadlineAfterFlush(rules, begun, turns, i, n - 1);
      RenewedInOrder(begun, turns, n - 1);
    }
  }

  /** Under Periodic two flushes are at least an interval apart, unless the later one was forced by a
      record at or above the threshold. */
  lemma PeriodicFlushesAreApart(rules: Rules, begun: int, turns: seq<Turn>, i: nat, j: nat)
    requires i < j < |turns| && rules.policy == Periodic && Monotone(begun, turns)
    requires Flushes(rules, begun, turns, i) && Flushes(rules, begun, turns, j)
    requires !SomeAtOrAbove(Batch(turns[j]), 0, rules.threshold)
    ensures turns[i].renewed + rules.interval <= turns[j].checked
  {
    DeadlineAfterFlush(rules, begun, turns, i, j);
  }

  // ---------------------------------------------------------------- the worker

  class Sink {
    var received: seq<string>
    var flushed: nat     // how many of them a flush has covered
    var flushCalls: nat

    method WriteBatch(batch: seq<string>)
      modifies this`received
      ensures received == old(received) + batch
    {
      received := received + batch;
    }

    method Flush()
      modifies this`flushed, this`flushCalls
      ensures flushed == |received| && flushCalls == old(flushCalls) + 1
    {
      flushed := |received|;
      flushCalls := flushCalls + 1;
    }
  }

  class Worker {
    const sinks: seq<Sink>
    const formatter: Formatter
    const flushPolicy: FlushPolicy
    const flushInterval: int  // milliseconds
    const flushAtOrAbove: Option<Level>

    constructor (sinks: seq<Sink>, formatter: Formatter, flushPolicy: FlushPolicy, flushInterval: int,
                 flushAtOrAbove: Option<Level>)
      ensures this.sinks == sinks && this.formatter == formatter && this.flushPolicy == flushPolicy
      ensures this.flushInterval == flushInterval && this.flushAtOrAbove == flushAtOrAbove
    {
      this.sinks, this.formatter, this.flushPolicy := sinks, formatter, flushPolicy;
      this.flushInterval, this.flushAtOrAbove := flushInterval, flushAtOrAbove;
    }

    ghost function TheRules(): Rules {
      Rules(flushPolicy, flushInterval * NS_PER_MS, flushAtOrAbove)
    }

    ghost predicate Distinct() {
      forall i, j | 0 <= i < j < |sinks| :: sinks[i] != sinks[j]
    }

    /** Every sink has received `lines`, the first `flushed` of them flushed, in `calls` flushes. */
    ghost predicate AllHold(lines: seq<string>, flushed: nat, calls: nat)
      reads sinks
    {
      forall i | 0 <= i < |sinks| ::
        sinks[i].received == lines && sinks[i].flushed == flushed && sinks[i].flushCalls == calls
    }

    method FormatBatch(batch: seq<LogRecord>) returns (formatted: seq<string>, flushForLevel: bool)
      requires formatter.Valid()
      modifies formatter
      ensures formatter.Valid() && formatted == Lines(formatter.calendar, batch)
      ensures flushForLevel == SomeAtOrAbove(batch, 0, flushAtOrAbove)
    {
      formatted, flushForLevel := [], false;
      for i := 0 to |batch|
        invariant formatter.Valid()
        invariant formatted == Lines(formatter.calendar, batch[..i])
        invariant flushForLevel == SomeAtOrAbove(batch[..i], 0, flushAtOrAbove)
      {
        var line := formatter.FormatMessage(batch[i]);
        OneMore(batch, i);
        formatted := formatted + [line];
        flushForLevel := flushForLevel
                         || (flushAtOrAbove.Some? && Rank(batch[i].level) >= Rank(flushAtOrAbove.value));
      }
      assert batch[..|batch|] == batch;
    }

    lemma OneMore(batch: seq<LogRecord>, i: nat)
      requires i < |batch|
      ensures Lines(formatter.calendar, batch[..i + 1])
           == Lines(formatter.calendar, batch[..i]) + [LineText(formatter.calendar, batch[i])]
      ensures SomeAtOrAbove(batch[..i + 1], 0, flushAtOrAbove)
          <==> SomeAtOrAbove(batch[..i], 0, flushAtOrAbove)
               || (flushAtOrAbove.Some? && Rank(batch[i].level) >= Rank(flushAtOrAbove.value))
    {
      assert batch[..i + 1] == batch[..i] + [batch[i]];
      LinesSnoc(formatter.calendar, batch[..i], [batch[i]]);
      SomeSnoc(batch[..i], batch[i]);
    }

    lemma SomeSnoc(before: seq<LogRecord>, record: LogRecord)
      ensures SomeAtOrAbove(before + [record], 0, flushAtOrAbove)
          <==> SomeAtOrAbove(before, 0, flushAtOrAbove)
               || (flushAtOrAbove.Some? && Rank(record.level) >= Rank(flushAtOrAbove.value))
    {
      var after := before + [record];
      assert after[|before|] == record;
      if SomeAtOrAbove(before, 0, flushAtOrAbove) {
        var k :| 0 <= k < |before| && Rank(before[k].level) >= Rank(flushAtOrAbove.value);
        assert after[k] == before[k];
      }
    }

    method WriteToSinks(batch: seq<string>, ghost lines: seq<string>, ghost flushed: nat, ghost calls: nat)
      requires Distinct() && AllHold(lines, flushed, calls)
      modifies sinks
      ensures AllHold(lines + batch, flushed, calls)
    {
      for i := 0 to |sinks|
        invariant forall j | 0 <= j < |sinks| ::
                    && sinks[j].received == (if j < i then lines + batch else lines)
                    && sinks[j].flushed == flushed && sinks[j].flushCalls == calls
      {
        sinks[i].WriteBatch(batch);
      }
    }

    method FlushSinks(ghost lines: seq<string>, ghost flushed: nat, ghost calls: nat)
      requires Distinct() && AllHold(lines, flushed, calls)
      modifies sinks
      ensures AllHold(lines, |lines|, calls + 1)
    {
      for i := 0 to |sinks|
        invariant forall j | 0 <= j < |sinks| ::
                    && sinks[j].received == lines
                    && sinks[j].flushed == (if j < i then |lines| else flushed)
                    && sinks[j].flushCalls == (if j < i then calls + 1 else calls)
      {
        sinks[i].Flush();
      }
    }

    /** The pop returned false: flush if and only if the policy is Periodic and the deadline has passed. */
    method AfterMiss(turn: Turn, deadline: int, ghost lines: seq<string>, ghost flushed: nat, ghost calls: nat)
      returns (nextFlush: int)
      requires Distinct() && AllHold(lines, flushed, calls)
      modifies sinks
      ensures if flushPolicy == Periodic && turn.checked >= deadline
              then AllHold(lines, |lines|, calls + 1) && nextFlush == turn.renewed + flushInterval * NS_PER_MS
              else AllHold(lines, flushed, calls) && nextFlush == deadline
    {
      nextFlush := deadline;
      if flushPolicy == Periodic && turn.checked >= nextFlush {
        FlushSinks(lines, flushed, calls);
        nextFlush := turn.renewed + flushInterval * NS_PER_MS;
      }
    }

    /** The pop returned a batch: format it, give it to every sink, and flush if and only if the policy
        is EveryBatch, a record reaches the threshold, or the deadline of Periodic has passed; a flush
        under Periodic, and nothing else, renews the deadline. */
    method AfterPop(turn: Turn, batch: seq<LogRecord>, deadline: int, ghost handed: seq<LogRecord>,
                    ghost flushed: nat, ghost calls: nat)
      returns (nextFlush: int)
      requires Distinct() && AllHold(Lines(formatter.calendar, handed), flushed, calls) && formatter.Valid()
      modifies sinks, formatter
      ensures formatter.Valid()
      ensures var lines := Lines(formatter.calendar, handed + batch);
              if flushPolicy == EveryBatch
                 || (flushAtOrAbove.Some?
                     && exists k | 0 <= k < |batch| :: Rank(batch[k].level) >= Rank(flushAtOrAbove.value))
                 || (flushPolicy == Periodic && turn.checked >= deadline)
              then
                && AllHold(lines, |handed + batch|, calls + 1)
                && nextFlush == if flushPolicy == Periodic then turn.renewed + flushInterval * NS_PER_MS else deadline
              else AllHold(lines, flushed, calls) && nextFlush == deadline
    {
      nextFlush := deadline;
      ghost var lines := Lines(formatter.calendar, handed + batch);
      LinesSnoc(formatter.calendar, handed, batch);
      var formatted, flushForLevel := FormatBatch(batch);
      WriteToSinks(formatted, Lines(formatter.calendar, handed), flushed, calls);
      var periodicFlush := flushPolicy == Periodic && turn.checked >= nextFlush;
      if flushPolicy == EveryBatch || flushForLevel || periodicFlush {
        FlushSinks(lines, flushed, calls);
        if flushPolicy == Periodic {
          nextFlush := turn.renewed + flushInterval * NS_PER_MS;
        }
      }
    }

    /** One iteration of the loop, as the rules say. */
    method RunTurn(turn: Turn, deadline: int, ghost handed: seq<LogRecord>, ghost flushed: nat, ghost calls: nat)
      returns (nextFlush: int, wait: int)
      requires Distinct() && AllHold(Lines(formatter.calendar, handed), flushed, calls) && formatter.Valid()
      modifies sinks, formatter
      ensures formatter.Valid()
      ensures var due := Due(TheRules(), turn, deadline);
              var all := handed + Batch(turn);
              && AllHold(Lines(formatter.calendar, all), if due then |all| else flushed,
                         if due then calls + 1 else calls)
              && nextFlush == if due && flushPolicy == Periodic then turn.renewed + flushInterval * NS_PER_MS
                              else deadline
      ensures wait == if flushPolicy == Periodic then Timeout(turn.start, deadline) else 0
    {
      wait := if flushPolicy == Periodic then Timeout(turn.start, deadline) else 0;
      if turn.batch.None? {
        assert handed + Batch(turn) == handed;
        nextFlush := AfterMiss(turn, deadline, Lines(formatter.calendar, handed), flushed, calls);
      } else {
        nextFlush := AfterPop(turn, turn.batch.value, deadline, handed, flushed, calls);
      }
    }

    /** The waits of the timed pops: what remains to the deadline, in whole milliseconds. */
    ghost predicate WaitsOut(begun: int, turns: seq<Turn>, waits: seq<int>)
      requires |waits| <= |turns|
    {
      forall i | 0 <= i < |waits| ::
        var deadline := Deadline(TheRules(), begun, turns, i);
        waits[i] == if flushPolicy == Periodic then Timeout(turns[i].start, deadline) else 0
    }

    /** All that holds at the head of the loop when `taken` turns are over. */
    ghost predicate AtHead(begun: int, turns: seq<Turn>, taken: nat, exited: bool, waits: seq<int>, nextFlush: int)
      reads sinks, formatter
      requires taken <= |turns|
    {
      && formatter.Valid()
      && AllHold(Lines(formatter.calendar, Handed(turns[..taken])), FlushedUpTo(TheRules(), begun, turns, taken),
                 FlushCount(TheRules(), begun, turns, taken))
      && nextFlush == Deadline(TheRules(), begun, turns, taken)
      && EndsAt(turns, taken, exited)
      && |waits| == taken && WaitsOut(begun, turns, waits)
    }

    method NextTurn(begun: int, turns: seq<Turn>, taken: nat, waits: seq<int>, deadline: int)
      returns (exited: bool, waits': seq<int>, nextFlush: int)
      requires Distinct() && taken < |turns| && AtHead(begun, turns, taken, false, waits, deadline)
      modifies sinks, formatter
      ensures AtHead(begun, turns, taken + 1, exited, waits', nextFlush)
    {
      var turn := turns[taken];
      HandedSnoc(turns, taken);
      ghost var flushed := FlushedUpTo(TheRules(), begun, turns, taken);
      ghost var calls := FlushCount(TheRules(), begun, turns, taken);
      var wait;
      nextFlush, wait := RunTurn(turn, deadline, Handed(turns[..taken]), flushed, calls);
      waits', exited := waits + [wait], LastTurn(turn);
    }

    /** Every sink receives the formatted lines of everything popped, once and in order; it is flushed
        when the rules say so and at no other time; each timed wait is what remains to the deadline, less
        than a millisecond short of it and never longer than the interval; and when the loop has ended,
        at the first false return on a closed queue, one more flush covers everything. */
    method Run(begun: int, turns: seq<Turn>) returns (taken: nat, exited: bool, waits: seq<int>)
      requires Distinct() && AllHold([], 0, 0) && formatter.Valid() && Monotone(begun, turns)
      requires flushPolicy == Periodic ==> flushInterval > 0
      modifies sinks, formatter
      ensures taken <= |turns| && (!exited ==> taken == |turns|) && EndsAt(turns, taken, exited)
      ensures var calls, all := FlushCount(TheRules(), begun, turns, taken), Handed(turns[..taken]);
              AllHold(Lines(formatter.calendar, all),
                      if exited then |all| else FlushedUpTo(TheRules(), begun, turns, taken),
                      if exited then calls + 1 else calls)
      ensures Owed(TheRules(), Handed(turns[..taken]), Stamps(turns[..taken]),
                   FlushedUpTo(TheRules(), begun, turns, taken), Checked(begun, turns, taken))
      ensures |waits| == taken
      ensures forall i | 0 <= i < taken ::
                if flushPolicy == Periodic then
                  var deadline := Deadline(TheRules(), begun, turns, i);
                  var remaining := if turns[i].start >= deadline then 0 else deadline - turns[i].start;
                  waits[i] * NS_PER_MS <= remaining < (waits[i] + 1) * NS_PER_MS && waits[i] <= flushInterval
                else waits[i] == 0
    {
      var nextFlush;
      taken, exited, waits, nextFlush := Loop(begun, turns);
      ghost var all := Handed(turns[..taken]);
      OwedAtHead(TheRules(), begun, turns, taken);
      WaitsAreShort(begun, turns, waits);
      if exited {
        FlushSinks(Lines(formatter.calendar, all), FlushedUpTo(TheRules(), begun, turns, taken),
                   FlushCount(TheRules(), begun, turns, taken));
      }
    }

    lemma WaitsAreShort(begun: int, turns: seq<Turn>, waits: seq<int>)
      requires |waits| <= |turns| && WaitsOut(begun, turns, waits) && Monotone(begun, turns)
      requires flushPolicy == Periodic ==> flushInterval > 0
      ensures flushPolicy == Periodic ==>
                forall i | 0 <= i < |waits| ::
                  var deadline := Deadline(TheRules(), begun, turns, i);
                  var remaining := if turns[i].start >= deadline then 0 else deadline - turns[i].start;
                  waits[i] * NS_PER_MS <= remaining < (waits[i] + 1) * NS_PER_MS && waits[i] <= flushInterval
    {
      forall i | 0 <= i < |waits| && flushPolicy == Periodic
        ensures var deadline := Deadline(TheRules(), begun, turns, i);
                var remaining := if turns[i].start >= deadline then 0 else deadline - turns[i].start;
                waits[i] * NS_PER_MS <= remaining < (waits[i] + 1) * NS_PER_MS && waits[i] <= flushInterval
      {
        var deadline := Deadline(TheRules(), begun, turns, i);
        DeadlineWithinInterval(TheRules(), begun, turns, i);
        assert Clock(begun, turns, i) <= turns[i].start;
        TimeoutWithinDeadline(turns[i].start, deadline);
        TimeoutWithinInterval(turns[i].start, deadline, flushInterval);
      }
    }

    lemma BeginsAtHead(begun: int, turns: seq<Turn>)
      requires AllHold([], 0, 0) && formatter.Valid()
      ensures AtHead(begun, turns, 0, false, [], begun + flushInterval * NS_PER_MS)
    {
      assert turns[..0] == [] && Lines(formatter.calendar, []) == [];
    }

    method Loop(begun: int, turns: seq<Turn>)
      returns (taken: nat, exited: bool, waits: seq<int>, nextFlush: int)
      requires Distinct() && AllHold([], 0, 0) && formatter.Valid()
      modifies sinks, formatter
      ensures taken <= |turns| && (!exited ==> taken == |turns|)
      ensures AtHead(begun, turns, taken, exited, waits, nextFlush)
    {
      nextFlush := begun + flushInterval * NS_PER_MS;
      taken, exited, waits := 0, false, [];
      BeginsAtHead(begun, turns);
      while taken < |turns| && !exited
        invariant taken <= |turns|
        invariant AtHead(begun, turns, taken, exited, waits, nextFlush)
      {
        exited, waits, nextFlush := NextTurn(begun, turns, taken, waits, nextFlush);
        taken := taken + 1;
      }
    }
  }
}
