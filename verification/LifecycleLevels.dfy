/** The level check of log(): which records get past it, in every run. */
module LifecycleLevels {
  import opened QueueSpec
  import opened Lifecycle
  import opened LifecycleSafety
  import opened LifecycleTheorems

  // ---------------------------------------------------------------- the minimum in force

  /** What a run has asked for: the minimum level set last, by init or by setLevel; the configuration
      of the init() that is under way or was the latest; and the one that was installed last. */
  datatype Wish = Wish(minimum: int, config: Config, installed: Config)

  function Wished(trace: seq<Action>): Wish {
    if trace == [] then Wish(0, DEFAULT_CONFIG, DEFAULT_CONFIG)
    else
      var before := Wished(trace[..|trace| - 1]);
      match trace[|trace| - 1]
      case SetLevel(level) => before.(minimum := level)
      case ByControl(CallInit(config)) => before.(config := config)
      case ByControl(InitInstall) => before.(minimum := before.config.minLevel, installed := before.config)
      case _ => before
  }

  ghost predicate Granted(s: System, wish: Wish) {
    && s.minLevel == wish.minimum && s.config == wish.installed
    && (NextConfig(s.control).Some? ==> NextConfig(s.control).value == wish.config)
  }

  lemma StepGrants(s: System, a: Action, trace: seq<Action>)
    requires Enabled(s, a) && Granted(s, Wished(trace))
    ensures Granted(Apply(s, a), Wished(trace + [a]))
  {
    assert (trace + [a])[..|trace|] == trace;
    match a
    case ByProducer(p, act) =>
    case ByControl(act) =>
      if IsStart(act) {
        StartGrants(s, act, Wished(trace));
      } else {
        ControlIsQuiet(s, act);
      }
    case ByWorker(act) => WorkerKeepsLevel(s, act);
    case SetLevel(_) =>
  }

  lemma StartGrants(s: System, act: ControlAct, wish: Wish)
    requires IsStart(act) && StartEnabled(s, act) && Granted(s, wish)
    ensures Granted(ApplyStart(s, act),
                    if act.InitInstall? then wish.(minimum := wish.config.minLevel, installed := wish.config) else wish)
  {
  }

  lemma WorkerKeepsLevel(s: System, act: WorkerAct)
    requires WorkerEnabled(s, act)
    ensures var t := ApplyWorker(s, act);
            t.minLevel == s.minLevel && t.control == s.control && t.config == s.config
  {
  }

  lemma {:induction false} RunGrants(s: System, trace: seq<Action>, before: seq<Action>)
    requires Runs(s, trace) && Granted(s, Wished(before))
    ensures Granted(After(s, trace), Wished(before + trace))
    decreases |trace|
  {
    if trace == [] {
      assert before + [] == before;
    } else {
      StepGrants(s, trace[0], before);
      RunGrants(Apply(s, trace[0]), trace[1..], before + [trace[0]]);
      assert before + [trace[0]] + trace[1..] == before + trace;
    }
  }

  /** A log() call at its check goes on if and only if the logger runs and the call's level is at or
      above the minimum asked for last. */
  lemma CheckDecides(count: nat, trace: seq<Action>, p: nat)
    requires Runs(Start(count), trace) && ProducerEnabled(After(Start(count), trace), p, Check)
    ensures var s := After(Start(count), trace);
            var now := ApplyProducer(s, p, Check).producers[p].pc;
            && (now.Passed? || now.Outside?)
            && (now.Passed? <==> s.running && s.producers[p].pc.level >= Wished(trace).minimum)
            && (now.Passed? ==>
                  now.record.level == s.producers[p].pc.level && now.record.minimum == Wished(trace).minimum)
  {
    RunGrants(Start(count), trace, []);
    assert [] + trace == trace;
  }

  // ---------------------------------------------------------------- what gets through

  /** A record that was rightly let through; under `fixed`, one that met the configured minimum. */
  ghost predicate Rightly(r: Record, config: Config, fixed: bool) {
    r.level >= r.minimum && (fixed ==> r.minimum == config.minLevel)
  }

  ghost predicate CallRightly(s: System, pc: ProducerPc, fixed: bool) {
    pc.Passed? || pc.Captured? || pc.Blocked? ==>
      pc.record.level >= pc.record.minimum
      && (fixed && pc.record.lifecycle == s.lifecycle ==> pc.record.minimum == s.config.minLevel)
  }

  ghost predicate LetThrough(s: System, fixed: bool) {
    && (fixed ==> s.minLevel == s.config.minLevel)
    && (forall p | 0 <= p < |s.producers| :: CallRightly(s, s.producers[p].pc, fixed))
    && (forall r | r in s.queue.history.accepted :: Rightly(r, s.config, fixed))
    && (forall e, r | e in s.archive && r in e.queue.history.accepted :: Rightly(r, e.config, fixed))
  }

  lemma LetThroughKeptByProducer(s: System, p: nat, act: ProducerAct, fixed: bool)
    requires Conserved(s.queue) && GenerationInv(s) && LockInv(s) && LetThrough(s, fixed)
    requires ProducerEnabled(s, p, act)
    ensures LetThrough(ApplyProducer(s, p, act), fixed)
  {
    var t := ApplyProducer(s, p, act);
    ProducerStep(s, p, act);
    assert ProducerGeneration(s, s.producers[p].pc) && CallRightly(s, s.producers[p].pc, fixed);
    assert !s.control.Free? ==> !HoldsShared(s.producers[p]);
    forall i | 0 <= i < |t.producers| ensures CallRightly(t, t.producers[i].pc, fixed) {
      assert CallRightly(s, s.producers[i].pc, fixed);
    }
    forall r | r in t.queue.history.accepted ensures Rightly(r, t.config, fixed) {
      if r in s.queue.history.accepted {
        assert Rightly(r, s.config, fixed);
      }
    }
  }

  lemma LetThroughKeptByStart(s: System, act: ControlAct, fixed: bool)
    requires GenerationInv(s) && IsStart(act) && StartEnabled(s, act) && LetThrough(s, fixed)
    ensures LetThrough(ApplyStart(s, act), fixed)
  {
    var t := ApplyStart(s, act);
    forall i | 0 <= i < |t.producers| ensures CallRightly(t, t.producers[i].pc, fixed) {
      assert CallRightly(s, s.producers[i].pc, fixed) && ProducerGeneration(s, s.producers[i].pc);
    }
  }

  lemma ArchivesOwn(s: System, act: ControlAct)
    requires ControlEnabled(s, act) && !IsStart(act)
    ensures var t := ApplyControl(s, act);
            t.archive == s.archive
            || (|t.archive| == |s.archive| + 1 && t.archive[..|s.archive|] == s.archive
                && t.archive[|s.archive|].queue == s.queue && t.archive[|s.archive|].config == s.config)
  {
  }

  lemma LetThroughKeptByQuiet(s: System, t: System, fixed: bool)
    requires LetThrough(s, fixed) && Quiet(s, t)
    requires t.archive == s.archive
             || (|t.archive| == |s.archive| + 1 && t.archive[..|s.archive|] == s.archive
                 && t.archive[|s.archive|].queue == s.queue && t.archive[|s.archive|].config == s.config)
    ensures LetThrough(t, fixed)
  {
    forall i | 0 <= i < |t.producers| ensures CallRightly(t, t.producers[i].pc, fixed) {
      assert CallRightly(s, s.producers[i].pc, fixed);
    }
    assert t.archive == s.archive + t.archive[|s.archive|..];
    forall e, r | e in t.archive && r in e.queue.history.accepted ensures Rightly(r, e.config, fixed) {
      if e in s.archive {
        assert Rightly(r, e.config, fixed);
      } else {
        assert e == t.archive[|s.archive|];
      }
    }
  }

  lemma LetThroughKeptByWorker(s: System, t: System, fixed: bool)
    requires LetThrough(s, fixed) && WorkerFrame(s, t)
    ensures LetThrough(t, fixed)
  {
    forall i | 0 <= i < |t.producers| ensures CallRightly(t, t.producers[i].pc, fixed) {
      assert CallRightly(s, s.producers[i].pc, fixed);
    }
  }

  lemma LetThroughKeptByLevel(s: System, level: int)
    requires LetThrough(s, false)
    ensures LetThrough(s.(minLevel := level), false)
  {
    var t := s.(minLevel := level);
    forall i | 0 <= i < |t.producers| ensures CallRightly(t, t.producers[i].pc, false) {
      assert CallRightly(s, s.producers[i].pc, false);
    }
  }

  lemma StepLetsThrough(s: System, a: Action, fixed: bool)
    requires Conserved(s.queue) && s.config.writeBatchSize > 0 && GenerationInv(s) && LockInv(s)
    requires LetThrough(s, fixed) && Enabled(s, a) && (fixed ==> !a.SetLevel?)
    ensures LetThrough(Apply(s, a), fixed)
  {
    match a
    case ByProducer(p, act) => LetThroughKeptByProducer(s, p, act, fixed);
    case ByControl(act) =>
      if IsStart(act) {
        LetThroughKeptByStart(s, act, fixed);
      } else {
        ControlIsQuiet(s, act);
        ArchivesOwn(s, act);
        LetThroughKeptByQuiet(s, ApplyControl(s, act), fixed);
      }
    case ByWorker(act) =>
      WorkerStep(s, act);
      WorkerMovedHasFrame(s, ApplyWorker(s, act));
      LetThroughKeptByWorker(s, ApplyWorker(s, act), fixed);
    case SetLevel(level) => LetThroughKeptByLevel(s, level);
  }

  lemma {:induction false} RunLetsThrough(s: System, trace: seq<Action>, fixed: bool)
    requires Inv(s) && Runs(s, trace) && LetThrough(s, fixed)
    requires fixed ==> forall i | 0 <= i < |trace| :: !trace[i].SetLevel?
    ensures LetThrough(After(s, trace), fixed)
    decreases |trace|
  {
    if trace != [] {
      StepLetsThrough(s, trace[0], fixed);
      ApplyKeepsInv(s, trace[0]);
      RunLetsThrough(Apply(s, trace[0]), trace[1..], fixed);
    }
  }

  /** No record below the minimum gets through. In every run, whatever is in a queue's history or was
      given to a sink, in the current life cycle or an ended one, has a level at or above the minimum
      that was in force at its check. */
  lemma NothingBelowMinimum(count: nat, trace: seq<Action>)
    requires Runs(Start(count), trace)
    ensures var s := After(Start(count), trace);
            && (forall r | r in s.queue.history.accepted :: r.level >= r.minimum)
            && (forall j, r | 0 <= j < |s.sinks| && r in Delivered(s.sinks[j]) :: r.level >= r.minimum)
            && (forall e, r | e in s.archive && r in e.queue.history.accepted :: r.level >= r.minimum)
            && (forall e, j, r | e in s.archive && 0 <= j < |e.logs| && r in Delivered(e.logs[j]) ::
                  r.level >= r.minimum)
  {
    StartHasInv(count);
    RunLetsThrough(Start(count), trace, false);
    RunKeepsInv(Start(count), trace);
    AllAtOrAbove(After(Start(count), trace));
  }

  lemma AllAtOrAbove(s: System)
    requires Inv(s) && LetThrough(s, false)
    ensures forall r | r in s.queue.history.accepted :: r.level >= r.minimum
    ensures forall j, r | 0 <= j < |s.sinks| && r in Delivered(s.sinks[j]) :: r.level >= r.minimum
    ensures forall e, r | e in s.archive && r in e.queue.history.accepted :: r.level >= r.minimum
    ensures forall e, j, r | e in s.archive && 0 <= j < |e.logs| && r in Delivered(e.logs[j]) :: r.level >= r.minimum
  {
    DeliveredRightly(s, false);
    forall r | r in s.queue.history.accepted ensures r.level >= r.minimum {
      assert Rightly(r, s.config, false);
    }
    forall j, r | 0 <= j < |s.sinks| && r in Delivered(s.sinks[j]) ensures r.level >= r.minimum {
      assert Rightly(r, s.config, false);
    }
    forall e, r | e in s.archive && r in e.queue.history.accepted ensures r.level >= r.minimum {
      assert Rightly(r, e.config, false);
    }
    forall e, j, r | e in s.archive && 0 <= j < |e.logs| && r in Delivered(e.logs[j]) ensures r.level >= r.minimum {
      assert Rightly(r, e.config, false);
    }
  }

  /** When nobody calls setLevel, every record a life cycle delivers is at or above the minimum level
      it was configured with. */
  lemma DeliveredMeetConfiguredLevel(count: nat, trace: seq<Action>)
    requires Runs(Start(count), trace) && forall i | 0 <= i < |trace| :: !trace[i].SetLevel?
    ensures var s := After(Start(count), trace);
            && (forall j, r | 0 <= j < |s.sinks| && r in Delivered(s.sinks[j]) :: r.level >= s.config.minLevel)
            && (forall e, j, r | e in s.archive && 0 <= j < |e.logs| && r in Delivered(e.logs[j]) ::
                  r.level >= e.config.minLevel)
  {
    StartHasInv(count);
    RunLetsThrough(Start(count), trace, true);
    RunKeepsInv(Start(count), trace);
    AllMeetConfigured(After(Start(count), trace));
  }

  lemma AllMeetConfigured(s: System)
    requires Inv(s) && LetThrough(s, true)
    ensures forall j, r | 0 <= j < |s.sinks| && r in Delivered(s.sinks[j]) :: r.level >= s.config.minLevel
    ensures forall e, j, r | e in s.archive && 0 <= j < |e.logs| && r in Delivered(e.logs[j]) ::
              r.level >= e.config.minLevel
  {
    DeliveredRightly(s, true);
    forall j, r | 0 <= j < |s.sinks| && r in Delivered(s.sinks[j]) ensures r.level >= s.config.minLevel {
      assert Rightly(r, s.config, true);
    }
    forall e, j, r | e in s.archive && 0 <= j < |e.logs| && r in Delivered(e.logs[j])
      ensures r.level >= e.config.minLevel
    {
      assert Rightly(r, e.config, true);
    }
  }

  lemma DeliveredRightly(s: System, fixed: bool)
    requires Inv(s) && LetThrough(s, fixed)
    ensures forall j, r | 0 <= j < |s.sinks| && r in Delivered(s.sinks[j]) :: Rightly(r, s.config, fixed)
    ensures forall e, j, r | e in s.archive && 0 <= j < |e.logs| && r in Delivered(e.logs[j]) ::
              Rightly(r, e.config, fixed)
  {
    DataSpreads(s);
    forall j, r | 0 <= j < |s.sinks| && r in Delivered(s.sinks[j]) ensures Rightly(r, s.config, fixed) {
      DeliveredAreAccepted(s.queue, s.sinks, s.batch, j);
    }
    forall e, j, r | e in s.archive && 0 <= j < |e.logs| && r in Delivered(e.logs[j])
      ensures Rightly(r, e.config, fixed)
    {
      assert EndedOk(e);
      DeliveredAreAccepted(e.queue, e.logs, e.batch, j);
    }
  }
}
