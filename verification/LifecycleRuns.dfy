/** What holds over every run of the lifecycle, for any number of callers, generations and connections. */
module LifecycleRuns {
  import opened Wrappers
  import opened Lifecycle
  import Generation

  predicate Runs(s: System, steps: seq<Step>)
    decreases |steps|
  {
    steps == [] || (Enabled(s, steps[0]) && Runs(Apply(s, steps[0]), steps[1..]))
  }

  function Final(s: System, steps: seq<Step>): System
    requires Runs(s, steps)
    decreases |steps|
  {
    if steps == [] then s else Final(Apply(s, steps[0]), steps[1..])
  }

  lemma {:induction false} RunsConcat(s: System, a: seq<Step>, b: seq<Step>)
    requires Runs(s, a) && Runs(Final(s, a), b)
    ensures Runs(s, a + b) && Final(s, a + b) == Final(Final(s, a), b)
    decreases |a|
  {
    if a == [] {
      assert a + b == b;
    } else {
      assert (a + b)[1..] == a[1..] + b;
      RunsConcat(Apply(s, a[0]), a[1..], b);
    }
  }

  lemma {:induction false} RunsInParts(s: System, a: seq<Step>, b: seq<Step>)
    requires Runs(s, a + b)
    ensures Runs(s, a) && Runs(Final(s, a), b) && Final(s, a + b) == Final(Final(s, a), b)
    decreases |a|
  {
    if a == [] {
      assert a + b == b;
    } else {
      assert (a + b)[1..] == a[1..] + b;
      RunsInParts(Apply(s, a[0]), a[1..], b);
    }
  }

  // ----- The answers as a sequential history -----

  /** The address a server would be at if the calls had been made one after the other in the order of their answers. */
  function Current(log: seq<Report>): Option<string> {
    if log == [] then None
    else match log[|log| - 1]
      case Started(addr) => Some(addr)
      case NotRunning(_) => None
      case Stopped(_, _) => None
      case TimedOut(_, _) => None
      case _ => Current(log[..|log| - 1])
  }

  /** What such a server can answer next. */
  predicate Answerable(current: Option<string>, report: Report) {
    match report
    case AlreadyRunning(addr) => current.Some? && addr == current
    case StartFailed(_) => current.None?
    case Started(_) => current.None?
    case NotRunning(previous) => current.None? && previous.None?
    case Stopped(_, previous) => current.Some? && previous == current
    case TimedOut(_, previous) => current.Some? && previous == current
    case StatusIs(running, addr) => running == current.Some? && addr == current
  }

  ghost predicate Legal(log: seq<Report>) {
    forall i :: 0 <= i < |log| ==> Answerable(Current(log[..i]), log[i])
  }

  /** The registry, or the call that holds it, has the address the history leads to. */
  ghost predicate Standing(s: System) {
    if s.critical.Some? && (s.critical.value.stage.Taken? || s.critical.value.stage.Waiting?)
    then s.critical.value.stage.previous == Current(s.log)
    else s.registry.listenAddr == Current(s.log)
  }

  lemma LegalGrows(log: seq<Report>, report: Report)
    requires Legal(log) && Answerable(Current(log), report)
    ensures Legal(log + [report]) && (log + [report])[..|log|] == log
  {
    var longer := log + [report];
    assert longer[..|log|] == log;
    forall i | 0 <= i < |longer| ensures Answerable(Current(longer[..i]), longer[i]) {
      if i < |log| {
        assert longer[..i] == log[..i];
      }
    }
  }

  predicate Silent(s: System, step: Step) {
    step.Acquire? || step.StartSpawn? || step.StopSend? || step.Serve? || step.Tick? ||
      (step.StopTake? && s.registry.shutdown.Some?)
  }

  lemma SilentStanding(s: System, step: Step)
    requires Registered(s) && Standing(s) && Enabled(s, step) && Silent(s, step)
    ensures Apply(s, step).log == s.log && Standing(Apply(s, step))
  {
  }

  /** The answer fits the history, and the registry is where it leads. */
  lemma AnswerFits(s: System, step: Step)
    requires Registered(s) && Addressed(s) && Standing(s) && Enabled(s, step) && !Silent(s, step)
    ensures var t := Apply(s, step);
      && |t.log| == |s.log| + 1 && t.log[..|s.log|] == s.log && t.critical.None?
      && Answerable(Current(s.log), t.log[|s.log|]) && t.registry.listenAddr == Current(t.log)
  {
    var t := Apply(s, step);
    assert t.log[..|s.log|] == s.log;
  }

  lemma StandingStep(s: System, step: Step)
    requires Registered(s) && Addressed(s) && Legal(s.log) && Standing(s) && Enabled(s, step)
    ensures Legal(Apply(s, step).log) && Standing(Apply(s, step))
  {
    if Silent(s, step) {
      SilentStanding(s, step);
    } else {
      AnswerFits(s, step);
      var log := Apply(s, step).log;
      assert log == s.log + [log[|s.log|]];
      LegalGrows(s.log, log[|s.log|]);
    }
  }

  // ----- How generations are ended -----

  function Timeouts(log: seq<Report>): nat {
    if log == [] then 0 else Timeouts(log[..|log| - 1]) + (if log[|log| - 1].TimedOut? then 1 else 0)
  }

  predicate Ends(report: Report) {
    report.Stopped? || report.TimedOut?
  }

  /** Every ending names the address of the generation it is about, and no generation is ended twice. */
  ghost predicate EndedOnce(s: System) {
    && (forall i :: 0 <= i < |s.log| && Ends(s.log[i]) ==>
          s.log[i].handle.completion < |s.addrs| && s.log[i].previous == Some(s.addrs[s.log[i].handle.completion]))
    && (forall i, k :: 0 <= i < k < |s.log| && Ends(s.log[i]) && Ends(s.log[k]) ==> s.log[i].handle != s.log[k].handle)
  }

  ghost predicate Addressed(s: System) {
    && (s.registry.shutdown.Some? ==>
          s.registry.shutdown.value.completion < |s.addrs| &&
          s.registry.listenAddr == Some(s.addrs[s.registry.shutdown.value.completion]))
    && (s.critical.Some? && s.critical.value.stage.Spawned? ==>
          s.critical.value.stage.handle.completion < |s.addrs| &&
          s.critical.value.stage.addr == s.addrs[s.critical.value.stage.handle.completion])
    && (s.critical.Some? && (s.critical.value.stage.Taken? || s.critical.value.stage.Waiting?) ==>
          s.critical.value.stage.handle.completion < |s.addrs| &&
          s.critical.value.stage.previous == Some(s.addrs[s.critical.value.stage.handle.completion]))
  }

  /** No stop has ended the generation that the registry, or the call that holds it, can still end. */
  ghost predicate PendingIsOpen(s: System) {
    Pending(s).Some? ==> forall i :: 0 <= i < |s.log| && Ends(s.log[i]) ==> s.log[i].handle != Pending(s).value
  }

  ghost predicate Endings(s: System) {
    EndedOnce(s) && Addressed(s) && PendingIsOpen(s) && |s.stale| <= Timeouts(s.log)
  }

  ghost predicate History(s: System) {
    Legal(s.log) && Standing(s) && Endings(s)
  }

  lemma TimeoutsGrow(log: seq<Report>, report: Report)
    ensures Timeouts(log + [report]) == Timeouts(log) + (if report.TimedOut? then 1 else 0)
  {
    assert (log + [report])[..|log|] == log;
  }

  /** An answer that ends nothing. */
  lemma OtherAnswer(s: System, t: System, report: Report)
    requires EndedOnce(s) && !Ends(report) && t.log == s.log + [report] && t.addrs == s.addrs
    ensures EndedOnce(t) && Timeouts(t.log) == Timeouts(s.log)
    ensures forall i :: 0 <= i < |t.log| && Ends(t.log[i]) ==> i < |s.log| && t.log[i] == s.log[i]
  {
    TimeoutsGrow(s.log, report);
  }

  lemma StartAnswerEndings(s: System)
    requires Endings(s) && Enabled(s, StartAnswer)
    ensures Endings(Apply(s, StartAnswer))
  {
    var t := Apply(s, StartAnswer);
    OtherAnswer(s, t, t.log[|s.log|]);
  }

  lemma StatusAnswerEndings(s: System)
    requires Endings(s) && Enabled(s, StatusAnswer)
    ensures Endings(Apply(s, StatusAnswer))
  {
    var t := Apply(s, StatusAnswer);
    OtherAnswer(s, t, t.log[|s.log|]);
  }

  lemma RegisterEndings(s: System)
    requires Registered(s) && Endings(s) && Enabled(s, StartRegister)
    ensures Endings(Apply(s, StartRegister))
  {
    var t := Apply(s, StartRegister);
    OtherAnswer(s, t, t.log[|s.log|]);
    assert Pending(t) == Pending(s);
  }

  lemma StopUnneededEndings(s: System)
    requires Endings(s) && Enabled(s, StopTake) && s.registry.shutdown.None?
    ensures Endings(Apply(s, StopTake))
  {
    var t := Apply(s, StopTake);
    OtherAnswer(s, t, t.log[|s.log|]);
  }

  /** The answer of a stop that waited. */
  lemma EndAnswer(s: System, t: System, report: Report)
    requires EndedOnce(s) && PendingIsOpen(s) && Ends(report) && t.log == s.log + [report] && t.addrs == s.addrs
    requires Pending(s) == Some(report.handle)
    requires report.handle.completion < |s.addrs| && report.previous == Some(s.addrs[report.handle.completion])
    ensures EndedOnce(t) && Timeouts(t.log) == Timeouts(s.log) + (if report.TimedOut? then 1 else 0)
  {
    TimeoutsGrow(s.log, report);
    forall i | 0 <= i < |t.log| && Ends(t.log[i])
      ensures t.log[i].handle.completion < |t.addrs| && t.log[i].previous == Some(t.addrs[t.log[i].handle.completion])
    {
      assert t.log[i] == if i < |s.log| then s.log[i] else report;
    }
    forall i, k | 0 <= i < k < |t.log| && Ends(t.log[i]) && Ends(t.log[k]) ensures t.log[i].handle != t.log[k].handle {
      assert t.log[i] == s.log[i];
      assert t.log[k] == if k < |s.log| then s.log[k] else report;
    }
  }

  lemma CompletedEndings(s: System)
    requires Registered(s) && Endings(s) && Enabled(s, StopCompleted)
    ensures Endings(Apply(s, StopCompleted))
  {
    var t := Apply(s, StopCompleted);
    assert Pending(s) == Some(s.critical.value.stage.handle);
    EndAnswer(s, t, t.log[|s.log|]);
  }

  lemma TimedOutEndings(s: System)
    requires Registered(s) && Endings(s) && Enabled(s, StopTimedOut)
    ensures Endings(Apply(s, StopTimedOut))
  {
    var t := Apply(s, StopTimedOut);
    assert Pending(s) == Some(s.critical.value.stage.handle);
    EndAnswer(s, t, t.log[|s.log|]);
  }

  lemma SpawnEndings(s: System)
    requires Shape(s) && Endings(s) && Enabled(s, StartSpawn)
    ensures Endings(Apply(s, StartSpawn))
  {
    var t := Apply(s, StartSpawn);
    assert t.log == s.log;
    forall i | 0 <= i < |s.log| && Ends(s.log[i]) ensures s.log[i].handle != Pending(t).value {
      assert s.log[i].handle.completion < |s.addrs|;
    }
  }

  lemma SilentEndings(s: System, step: Step)
    requires Registered(s) && Endings(s) && Enabled(s, step) && Silent(s, step) && !step.StartSpawn?
    ensures Endings(Apply(s, step))
  {
    var t := Apply(s, step);
    assert Pending(t) == Pending(s) && t.log == s.log && t.addrs == s.addrs && t.stale == s.stale;
  }

  lemma EndingsStep(s: System, step: Step)
    requires Shape(s) && Registered(s) && Endings(s) && Enabled(s, step)
    ensures Endings(Apply(s, step))
  {
    match step
    case StartAnswer => StartAnswerEndings(s);
    case StatusAnswer => StatusAnswerEndings(s);
    case StartRegister => RegisterEndings(s);
    case StopTake => if s.registry.shutdown.None? { StopUnneededEndings(s); } else { SilentEndings(s, step); }
    case StopCompleted => CompletedEndings(s);
    case StopTimedOut => TimedOutEndings(s);
    case StartSpawn => SpawnEndings(s);
    case _ => SilentEndings(s, step);
  }

  lemma HistoryStep(s: System, step: Step)
    requires Shape(s) && Registered(s) && History(s) && Enabled(s, step)
    ensures History(Apply(s, step))
  {
    StandingStep(s, step);
    EndingsStep(s, step);
  }

  lemma {:induction false} InvOverRun(s: System, steps: seq<Step>)
    requires Inv(s) && History(s) && Runs(s, steps)
    ensures Inv(Final(s, steps)) && History(Final(s, steps))
    decreases |steps|
  {
    if steps != [] {
      InvStep(s, steps[0]);
      HistoryStep(s, steps[0]);
      InvOverRun(Apply(s, steps[0]), steps[1..]);
    }
  }

  lemma ReachableInv(steps: seq<Step>)
    requires Runs(INITIAL, steps)
    ensures Inv(Final(INITIAL, steps)) && History(Final(INITIAL, steps))
  {
    InitialSatisfiesInv();
    InvOverRun(INITIAL, steps);
  }

  // ----- The main results -----

  /**
   The answers of all callers, in the order they are given, are those of a server that is called by one caller at a
   time: each is what the answers before it leave open, and whenever the lock is free the registry is where they lead.
   */
  lemma AnswersAreSequential(steps: seq<Step>)
    requires Runs(INITIAL, steps)
    ensures var s := Final(INITIAL, steps);
      && (forall i :: 0 <= i < |s.log| ==> Answerable(Current(s.log[..i]), s.log[i]))
      && (s.critical.None? ==> s.registry.listenAddr == Current(s.log) && s.registry.running == Current(s.log).Some?)
  {
    ReachableInv(steps);
  }

  /**
   Whenever a stop has answered "stopped", the generation it took is completed for good: its listener is closed,
   its connection set is empty, and if the drain beat the grace period every bridge it ever spawned is joined.
   */
  lemma StoppedMeansQuiet(steps: seq<Step>, i: nat)
    requires Runs(INITIAL, steps) && i < |Final(INITIAL, steps).log| && Final(INITIAL, steps).log[i].Stopped?
    ensures var s := Final(INITIAL, steps);
      var handle := s.log[i].handle;
      && Shape(s) && handle.completion < |s.gens| && s.ports[handle.completion] == handle
      && s.gens[handle.completion].phase.Completed? && Generation.Quiet(s.gens[handle.completion])
      && s.log[i].previous == Some(s.addrs[handle.completion])
  {
    ReachableInv(steps);
    var s := Final(INITIAL, steps);
    Generation.FinishedIsQuiet(s.gens[s.log[i].handle.completion]);
    assert Ends(s.log[i]);
  }

  /** A stop hears a completion exactly when the generation it took has completed, whatever other generations do. */
  lemma CompletionIsOwn(steps: seq<Step>)
    requires Runs(INITIAL, steps) && AtWaiting(Final(INITIAL, steps))
    ensures var s := Final(INITIAL, steps);
      var handle := s.critical.value.stage.handle;
      && Shape(s) && handle.completion < |s.gens|
      && (forall g :: 0 <= g < |s.gens| ==> (s.ports[g].completion == handle.completion <==> g == handle.completion))
      && (Enabled(s, StopCompleted) <==> s.gens[handle.completion].phase.Completed?)
  {
    ReachableInv(steps);
  }

  /**
   Whenever the lock is free, the three fields agree, and the registered generation is still accepting on an open
   listener.
   */
  lemma FreeStateIsCoherent(steps: seq<Step>)
    requires Runs(INITIAL, steps) && Final(INITIAL, steps).critical.None?
    ensures var s := Final(INITIAL, steps);
      && Shape(s)
      && s.registry.running == s.registry.listenAddr.Some?
      && s.registry.running == s.registry.shutdown.Some?
      && (s.registry.running ==>
            var g := s.registry.shutdown.value.completion;
            g < |s.gens| && s.gens[g].phase.Accepting? && s.gens[g].listening &&
              s.registry.listenAddr == Some(s.addrs[g]))
  {
    ReachableInv(steps);
    var s := Final(INITIAL, steps);
    if s.registry.running {
      assert Generation.Inv(s.gens[s.registry.shutdown.value.completion]);
    }
  }

  function Live(s: System): set<nat> {
    set g | 0 <= g < |s.gens| && !s.gens[g].phase.Completed?
  }

  /**
   The generations not completed yet number at most one more than the stops that timed out; none more while stopped.
   */
  lemma LiveGenerationsAreBounded(steps: seq<Step>)
    requires Runs(INITIAL, steps)
    ensures var s := Final(INITIAL, steps);
      && |Live(s)| <= 1 + Timeouts(s.log)
      && (s.critical.None? ==> |Live(s)| <= (if s.registry.running then 1 else 0) + Timeouts(s.log))
  {
    ReachableInv(steps);
    var s := Final(INITIAL, steps);
    var pending := if Pending(s).Some? then {Pending(s).value.completion} else {};
    assert Live(s) <= s.stale + pending;
    Subset(Live(s), s.stale + pending);
    assert |s.stale + pending| <= |s.stale| + |pending|;
  }

  lemma {:induction false} Subset(a: set<nat>, b: set<nat>)
    requires a <= b
    ensures |a| <= |b|
  {
    assert b == a + (b - a);
  }

  /**
   If no stop ever timed out, a start binds only when every earlier generation has closed its listener and completed.
   */
  lemma RestartFindsNothingRunning(steps: seq<Step>, g: nat)
    requires Runs(INITIAL, steps) && Timeouts(Final(INITIAL, steps).log) == 0
    requires Enabled(Final(INITIAL, steps), StartSpawn) && g < |Final(INITIAL, steps).gens|
    ensures Final(INITIAL, steps).gens[g].phase.Completed? && Generation.Quiet(Final(INITIAL, steps).gens[g])
  {
    ReachableInv(steps);
    var s := Final(INITIAL, steps);
    assert s.stale == {};
    assert Pending(s).None?;
    Generation.FinishedIsQuiet(s.gens[g]);
  }
}
