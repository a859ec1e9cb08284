/** What the grace period of a drain and the patience of a stop have to do with each other. */
module LifecycleTiming {
  import opened Wrappers
  import opened Lifecycle
  import opened LifecycleRuns
  import Connection
  import Generation

  /** A step of the accept task itself, once it is told to stop. */
  predicate Control(step: Generation.Step) {
    !step.Accept? && !step.AcceptError? && !step.OnConnection?
  }

  /** The accept task could go on, or an abort waits for a connection task that is between two awaits. */
  ghost predicate Busy(g: Generation.Gen, now: nat) {
    || (exists step :: Control(step) && Generation.Enabled(g, step, true, now))
    || (g.phase.Aborting? && exists c :: 0 <= c < |g.connections| && c in g.members && g.connections[c].phase.Draining?)
  }

  function Awaited(s: System): nat
    requires AtWaiting(s)
  {
    s.critical.value.stage.handle.completion
  }

  /** A stop is waiting for a generation that has something to do at once. Time that passes now is lateness. */
  ghost predicate Late(s: System) {
    AtWaiting(s) && Awaited(s) < |s.gens| && Busy(s.gens[Awaited(s)], s.now)
  }

  ghost function LateAfter(s: System, step: Step, late: nat): nat {
    if step.StopSend? then 0 else if step.Tick? && Late(s) then late + 1 else late
  }

  /** How many milliseconds the generation being stopped has been late since its stop was sent. */
  ghost function Lateness(s: System, steps: seq<Step>, late: nat): nat
    requires Runs(s, steps)
    decreases |steps|
  {
    if steps == [] then late else Lateness(Apply(s, steps[0]), steps[1..], LateAfter(s, steps[0], late))
  }

  /** While a stop waits, its generation is no further behind than its lateness and its grace period allow. */
  ghost predicate OnSchedule(s: System, late: nat) {
    AtWaiting(s) && Awaited(s) < |s.gens| ==>
      var sentAt := s.critical.value.stage.sentAt;
      match s.gens[Awaited(s)].phase
      case Accepting => s.now <= sentAt + late
      case Closing => s.now <= sentAt + late
      case Draining(since) => since <= sentAt + late && s.now <= sentAt + Generation.CONNECTION_SHUTDOWN_GRACE + late
      case Aborting => s.now <= sentAt + Generation.CONNECTION_SHUTDOWN_GRACE + late
      case Completing => s.now <= sentAt + Generation.CONNECTION_SHUTDOWN_GRACE + late
      case Completed => true
  }

  predicate InGrace(g: Generation.Gen, now: nat) {
    g.phase.Draining? && now < g.phase.since + Generation.CONNECTION_SHUTDOWN_GRACE
  }

  /** A generation with nothing to do at once is completed, or draining inside its grace period. */
  lemma IdleOnlyInGrace(g: Generation.Gen, now: nat)
    requires Generation.Inv(g)
    ensures Busy(g, now) || g.phase.Completed? || InGrace(g, now)
  {
    match g.phase
    case Accepting => assert Control(Generation.ObserveShutdown) &&
      Generation.Enabled(g, Generation.ObserveShutdown, true, now);
    case Closing => assert Control(Generation.CloseListener) &&
      Generation.Enabled(g, Generation.CloseListener, true, now);
    case Completing => assert Control(Generation.SendCompletion) &&
      Generation.Enabled(g, Generation.SendCompletion, true, now);
    case Draining(since) =>
      if !InGrace(g, now) {
        var step := if g.members == {} then Generation.DrainDone else Generation.GraceElapsed;
        assert Control(step) && Generation.Enabled(g, step, true, now);
      }
    case Aborting => AbortingIsBusy(g, now);
    case Completed =>
  }

  lemma AbortingIsBusy(g: Generation.Gen, now: nat)
    requires Generation.Inv(g) && g.phase.Aborting?
    ensures Busy(g, now)
  {
    if g.members == {} {
      assert Control(Generation.AbortDone) && Generation.Enabled(g, Generation.AbortDone, true, now);
    } else {
      var c :| c in g.members;
      if !g.connections[c].phase.Draining? {
        var step := if Connection.Over(g.connections[c]) then Generation.Reap(c) else Generation.AbortConnection(c);
        assert Control(step) && Generation.Enabled(g, step, true, now);
      }
    }
  }

  lemma TickKeepsSchedule(s: System, late: nat)
    requires Inv(s) && OnSchedule(s, late)
    ensures OnSchedule(Apply(s, Tick), LateAfter(s, Tick, late))
  {
    if AtWaiting(s) && !Late(s) {
      IdleOnlyInGrace(s.gens[Awaited(s)], s.now);
    }
  }

  lemma ServeKeepsSchedule(s: System, g: nat, step: Generation.Step, late: nat)
    requires Inv(s) && OnSchedule(s, late) && CanServe(s, g, step)
    ensures OnSchedule(Served(s, g, step), late)
  {
    var t := Served(s, g, step);
    assert forall i :: 0 <= i < |s.gens| && i != g ==> t.gens[i] == s.gens[i];
  }

  lemma ScheduleStep(s: System, step: Step, late: nat)
    requires Inv(s) && OnSchedule(s, late) && Enabled(s, step)
    ensures OnSchedule(Apply(s, step), LateAfter(s, step, late))
  {
    match step
    case Tick => TickKeepsSchedule(s, late);
    case Serve(g, serve) => ServeKeepsSchedule(s, g, serve, late);
    case StopSend => assert s.gens[s.critical.value.stage.handle.completion].phase.Accepting?;
    case _ => assert !AtWaiting(Apply(s, step));
  }

  lemma {:induction false} ScheduleOverRun(s: System, steps: seq<Step>, late: nat)
    requires Inv(s) && OnSchedule(s, late) && Runs(s, steps)
    ensures OnSchedule(Final(s, steps), Lateness(s, steps, late))
    decreases |steps|
  {
    if steps != [] {
      InvStep(s, steps[0]);
      ScheduleStep(s, steps[0], late);
      ScheduleOverRun(Apply(s, steps[0]), steps[1..], LateAfter(s, steps[0], late));
    }
  }

  // ----- The main results -----

  /**
   A stop times out only on a generation that has not completed, and only after that generation has been late by the
   difference of the two limits at least, however slow its connections are.
   */
  lemma TimeoutMeansLate(steps: seq<Step>)
    requires Runs(INITIAL, steps) && Enabled(Final(INITIAL, steps), StopTimedOut)
    ensures var s := Final(INITIAL, steps);
      && Awaited(s) < |s.gens| && !s.gens[Awaited(s)].phase.Completed?
      && Lateness(INITIAL, steps, 0) >= SERVER_STOP_TIMEOUT - Generation.CONNECTION_SHUTDOWN_GRACE
  {
    InitialSatisfiesInv();
    ReachableInv(steps);
    ScheduleOverRun(INITIAL, steps, 0);
  }

  /** Time passes only while the generation being stopped has nothing to do at once. */
  ghost predicate Prompt(s: System, steps: seq<Step>)
    requires Runs(s, steps)
    decreases |steps|
  {
    steps == [] || ((steps[0].Tick? ==> !Late(s)) && Prompt(Apply(s, steps[0]), steps[1..]))
  }

  lemma OnScheduleDoesNotTimeOut(s: System)
    requires OnSchedule(s, 0) && Inv(s)
    ensures !Enabled(s, StopTimedOut)
  {
  }

  lemma PromptStep(s: System, step: Step)
    requires Inv(s) && OnSchedule(s, 0) && Enabled(s, step) && (step.Tick? ==> !Late(s))
    ensures OnSchedule(Apply(s, step), 0) && Timeouts(Apply(s, step).log) == Timeouts(s.log)
  {
    ScheduleStep(s, step, 0);
    OnScheduleDoesNotTimeOut(s);
    var log := Apply(s, step).log;
    if |log| > |s.log| {
      assert log == s.log + [log[|s.log|]];
      TimeoutsGrow(s.log, log[|s.log|]);
    }
  }

  lemma {:induction false} PromptOverRun(s: System, steps: seq<Step>)
    requires Inv(s) && OnSchedule(s, 0) && Runs(s, steps) && Prompt(s, steps)
    ensures Timeouts(Final(s, steps).log) == Timeouts(s.log) && OnSchedule(Final(s, steps), 0)
    decreases |steps|
  {
    if steps != [] {
      InvStep(s, steps[0]);
      PromptStep(s, steps[0]);
      PromptOverRun(Apply(s, steps[0]), steps[1..]);
    }
  }

  /**
   If the accept task is never late, no stop ever times out, whatever the connections do: every stop of a running server
   answers "stopped", and no generation outlives its stop.
   */
  lemma PromptStopsNeverTimeOut(steps: seq<Step>)
    requires Runs(INITIAL, steps) && Prompt(INITIAL, steps)
    ensures var s := Final(INITIAL, steps);
      && !Enabled(s, StopTimedOut)
      && (forall i :: 0 <= i < |s.log| ==> !s.log[i].TimedOut?)
      && (s.critical.None? ==> |Live(s)| <= if s.registry.running then 1 else 0)
  {
    InitialSatisfiesInv();
    ReachableInv(steps);
    PromptOverRun(INITIAL, steps);
    OnScheduleDoesNotTimeOut(Final(INITIAL, steps));
    LiveGenerationsAreBounded(steps);
    NoneTimedOut(Final(INITIAL, steps).log);
  }

  lemma {:induction false} NoneTimedOut(log: seq<Report>)
    requires Timeouts(log) == 0
    ensures forall i :: 0 <= i < |log| ==> !log[i].TimedOut?
  {
    if log != [] {
      NoneTimedOut(log[..|log| - 1]);
      assert forall i :: 0 <= i < |log| - 1 ==> log[i] == log[..|log| - 1][i];
    }
  }

  // ----- The bound is tight -----

  function Ticks(n: nat): seq<Step> {
    seq(n, _ => Tick)
  }

  lemma {:induction false} TicksRun(s: System, n: nat)
    ensures Runs(s, Ticks(n)) && Final(s, Ticks(n)) == s.(now := s.now + n)
    decreases n
  {
    if n > 0 {
      assert Ticks(n)[1..] == Ticks(n - 1);
      TicksRun(s.(now := s.now + 1), n - 1);
    }
  }

  /** A generation that is late all the time. */
  lemma {:induction false} LateTicks(s: System, n: nat, late: nat)
    requires AtWaiting(s) && Awaited(s) < |s.gens| && s.gens[Awaited(s)].phase.Accepting?
    ensures Runs(s, Ticks(n)) && Lateness(s, Ticks(n), late) == late + n
    decreases n
  {
    TicksRun(s, n);
    if n > 0 {
      assert Ticks(n)[1..] == Ticks(n - 1);
      assert Control(Generation.ObserveShutdown) &&
        Generation.Enabled(s.gens[Awaited(s)], Generation.ObserveShutdown, true, s.now);
      LateTicks(s.(now := s.now + 1), n - 1, late + 1);
    }
  }

  /** A generation that waits out its grace period for one connection that does not end. */
  lemma {:induction false} PatientTicks(s: System, n: nat, late: nat)
    requires AtWaiting(s) && Awaited(s) < |s.gens|
    requires s.gens[Awaited(s)].phase.Draining? && s.gens[Awaited(s)].members == {0}
    requires s.gens[Awaited(s)].connections == [Connection.Fresh({})]
    requires s.now + n <= s.gens[Awaited(s)].phase.since + Generation.CONNECTION_SHUTDOWN_GRACE
    ensures Runs(s, Ticks(n)) && Lateness(s, Ticks(n), late) == late
    decreases n
  {
    TicksRun(s, n);
    if n > 0 {
      assert Ticks(n)[1..] == Ticks(n - 1);
      assert !Busy(s.gens[Awaited(s)], s.now);
      PatientTicks(s.(now := s.now + 1), n - 1, late);
    }
  }

  lemma {:induction false} LatenessConcat(s: System, a: seq<Step>, b: seq<Step>, late: nat)
    requires Runs(s, a) && Runs(Final(s, a), b) && Runs(s, a + b)
    ensures Lateness(s, a + b, late) == Lateness(Final(s, a), b, Lateness(s, a, late))
    decreases |a|
  {
    if a == [] {
      assert a + b == b;
    } else {
      assert (a + b)[1..] == a[1..] + b;
      LatenessConcat(Apply(s, a[0]), a[1..], b, LateAfter(s, a[0], late));
    }
  }

  const LOCAL := "127.0.0.1:43117"

  /** A server with one connection that never ends is told to stop. */
  const STOPPING: seq<Step> := [
    Acquire(0, Start(Bound(LOCAL))), StartSpawn, StartRegister, Serve(0, Generation.Accept({})),
    Acquire(0, Stop), StopTake, StopSend]

  /** What the run has come to at `now`, with the generation in the given phase. */
  function Held(g: Generation.Gen, now: nat): System {
    var handle := Handle(0, 0);
    System(Registry(true, None, None), Some(Critical(0, Waiting(handle, Some(LOCAL), 0))), [g], [handle], [LOCAL],
           [true], [0], now, {}, [Started(LOCAL)])
  }

  const SERVING := Generation.Apply(Generation.FRESH, Generation.Accept({}), false, 0)

  lemma StoppingRuns()
    ensures Runs(INITIAL, STOPPING) && Final(INITIAL, STOPPING) == Held(SERVING, 0) &&
      Lateness(INITIAL, STOPPING, 0) == 0
  {
    var handle := Handle(0, 0);
    var up := System(Register(LOCAL, handle), None, [Generation.FRESH], [handle], [LOCAL], [false], [0], 0, {},
      [Started(LOCAL)]);
    UpRuns(up, STOPPING[..3]);
    DownRuns(up, STOPPING[3..]);
    RunsConcat(INITIAL, STOPPING[..3], STOPPING[3..]);
    LatenessConcat(INITIAL, STOPPING[..3], STOPPING[3..], 0);
    assert STOPPING[..3] + STOPPING[3..] == STOPPING;
  }

  lemma UpRuns(up: System, steps: seq<Step>)
    requires steps == [Acquire(0, Start(Bound(LOCAL))), StartSpawn, StartRegister]
    requires up == System(Register(LOCAL, Handle(0, 0)), None, [Generation.FRESH], [Handle(0, 0)], [LOCAL], [false],
      [0], 0, {}, [Started(LOCAL)])
    ensures Runs(INITIAL, steps) && Final(INITIAL, steps) == up && Lateness(INITIAL, steps, 0) == 0
  {
    var one := Apply(INITIAL, steps[0]);
    var two := Apply(one, steps[1]);
    assert Apply(two, steps[2]) == up;
    assert steps[1..] == [StartSpawn, StartRegister] && steps[1..][1..] == [StartRegister];
    assert [StartRegister][1..] == [];
    assert Runs(two, [StartRegister]) && Final(two, [StartRegister]) == up && Lateness(two, [StartRegister], 0) == 0;
    assert Runs(one, steps[1..]) && Final(one, steps[1..]) == up && Lateness(one, steps[1..], 0) == 0;
  }

  lemma DownRuns(up: System, steps: seq<Step>)
    requires steps == [Serve(0, Generation.Accept({})), Acquire(0, Stop), StopTake, StopSend]
    requires up == System(Register(LOCAL, Handle(0, 0)), None, [Generation.FRESH], [Handle(0, 0)], [LOCAL], [false],
      [0], 0, {}, [Started(LOCAL)])
    ensures Runs(up, steps) && Final(up, steps) == Held(SERVING, 0)
    ensures Lateness(up, steps, 0) == 0
  {
    var one := Apply(up, steps[0]);
    var two := Apply(one, steps[1]);
    var three := Apply(two, steps[2]);
    assert Apply(three, steps[3]) == Held(SERVING, 0);
    assert steps[1..][1..] == [StopTake, StopSend] && steps[1..][1..][1..] == [StopSend] &&
      steps[1..][1..][1..][1..] == [];
    assert Runs(three, [StopSend]) && Final(three, [StopSend]) == Held(SERVING, 0);
    assert Lateness(three, [StopSend], 0) == 0;
    assert Runs(two, [StopTake, StopSend]) && Final(two, [StopTake, StopSend]) == Held(SERVING, 0);
    assert Lateness(two, [StopTake, StopSend], 0) == 0;
    assert Runs(one, steps[1..]) && Final(one, steps[1..]) == Held(SERVING, 0);
    assert Lateness(one, steps[1..], 0) == 0;
  }

  const CLOSING: seq<Step> := [Serve(0, Generation.ObserveShutdown), Serve(0, Generation.CloseListener)]

  const DRAINING := SERVING.(signalled := true, listening := false, phase := Generation.Draining(1000))

  lemma ClosingRuns(late: nat)
    ensures Runs(Held(SERVING, 1000), CLOSING) && Final(Held(SERVING, 1000), CLOSING) == Held(DRAINING, 1000)
    ensures Lateness(Held(SERVING, 1000), CLOSING, late) == late
  {
    var s := Held(SERVING, 1000);
    var one := Apply(s, CLOSING[0]);
    assert one == Held(SERVING.(signalled := true, phase := Generation.Closing), 1000);
    assert Apply(one, CLOSING[1]) == Held(DRAINING, 1000);
    assert CLOSING[1..][1..] == [];
  }

  /** The steps lead from one system and lateness to another. */
  ghost predicate Leads(s: System, late: nat, steps: seq<Step>, t: System, later: nat) {
    Runs(s, steps) && Final(s, steps) == t && Lateness(s, steps, late) == later
  }

  lemma LeadsOn(s: System, late: nat, a: seq<Step>, t: System, later: nat, b: seq<Step>, u: System, last: nat)
    requires Leads(s, late, a, t, later) && Leads(t, later, b, u, last)
    ensures Leads(s, late, a + b, u, last)
  {
    RunsConcat(s, a, b);
    LatenessConcat(s, a, b, late);
  }

  lemma LateSecond()
    ensures Leads(Held(SERVING, 0), 0, Ticks(1000), Held(SERVING, 1000), 1000)
  {
    LateTicks(Held(SERVING, 0), 1000, 0);
    TicksRun(Held(SERVING, 0), 1000);
  }

  /** Once draining the generation waits out its grace period for the connection, which is no lateness. */
  lemma PatientWait()
    ensures Leads(Held(DRAINING, 1000), 1000, Ticks(2000), Held(DRAINING, 3000), 1000)
  {
    PatientTicks(Held(DRAINING, 1000), 2000, 1000);
    TicksRun(Held(DRAINING, 1000), 2000);
  }

  /** Late for the first second, then waiting out the grace period for the connection. */
  const SLOW_STOP: seq<Step> := STOPPING + Ticks(1000) + CLOSING + Ticks(2000)

  lemma SlowStopRuns()
    ensures Leads(INITIAL, 0, SLOW_STOP, Held(DRAINING, 3000), 1000)
  {
    StoppingRuns();
    LateSecond();
    ClosingRuns(1000);
    PatientWait();
    Assemble(STOPPING, Ticks(1000), CLOSING, Ticks(2000));
  }

  lemma Assemble(a: seq<Step>, b: seq<Step>, c: seq<Step>, d: seq<Step>)
    requires Leads(INITIAL, 0, a, Held(SERVING, 0), 0) && Leads(Held(SERVING, 0), 0, b, Held(SERVING, 1000), 1000)
    requires Leads(Held(SERVING, 1000), 1000, c, Held(DRAINING, 1000), 1000)
    requires Leads(Held(DRAINING, 1000), 1000, d, Held(DRAINING, 3000), 1000)
    ensures Leads(INITIAL, 0, a + b + c + d, Held(DRAINING, 3000), 1000)
  {
    LeadsOn(INITIAL, 0, a, Held(SERVING, 0), 0, b, Held(SERVING, 1000), 1000);
    LeadsOn(INITIAL, 0, a + b, Held(SERVING, 1000), 1000, c, Held(DRAINING, 1000), 1000);
    LeadsOn(INITIAL, 0, a + b + c, Held(DRAINING, 1000), 1000, d, Held(DRAINING, 3000), 1000);
  }

  /**
   The bound is tight: after exactly that much lateness a stop can time out on a generation that is draining as it
   should, at the very end of its grace period.
   */
  lemma StopCanTimeOut()
    ensures Runs(INITIAL, SLOW_STOP) && Enabled(Final(INITIAL, SLOW_STOP), StopTimedOut)
    ensures Final(INITIAL, SLOW_STOP) == Held(DRAINING, SERVER_STOP_TIMEOUT)
    ensures Lateness(INITIAL, SLOW_STOP, 0) == SERVER_STOP_TIMEOUT - Generation.CONNECTION_SHUTDOWN_GRACE
  {
    SlowStopRuns();
    assert Enabled(Held(DRAINING, 3000), StopTimedOut);
  }
}
