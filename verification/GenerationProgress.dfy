/** A generation told to stop always has a step of its own to take, and only boundedly many of them. */
module GenerationProgress {
  import Connection
  import ConnectionRuns
  import opened Generation

  /** Steps taken by the generation's own tasks, as opposed to the clients and upstreams they serve. */
  predicate Own(step: Step) {
    match step
    case Accept(_) => false
    case AcceptError => false
    case OnConnection(_, s) => Connection.ByTask(s)
    case _ => true
  }

  function PhaseRank(phase: Phase): nat {
    match phase
    case Accepting => 5
    case Closing => 4
    case Draining(_) => 3
    case Aborting => 2
    case Completing => 1
    case Completed => 0
  }

  function Work(connections: seq<Connection.Conn>): nat {
    if connections == [] then 0
    else Work(connections[..|connections| - 1]) + ConnectionRuns.Measure(connections[|connections| - 1])
  }

  function Remaining(g: Gen): nat {
    Work(g.connections) + |g.members| + PhaseRank(g.phase)
  }

  lemma {:induction false} WorkUpdate(connections: seq<Connection.Conn>, c: nat, next: Connection.Conn)
    requires c < |connections|
    ensures Work(connections[c := next]) ==
      Work(connections) - ConnectionRuns.Measure(connections[c]) + ConnectionRuns.Measure(next)
  {
    var last := |connections| - 1;
    if c == last {
      assert connections[c := next][..last] == connections[..last];
    } else {
      assert connections[c := next][..last] == connections[..last][c := next];
      WorkUpdate(connections[..last], c, next);
    }
  }

  lemma AbortDecreases(c: Connection.Conn, signal: bool)
    requires Connection.Enabled(c, Connection.Abort, signal)
    ensures ConnectionRuns.Measure(Connection.Apply(c, Connection.Abort, signal)) < ConnectionRuns.Measure(c)
  {
    var d := Connection.Apply(c, Connection.Abort, signal);
    assert ConnectionRuns.Unsubmitted(d) == ConnectionRuns.Unsubmitted(c);
  }

  lemma OwnStepDecreases(g: Gen, step: Step, told: bool, now: nat)
    requires Enabled(g, step, told, now) && Own(step)
    ensures Remaining(Apply(g, step, told, now)) < Remaining(g)
  {
    match step
    case Reap(c) => assert |g.members - {c}| == |g.members| - 1;
    case AbortConnection(c) =>
      AbortDecreases(g.connections[c], g.signalled);
      WorkUpdate(g.connections, c, Connection.Apply(g.connections[c], Connection.Abort, g.signalled));
    case OnConnection(c, s) =>
      ConnectionRuns.TaskStepDecreases(g.connections[c], s, g.signalled);
      WorkUpdate(g.connections, c, Connection.Apply(g.connections[c], s, g.signalled));
    case _ =>
  }

  lemma ForeignStepDoesNotIncrease(g: Gen, step: Step, told: bool, now: nat)
    requires Enabled(g, step, told, now) && !Own(step) && !g.phase.Accepting?
    ensures Remaining(Apply(g, step, told, now)) <= Remaining(g)
  {
    match step
    case OnConnection(c, s) =>
      ConnectionRuns.OtherStepDoesNotIncrease(g.connections[c], s, g.signalled);
      WorkUpdate(g.connections, c, Connection.Apply(g.connections[c], s, g.signalled));
  }

  /** One step of a generation with what it saw: whether it had been told to stop, and the time. */
  datatype Event = Event(step: Step, told: bool, now: nat)

  predicate Runs(g: Gen, events: seq<Event>)
    decreases |events|
  {
    events == [] ||
    (Enabled(g, events[0].step, events[0].told, events[0].now) &&
     Runs(Apply(g, events[0].step, events[0].told, events[0].now), events[1..]))
  }

  function Final(g: Gen, events: seq<Event>): Gen
    requires Runs(g, events)
    decreases |events|
  {
    if events == [] then g else Final(Apply(g, events[0].step, events[0].told, events[0].now), events[1..])
  }

  /** Still inside the grace period of a drain that began at `since`, or past it with every connection gone in time. */
  ghost predicate InGrace(g: Gen, since: nat) {
    Inv(g) && (g.phase == Draining(since) || g.beatGrace)
  }

  lemma GraceStep(g: Gen, step: Step, told: bool, now: nat, since: nat)
    requires InGrace(g, since) && Enabled(g, step, told, now) && now < since + CONNECTION_SHUTDOWN_GRACE
    ensures InGrace(Apply(g, step, told, now), since)
  {
    InvStep(g, step, told, now);
  }

  /**
   As long as no clock reading reaches the end of the grace period no connection is aborted, whatever else happens.
   */
  lemma {:induction false} GraceIsHonoured(g: Gen, events: seq<Event>, since: nat)
    requires InGrace(g, since) && Runs(g, events)
    requires forall i :: 0 <= i < |events| ==> events[i].now < since + CONNECTION_SHUTDOWN_GRACE
    ensures InGrace(Final(g, events), since)
    ensures forall c :: 0 <= c < |Final(g, events).connections| ==> !Final(g, events).connections[c].phase.Aborted?
    decreases |events|
  {
    if events != [] {
      var e := events[0];
      GraceStep(g, e.step, e.told, e.now, since);
      assert forall i :: 0 <= i < |events[1..]| ==> events[1..][i] == events[i + 1];
      GraceIsHonoured(Apply(g, e.step, e.told, e.now), events[1..], since);
    }
  }

  function OwnSteps(events: seq<Event>): nat {
    if events == [] then 0 else (if Own(events[0].step) then 1 else 0) + OwnSteps(events[1..])
  }

  /**
   From the moment it stops accepting, a generation takes at most `Remaining` steps of its own, however they interleave.
   */
  lemma {:induction false} ShutdownIsBounded(g: Gen, events: seq<Event>)
    requires Inv(g) && !g.phase.Accepting? && Runs(g, events)
    ensures OwnSteps(events) <= Remaining(g)
    decreases |events|
  {
    if events != [] {
      var e := events[0];
      InvStep(g, e.step, e.told, e.now);
      CompletedIsFinal(g, e.step, e.told, e.now);
      if Own(e.step) {
        OwnStepDecreases(g, e.step, e.told, e.now);
      } else {
        ForeignStepDoesNotIncrease(g, e.step, e.told, e.now);
      }
      ShutdownIsBounded(Apply(g, e.step, e.told, e.now), events[1..]);
    }
  }

  /** A connection task that is told to stop, and still a member, can be joined or moved on. */
  lemma MemberMoves(g: Gen, c: nat, now: nat)
    requires Inv(g) && g.signalled && JoinsAt(g.phase) && c in g.members
    ensures exists step :: Own(step) && Enabled(g, step, true, now)
  {
    if Connection.Over(g.connections[c]) {
      assert Own(Reap(c)) && Enabled(g, Reap(c), true, now);
    } else {
      ConnectionRuns.SignalledTaskMoves(g.connections[c]);
      var s :| Connection.ByTask(s) && Connection.Enabled(g.connections[c], s, true);
      assert Own(OnConnection(c, s)) && Enabled(g, OnConnection(c, s), true, now);
    }
  }

  /** At any clock reading, a generation told to stop that has not completed has a step of its own to take. */
  lemma ToldGenerationMoves(g: Gen, now: nat)
    requires Inv(g) && !g.phase.Completed?
    ensures exists step :: Own(step) && Enabled(g, step, true, now)
  {
    match g.phase
    case Accepting => assert Own(ObserveShutdown) && Enabled(g, ObserveShutdown, true, now);
    case Closing => assert Own(CloseListener) && Enabled(g, CloseListener, true, now);
    case Completing => assert Own(SendCompletion) && Enabled(g, SendCompletion, true, now);
    case Draining(_) =>
      if g.members == {} {
        assert Own(DrainDone) && Enabled(g, DrainDone, true, now);
      } else {
        var c :| c in g.members;
        MemberMoves(g, c, now);
      }
    case Aborting =>
      if g.members == {} {
        assert Own(AbortDone) && Enabled(g, AbortDone, true, now);
      } else {
        var c :| c in g.members;
        MemberMoves(g, c, now);
      }
  }
}
