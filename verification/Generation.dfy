/**
 One server generation: the task spawned by a successful start. It accepts until it is told to stop,
 closes its listener, waits for its connections during the grace period, aborts the rest and reports completion.
 Time is counted in milliseconds.
 */
module Generation {
  import Connection

  const CONNECTION_SHUTDOWN_GRACE := 2000

  datatype Phase =
    | Accepting
    | Closing
    | Draining(since: nat)
    | Aborting
    | Completing
    | Completed

  /** `members` is the set of connection tasks not joined yet; `connections` are all ever accepted. */
  datatype Gen = Gen(
    phase: Phase,
    listening: bool,
    signalled: bool,
    connections: seq<Connection.Conn>,
    members: set<nat>,
    beatGrace: bool)

  datatype Step =
    | Accept(arriving: set<nat>)
    | AcceptError
    | Reap(connection: nat)
    | ObserveShutdown
    | CloseListener
    | DrainDone
    | GraceElapsed
    | AbortConnection(connection: nat)
    | AbortDone
    | SendCompletion
    | OnConnection(connection: nat, step: Connection.Step)

  const FRESH := Gen(Accepting, true, false, [], {}, false)

  predicate JoinsAt(phase: Phase) {
    phase.Accepting? || phase.Draining? || phase.Aborting?
  }

  /** `told` says whether the stop handle of this generation has been used; `now` is the clock. */
  predicate Enabled(g: Gen, step: Step, told: bool, now: nat) {
    match step
    case Accept(_) => g.phase.Accepting?
    case AcceptError => g.phase.Accepting?
    case Reap(c) => JoinsAt(g.phase) && c in g.members && c < |g.connections| && Connection.Over(g.connections[c])
    case ObserveShutdown => g.phase.Accepting? && told
    case CloseListener => g.phase.Closing?
    case DrainDone => g.phase.Draining? && g.members == {}
    case GraceElapsed => g.phase.Draining? && g.members != {} && now >= g.phase.since + CONNECTION_SHUTDOWN_GRACE
    case AbortConnection(c) =>
      g.phase.Aborting? && c in g.members && c < |g.connections| &&
        Connection.Enabled(g.connections[c], Connection.Abort, g.signalled)
    case AbortDone => g.phase.Aborting? && g.members == {}
    case SendCompletion => g.phase.Completing?
    // A connection is aborted only by its owner, through AbortConnection.
    case OnConnection(c, s) =>
      c < |g.connections| && !s.Abort? && Connection.Enabled(g.connections[c], s, g.signalled)
  }

  function Apply(g: Gen, step: Step, told: bool, now: nat): Gen
    requires Enabled(g, step, told, now)
  {
    match step
    case Accept(arriving) =>
      g.(connections := g.connections + [Connection.Fresh(arriving)], members := g.members + {|g.connections|})
    case AcceptError => g
    case Reap(c) => g.(members := g.members - {c})
    case ObserveShutdown => g.(signalled := true, phase := Closing)
    case CloseListener => g.(listening := false, phase := Draining(now))
    case DrainDone => g.(phase := Completing, beatGrace := true)
    case GraceElapsed => g.(phase := Aborting)
    case AbortConnection(c) =>
      g.(connections := g.connections[c := Connection.Apply(g.connections[c], Connection.Abort, g.signalled)])
    case AbortDone => g.(phase := Completing)
    case SendCompletion => g.(phase := Completed)
    case OnConnection(c, s) => g.(connections := g.connections[c := Connection.Apply(g.connections[c], s, g.signalled)])
  }

  predicate Finished(g: Gen) {
    g.phase.Completing? || g.phase.Completed?
  }

  ghost predicate Control(g: Gen) {
    && g.listening == (g.phase.Accepting? || g.phase.Closing?)
    && g.signalled == !g.phase.Accepting?
    && (Finished(g) ==> g.members == {})
    && (g.beatGrace ==> Finished(g))
  }

  /** A task leaves the set only when it is over, and none is aborted unless the grace period ran out. */
  ghost predicate Members(g: Gen) {
    && (forall c :: c in g.members ==> c < |g.connections|)
    && (forall c :: 0 <= c < |g.connections| && c !in g.members ==> Connection.Over(g.connections[c]))
    && (g.phase.Accepting? || g.phase.Closing? || g.phase.Draining? || g.beatGrace ==>
          forall c :: 0 <= c < |g.connections| ==> !g.connections[c].phase.Aborted?)
  }

  ghost predicate ConnectionsInv(g: Gen) {
    forall c :: 0 <= c < |g.connections| ==> Connection.Inv(g.connections[c])
  }

  ghost predicate Inv(g: Gen) {
    Control(g) && Members(g) && ConnectionsInv(g)
  }

  lemma FreshSatisfiesInv()
    ensures Inv(FRESH)
  {
  }

  /** A finished connection stays finished, with the outcome it had, and one aborted step apart none becomes aborted. */
  lemma OverIsFinal(c: Connection.Conn, step: Connection.Step, signal: bool)
    requires Connection.Enabled(c, step, signal)
    ensures Connection.Over(c) ==> Connection.Apply(c, step, signal).phase == c.phase
    ensures !step.Abort? && !c.phase.Aborted? ==> !Connection.Apply(c, step, signal).phase.Aborted?
  {
  }

  lemma ConnectionStep(g: Gen, c: nat, step: Connection.Step)
    requires ConnectionsInv(g) && c < |g.connections| && Connection.Enabled(g.connections[c], step, g.signalled)
    ensures ConnectionsInv(g.(connections := g.connections[c := Connection.Apply(g.connections[c], step, g.signalled)]))
  {
    var next := Connection.Apply(g.connections[c], step, g.signalled);
    assert Connection.Inv(next) by { Connection.InvStep(g.connections[c], step, g.signalled); }
    var d := g.(connections := g.connections[c := next]);
    forall i | 0 <= i < |d.connections| ensures Connection.Inv(d.connections[i]) {
      assert i == c || d.connections[i] == g.connections[i];
    }
  }

  lemma ConnectionsStep(g: Gen, step: Step, told: bool, now: nat)
    requires ConnectionsInv(g) && Enabled(g, step, told, now)
    ensures ConnectionsInv(Apply(g, step, told, now))
  {
    match step
    case Accept(arriving) => Connection.FreshSatisfiesInv(arriving);
    case AbortConnection(c) => ConnectionStep(g, c, Connection.Abort);
    case OnConnection(c, s) => ConnectionStep(g, c, s);
    case _ => assert Apply(g, step, told, now).connections == g.connections;
  }

  lemma MembersStep(g: Gen, step: Step, told: bool, now: nat)
    requires Control(g) && Members(g) && Enabled(g, step, told, now)
    ensures Members(Apply(g, step, told, now))
  {
    match step
    case AbortConnection(c) => OverIsFinal(g.connections[c], Connection.Abort, g.signalled);
    case OnConnection(c, s) => OverIsFinal(g.connections[c], s, g.signalled);
    case _ =>
  }

  lemma InvStep(g: Gen, step: Step, told: bool, now: nat)
    requires Inv(g) && Enabled(g, step, told, now)
    ensures Inv(Apply(g, step, told, now))
  {
    ConnectionsStep(g, step, told, now);
    MembersStep(g, step, told, now);
  }

  /** What a finished generation guarantees. */
  ghost predicate Quiet(g: Gen) {
    && !g.listening && g.members == {}
    && (forall c :: 0 <= c < |g.connections| ==>
         Connection.Over(g.connections[c]) && g.connections[c].bridges == multiset{})
    && (g.beatGrace ==> forall c :: 0 <= c < |g.connections| ==>
          g.connections[c].phase.Returned? && multiset(g.connections[c].spawned) == g.connections[c].joined)
  }

  lemma FinishedIsQuiet(g: Gen)
    requires Inv(g) && Finished(g)
    ensures Quiet(g)
  {
    forall c | 0 <= c < |g.connections|
      ensures Connection.Over(g.connections[c]) && g.connections[c].bridges == multiset{}
      ensures g.beatGrace ==>
        g.connections[c].phase.Returned? && multiset(g.connections[c].spawned) == g.connections[c].joined
    {
      assert c !in g.members && Connection.Inv(g.connections[c]);
    }
  }

  lemma CompletedIsFinal(g: Gen, step: Step, told: bool, now: nat)
    requires Inv(g) && Enabled(g, step, told, now)
    ensures g.phase.Completed? ==> Apply(g, step, told, now).phase.Completed?
    ensures Apply(g, step, told, now).phase.Completed? && !g.phase.Completed? ==> step.SendCompletion?
    ensures Apply(g, step, told, now).phase.Accepting? <==> g.phase.Accepting? && !step.ObserveShutdown?
  {
  }
}
