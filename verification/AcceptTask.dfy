/**
 The task a start spawns, as it runs: an accept loop that owns the set of connection tasks, a drain bounded by the
 grace period, an abort of what is left, and the completion message. Every change is a step of `Generation`.
 */
module AcceptTask {
  import Connection
  import ConnectionRuns
  import ConnectionTask
  import opened Generation
  import opened GenerationProgress

  /** What happens next around the task. `Moves` is a step of a connection task, not of this one. */
  datatype Happening =
    | Incoming(arriving: set<nat>)
    | AcceptFails
    | Moves(connection: nat, step: Connection.Step)
    | Ends(connection: nat)
    | StopArrives(at: nat)
    | ClockReads(at: nat)

  // ----- What the script leads to -----

  /** One happening outside the task's own control flow: a connection moves, or an ended one is joined. */
  function Attended(g: Gen, h: Happening): Gen {
    match h
    case Moves(c, step) => if Enabled(g, OnConnection(c, step), true, 0) then Apply(g, OnConnection(c, step), true, 0)
      else g
    case Ends(c) => if Enabled(g, Reap(c), true, 0) then Apply(g, Reap(c), true, 0) else g
    case _ => g
  }

  function StoppedAt(g: Gen, at: nat): Gen {
    g.(signalled := true, listening := false, phase := Phase.Draining(at))
  }

  function CompletedIn(g: Gen, inTime: bool): Gen {
    g.(phase := Completed, beatGrace := inTime)
  }

  /** An aborted task ends where it next awaits: one that is draining its queue first spawns what is left in it. */
  function Cancelled(c: Connection.Conn, signal: bool): (d: Connection.Conn)
    ensures Connection.Over(d)
  {
    if Connection.Over(c) then c
    else Connection.Apply(if c.phase.Draining? then ConnectionTask.Drained(c) else c, Connection.Abort, signal)
  }

  function AllCancelled(g: Gen): Gen {
    g.(members := {}, connections := seq(|g.connections|, i requires 0 <= i < |g.connections| =>
      if i in g.members then Cancelled(g.connections[i], g.signalled) else g.connections[i]))
  }

  /** The drain under the grace period, then the abort of the rest if the clock ran out, then completion. */
  function DrainRun(g: Gen, script: seq<Happening>): Gen
    requires g.phase.Draining?
    decreases |script|
  {
    if g.members == {} then CompletedIn(g, true)
    else if script == [] then g
    else if script[0].ClockReads? && script[0].at >= g.phase.since + CONNECTION_SHUTDOWN_GRACE then
      CompletedIn(AllCancelled(g), g.beatGrace)
    else DrainRun(Attended(g, script[0]), script[1..])
  }

  /** The accept loop, then the drain over what is left of the script. */
  function AcceptRun(g: Gen, script: seq<Happening>): Gen
    requires g.phase.Accepting?
    decreases |script|
  {
    if script == [] then g
    else match script[0]
      case StopArrives(at) => DrainRun(StoppedAt(g, at), script[1..])
      case Incoming(arriving) => AcceptRun(Apply(g, Accept(arriving), false, 0), script[1..])
      case _ => AcceptRun(Attended(g, script[0]), script[1..])
  }

  // ----- What the accept loop does -----

  predicate NoStop(script: seq<Happening>) {
    forall i :: 0 <= i < |script| ==> !script[i].StopArrives?
  }

  lemma {:induction false} AcceptsInParts(g: Gen, before: seq<Happening>, after: seq<Happening>)
    requires g.phase.Accepting? && NoStop(before)
    ensures AcceptRun(g, before).phase.Accepting?
    ensures AcceptRun(g, before + after) == AcceptRun(AcceptRun(g, before), after)
    decreases |before|
  {
    if before == [] {
      assert before + after == after;
    } else {
      var h, rest := before[0], before[1..];
      assert (before + after)[0] == h && (before + after)[1..] == rest + after;
      assert NoStop(rest) by { assert forall i :: 0 <= i < |rest| ==> rest[i] == before[i + 1]; }
      if h.Incoming? {
        AcceptsInParts(Apply(g, Accept(h.arriving), false, 0), rest, after);
      } else {
        AcceptsInParts(Attended(g, h), rest, after);
      }
    }
  }

  /** One connection has moved on, and all others stand. */
  predicate OnlyMoved(s: Gen, t: Gen, c: nat, next: Connection.Conn)
    requires c < |s.connections|
  {
    && |t.connections| == |s.connections| && t.members == s.members && t.connections[c] == next
    && forall i :: 0 <= i < |s.connections| && i != c ==> t.connections[i] == s.connections[i]
  }

  predicate CanMove(g: Gen, c: nat, step: Connection.Step) {
    c < |g.connections| && !step.Abort? && Connection.Enabled(g.connections[c], step, g.signalled)
  }

  predicate HasEnded(g: Gen, c: nat) {
    c in g.members && c < |g.connections| && Connection.Over(g.connections[c])
  }

  /** What a happening does to the connections and members of the task. */
  predicate Effect(s: Gen, t: Gen, h: Happening) {
    match h
    case Incoming(arriving) =>
      t.connections == s.connections + [Connection.Fresh(arriving)] && t.members == s.members + {|s.connections|}
    case Moves(c, step) =>
      if CanMove(s, c, step) then OnlyMoved(s, t, c, Connection.Apply(s.connections[c], step, s.signalled)) else t == s
    case Ends(c) =>
      t.connections == s.connections && t.members == if HasEnded(s, c) then s.members - {c} else s.members
    case _ => t == s
  }

  /**
   Every connection that comes in before the stop is served: it becomes a new member, and starts with its own requests.
   Members move by their own steps, and stay members until they have ended and are joined.
   */
  lemma EveryHappeningCounts(g: Gen, before: seq<Happening>, h: Happening)
    requires g.phase.Accepting? && NoStop(before) && !h.StopArrives?
    ensures AcceptRun(g, before).phase.Accepting? && AcceptRun(g, before + [h]).phase.Accepting?
    ensures Effect(AcceptRun(g, before), AcceptRun(g, before + [h]), h)
  {
    AcceptsInParts(g, before, [h]);
    assert [h][1..] == [];
  }

  /** How many connections come in before the first stop. */
  function Incomings(script: seq<Happening>): nat {
    if script == [] || script[0].StopArrives? then 0
    else (if script[0].Incoming? then 1 else 0) + Incomings(script[1..])
  }

  lemma {:induction false} DrainAcceptsNothing(g: Gen, script: seq<Happening>)
    requires g.phase.Draining?
    ensures |DrainRun(g, script).connections| == |g.connections|
    decreases |script|
  {
    if g.members != {} && script != [] && !ReadsPast(script[0], g.phase.since) {
      DrainAcceptsNothing(Attended(g, script[0]), script[1..]);
    }
  }

  /** Exactly the connections that come in before the first stop are accepted. */
  lemma {:induction false} AcceptsEveryIncoming(g: Gen, script: seq<Happening>)
    requires g.phase.Accepting?
    ensures |AcceptRun(g, script).connections| == |g.connections| + Incomings(script)
    decreases |script|
  {
    if script != [] {
      match script[0]
      case StopArrives(at) => DrainAcceptsNothing(StoppedAt(g, at), script[1..]);
      case Incoming(arriving) => AcceptsEveryIncoming(Apply(g, Accept(arriving), false, 0), script[1..]);
      case _ => AcceptsEveryIncoming(Attended(g, script[0]), script[1..]);
    }
  }

  // ----- What the drain does -----

  /** A clock reading at which the grace period of a drain that began at `since` is over, two seconds later. */
  predicate ReadsPast(h: Happening, since: nat) {
    h.ClockReads? && h.at >= since + 2000
  }

  predicate InTime(script: seq<Happening>, since: nat) {
    forall i :: 0 <= i < |script| ==> !ReadsPast(script[i], since)
  }

  predicate DoneInTime(g: Gen) {
    g.phase.Completed? && g.beatGrace && g.members == {}
  }

  predicate EndedAndJoined(g: Gen, script: seq<Happening>) {
    forall c :: c in g.members ==> c < |g.connections| && Connection.Over(g.connections[c]) && Ends(c) in script
  }

  /** What happens to a draining task whose members have all ended. */
  lemma AttendedStaysEnded(g: Gen, script: seq<Happening>)
    requires g.phase.Draining? && script != [] && EndedAndJoined(g, script)
    ensures EndedAndJoined(Attended(g, script[0]), script[1..])
  {
    var h, t := script[0], Attended(g, script[0]);
    if h.Moves? && Enabled(g, OnConnection(h.connection, h.step), true, 0) {
      OverIsFinal(g.connections[h.connection], h.step, g.signalled);
    }
    forall c | c in t.members
      ensures c < |t.connections| && Connection.Over(t.connections[c]) && Ends(c) in script[1..]
    {
      assert Ends(c) in script && (script[0] == Ends(c) ==> c !in t.members);
    }
  }

  /** A drain that sees no reading past the grace period and finds every member ended completes in time. */
  lemma {:induction false} DrainsInTime(g: Gen, script: seq<Happening>)
    requires g.phase.Draining? && InTime(script, g.phase.since) && EndedAndJoined(g, script)
    ensures DoneInTime(DrainRun(g, script))
    decreases |script|
  {
    if g.members != {} {
      var c :| c in g.members;
      assert Ends(c) in script;
      AttendedStaysEnded(g, script);
      assert InTime(script[1..], g.phase.since) by {
        assert forall i :: 0 <= i < |script[1..]| ==> script[1..][i] == script[i + 1];
      }
      assert !ReadsPast(script[0], g.phase.since);
      DrainsInTime(Attended(g, script[0]), script[1..]);
    }
  }

  /** A connection cut off: aborted, with no bridge left, and nothing joined that was not. */
  predicate CutOff(c: Connection.Conn, d: Connection.Conn) {
    if Connection.Over(c) then d == c
    else d.phase.Aborted? && d.bridges == multiset{} && d.joined == c.joined && d.requests == c.requests
  }

  /** A reading past the grace period ends the drain: what is left is cut off and none of it stays a member. */
  lemma LateReadingAborts(g: Gen, h: Happening, rest: seq<Happening>)
    requires g.phase.Draining? && g.members != {} && !g.beatGrace && ReadsPast(h, g.phase.since)
    ensures var d := DrainRun(g, [h] + rest);
      && d.phase.Completed? && !d.beatGrace && d.members == {} && |d.connections| == |g.connections|
      && (forall c :: 0 <= c < |g.connections| && c in g.members ==> CutOff(g.connections[c], d.connections[c]))
      && (forall c :: 0 <= c < |g.connections| && c !in g.members ==> d.connections[c] == g.connections[c])
  {
    assert ([h] + rest)[0] == h;
    assert CONNECTION_SHUTDOWN_GRACE == 2000;
  }

  lemma DrainGoesOn(g: Gen, h: Happening, rest: seq<Happening>)
    requires g.phase.Draining? && g.members != {} && !h.ClockReads?
    ensures DrainRun(g, [h] + rest) == DrainRun(Attended(g, h), rest)
  {
    assert ([h] + rest)[0] == h && ([h] + rest)[1..] == rest;
  }

  lemma GoesOn(g: Gen, step: Step)
    requires Inv(g) && Enabled(g, step, true, 0) && Own(step)
    ensures Inv(Apply(g, step, true, 0)) && Remaining(Apply(g, step, true, 0)) < Remaining(g)
  {
    InvStep(g, step, true, 0);
    OwnStepDecreases(g, step, true, 0);
  }

  /** An ended member can be joined, and any other can move. */
  lemma MemberCanGo(g: Gen, c: nat) returns (h: Happening)
    requires Inv(g) && g.phase.Draining? && c in g.members
    ensures (h.Moves? || h.Ends?) && Attended(g, h).phase == g.phase
    ensures Inv(Attended(g, h)) && Remaining(Attended(g, h)) < Remaining(g)
  {
    if Connection.Over(g.connections[c]) {
      h := Ends(c);
      GoesOn(g, Reap(c));
    } else {
      ConnectionRuns.SignalledTaskMoves(g.connections[c]);
      var s :| Connection.ByTask(s) && Connection.Enabled(g.connections[c], s, true);
      h := Moves(c, s);
      GoesOn(g, OnConnection(c, s));
    }
  }

  predicate OnlyMembers(script: seq<Happening>) {
    forall i :: 0 <= i < |script| ==> script[i].Moves? || script[i].Ends?
  }

  /**
   However its members stand, a task told to stop has a way to complete in time: their own steps and their ends, with no
   reading of the clock, empty the set.
   */
  lemma {:induction false} CanDrainInTime(g: Gen) returns (script: seq<Happening>)
    requires Inv(g) && g.phase.Draining?
    ensures OnlyMembers(script) && DoneInTime(DrainRun(g, script))
    decreases Remaining(g)
  {
    if g.members == {} {
      script := [];
    } else {
      var c :| c in g.members;
      var h := MemberCanGo(g, c);
      var rest := CanDrainInTime(Attended(g, h));
      DrainGoesOn(g, h, rest);
      script := [h] + rest;
    }
  }

  lemma CancelOne(g: Gen, c: nat, next: Connection.Conn)
    requires c in g.members && c < |g.connections| &&
      Cancelled(next, g.signalled) == Cancelled(g.connections[c], g.signalled)
    ensures AllCancelled(g.(connections := g.connections[c := next])) == AllCancelled(g)
  {
    var h := g.(connections := g.connections[c := next]);
    assert AllCancelled(h).connections == AllCancelled(g).connections;
  }

  lemma ReapOne(g: Gen, c: nat)
    requires c in g.members && c < |g.connections| && Connection.Over(g.connections[c])
    ensures AllCancelled(g.(members := g.members - {c})) == AllCancelled(g)
  {
    assert AllCancelled(g.(members := g.members - {c})).connections == AllCancelled(g).connections;
  }

  lemma NothingToCancel(g: Gen)
    requires g.members == {}
    ensures AllCancelled(g) == g
  {
    assert AllCancelled(g).connections == g.connections;
  }

  /** One step of a drain does not change what the abort will leave. */
  lemma DrainingOnCancels(c: Connection.Conn, signal: bool)
    requires c.phase.Draining?
    ensures c.queue == [] ==>
      Cancelled(Connection.Apply(c, Connection.DrainDone, signal), signal) == Cancelled(c, signal)
    ensures c.queue != [] ==>
      Cancelled(Connection.Apply(c, Connection.DrainOne, signal), signal) == Cancelled(c, signal)
  {
    if c.queue == [] {
      ConnectionTask.NothingToDrain(c);
    } else {
      ConnectionTask.SpawnDrains(c);
    }
  }

  predicate IsFirstStop(script: seq<Happening>, i: nat) {
    i < |script| && script[i].StopArrives? && forall k :: 0 <= k < i ==> !script[k].StopArrives?
  }

  class Task {
    var listening: bool
    var signalled: bool
    var connections: seq<Connection.Conn>
    var members: set<nat>
    var drainingSince: nat
    var completed: bool
    ghost var model: Gen

    ghost predicate Valid()
      reads this
    {
      && Inv(model)
      && model.listening == listening && model.signalled == signalled
      && model.connections == connections && model.members == members
      && completed == model.phase.Completed?
      && (model.phase.Draining? ==> model.phase.since == drainingSince)
    }

    constructor ()
      ensures Valid() && model == FRESH
    {
      listening, signalled, connections, members, completed := true, false, [], {}, false;
      drainingSince := 0;
      model := FRESH;
    }

    ghost method Record(step: Step, told: bool, now: nat)
      requires Inv(model) && Enabled(model, step, told, now)
      modifies this`model
      ensures Inv(model) && model == Apply(old(model), step, told, now)
    {
      InvStep(model, step, told, now);
      model := Apply(model, step, told, now);
    }

    method Spawn(arriving: set<nat>)
      requires Valid() && model.phase.Accepting?
      modifies this
      ensures Valid() && model == Apply(old(model), Accept(arriving), false, 0)
    {
      members := members + {|connections|};
      connections := connections + [Connection.Fresh(arriving)];
      Record(Accept(arriving), false, 0);
    }

    /** `join_next` yields an ended connection task. */
    method Join(c: nat)
      requires Valid() && Enabled(model, Reap(c), true, 0)
      modifies this
      ensures Valid() && model == Apply(old(model), Reap(c), true, 0) && drainingSince == old(drainingSince)
    {
      members := members - {c};
      Record(Reap(c), true, 0);
    }

    /** A connection task takes a step of its own. */
    method Move(c: nat, step: Connection.Step)
      requires Valid() && Enabled(model, OnConnection(c, step), true, 0)
      modifies this
      ensures Valid() && model == Apply(old(model), OnConnection(c, step), true, 0) &&
        drainingSince == old(drainingSince)
    {
      connections := connections[c := Connection.Apply(connections[c], step, signalled)];
      Record(OnConnection(c, step), true, 0);
    }

    method Cancel(c: nat)
      requires Valid() && Enabled(model, AbortConnection(c), true, 0)
      modifies this
      ensures Valid() && model == Apply(old(model), AbortConnection(c), true, 0)
    {
      connections := connections[c := Connection.Apply(connections[c], Connection.Abort, signalled)];
      Record(AbortConnection(c), true, 0);
    }

    /** Leaving the accept loop: broadcast to the connections, then drop the listener and start the drain. */
    method StopAccepting(now: nat)
      requires Valid() && model.phase.Accepting?
      modifies this
      ensures Valid() && model == StoppedAt(old(model), now)
    {
      signalled := true;
      Record(ObserveShutdown, true, now);
      listening := false;
      drainingSince := now;
      Record(CloseListener, true, now);
    }

    method Attend(h: Happening)
      requires Valid() && (model.phase.Accepting? || model.phase.Draining?)
      modifies this
      ensures Valid() && model == Attended(old(model), h) && drainingSince == old(drainingSince)
    {
      match h
      case Moves(c, step) =>
        if c < |connections| && !step.Abort? && Connection.Enabled(connections[c], step, signalled) { Move(c, step); }
      case Ends(c) =>
        if c in members && c < |connections| && Connection.Over(connections[c]) { Join(c); }
      case _ =>
    }

    /** One step towards an empty set: join an ended task, abort a waiting one, or let one between two awaits run on. */
    method AbortOne(c: nat)
      requires Valid() && model.phase.Aborting? && c in members
      modifies this
      ensures Valid() && Remaining(model) < Remaining(old(model))
      ensures model.phase.Aborting? && AllCancelled(model) == AllCancelled(old(model))
    {
      ghost var before := model;
      var connection := connections[c];
      if Connection.Over(connection) {
        ReapOne(before, c);
        OwnStepDecreases(before, Reap(c), true, 0);
        Join(c);
      } else if connection.phase.Draining? {
        var step := if connection.queue == [] then Connection.DrainDone else Connection.DrainOne;
        DrainingOnCancels(connection, signalled);
        CancelOne(before, c, Connection.Apply(connection, step, signalled));
        OwnStepDecreases(before, OnConnection(c, step), true, 0);
        Move(c, step);
      } else {
        CancelOne(before, c, Connection.Apply(connection, Connection.Abort, signalled));
        OwnStepDecreases(before, AbortConnection(c), true, 0);
        Cancel(c);
      }
    }

    /** `abort_all`, then join until the set is empty. */
    method AbortAll()
      requires Valid() && model.phase.Aborting?
      modifies this
      ensures Valid() && model == AllCancelled(old(model)) && members == {}
    {
      while members != {}
        invariant Valid() && model.phase.Aborting? && AllCancelled(model) == AllCancelled(old(model))
        decreases Remaining(model)
      {
        var c :| c in members;
        AbortOne(c);
      }
      NothingToCancel(model);
    }

    /** The accept loop over a script; it stops at the first stop message. Returns how far it got. */
    method AcceptLoop(script: seq<Happening>) returns (next: nat, stopped: bool)
      requires Valid() && model.phase.Accepting?
      modifies this
      ensures Valid() && next <= |script|
      ensures stopped == (exists i :: 0 <= i < |script| && script[i].StopArrives?)
      ensures stopped ==> 0 < next && script[next - 1].StopArrives? && script[next - 1].at == drainingSince
      ensures stopped ==> forall i :: 0 <= i < next - 1 ==> !script[i].StopArrives?
      ensures stopped ==> model.phase.Draining? && !listening && !model.beatGrace
      ensures stopped ==> AcceptRun(old(model), script) == DrainRun(model, script[next..])
      ensures !stopped ==> model.phase.Accepting? && listening && model == AcceptRun(old(model), script)
    {
      next := 0;
      while next < |script|
        invariant Valid() && model.phase.Accepting? && next <= |script|
        invariant AcceptRun(model, script[next..]) == AcceptRun(old(model), script)
        invariant forall i :: 0 <= i < next ==> !script[i].StopArrives?
      {
        var h := script[next];
        assert script[next..][0] == h && script[next..][1..] == script[next + 1..];
        next := next + 1;
        match h
        case StopArrives(at) =>
          StopAccepting(at);
          assert drainingSince == model.phase.since;
          return next, true;
        case Incoming(arriving) => Spawn(arriving);
        case _ => Attend(h);
      }
      stopped := false;
    }

    /** The drain under the grace period; `expired` when the clock ran out with connections left. */
    method Drain(script: seq<Happening>) returns (finished: bool, expired: bool)
      requires Valid() && model.phase.Draining? && !model.beatGrace
      modifies this
      ensures Valid()
      ensures finished ==>
        && !expired && model.phase.Completing? && model.beatGrace
        && DrainRun(old(model), script) == CompletedIn(model, true)
      ensures expired ==>
        model.phase.Aborting? && !model.beatGrace &&
          DrainRun(old(model), script) == CompletedIn(AllCancelled(model), false)
      ensures expired ==>
        exists i :: 0 <= i < |script| && script[i].ClockReads? &&
          script[i].at >= old(drainingSince) + CONNECTION_SHUTDOWN_GRACE
      ensures !finished && !expired ==> model.phase.Draining? && members != {} && model == DrainRun(old(model), script)
    {
      var next := 0;
      while members != {}
        invariant Valid() && model.phase.Draining? && !model.beatGrace && drainingSince == old(drainingSince) &&
          next <= |script|
        invariant DrainRun(model, script[next..]) == DrainRun(old(model), script)
        decreases |script| - next
      {
        if next == |script| {
          return false, false;
        }
        var h := script[next];
        assert script[next..][0] == h && script[next..][1..] == script[next + 1..];
        if h.ClockReads? {
          if h.at >= drainingSince + CONNECTION_SHUTDOWN_GRACE {
            Record(GraceElapsed, true, h.at);
            return false, true;
          }
        } else {
          Attend(h);
        }
        next := next + 1;
      }
      Record(DrainDone, true, 0);
      return true, false;
    }

    method Complete()
      requires Valid() && model.phase.Completing?
      modifies this
      ensures Valid() && completed && Quiet(model) && model == CompletedIn(old(model), old(model).beatGrace)
    {
      Record(SendCompletion, true, 0);
      completed := true;
      FinishedIsQuiet(model);
    }

    /**
     The whole task. It completes only quiet: listener closed, no connection left, and, unless the grace period was
     used up, every bridge of every connection joined.
     */
    method Run(script: seq<Happening>) returns (done: bool)
      requires Valid() && model == FRESH
      modifies this
      ensures Valid() && model == AcceptRun(FRESH, script) && done == completed
      ensures done ==> Quiet(model) && !listening && members == {}
      ensures done && !model.beatGrace ==>
        exists i, k :: 0 <= i < k < |script| && IsFirstStop(script, i) && script[k].ClockReads? &&
          script[k].at >= script[i].at + CONNECTION_SHUTDOWN_GRACE
      ensures !done ==> model.phase.Accepting? || (model.phase.Draining? && members != {})
    {
      var next, stopped := AcceptLoop(script);
      if !stopped {
        return false;
      }
      var finished, expired := Drain(script[next..]);
      if expired {
        ghost var k :| 0 <= k < |script[next..]| && script[next..][k].ClockReads? &&
          script[next..][k].at >= script[next - 1].at + CONNECTION_SHUTDOWN_GRACE;
        assert script[next..][k] == script[next + k] && IsFirstStop(script, next - 1);
        AbortAll();
        Record(AbortDone, true, 0);
      } else if !finished {
        return false;
      }
      Complete();
      done := true;
    }
  }
}
