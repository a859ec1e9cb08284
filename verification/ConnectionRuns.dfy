/** What holds over every run of one connection, whatever the interleaving. */
module ConnectionRuns {
  import opened Connection

  /** One step together with what the shutdown watch held when it was taken. */
  datatype Event = Event(step: Step, signal: bool)

  predicate Runs(c: Conn, events: seq<Event>)
    decreases |events|
  {
    events == [] ||
    (Enabled(c, events[0].step, events[0].signal) && Runs(Apply(c, events[0].step, events[0].signal), events[1..]))
  }

  function Final(c: Conn, events: seq<Event>): Conn
    requires Runs(c, events)
    decreases |events|
  {
    if events == [] then c else Final(Apply(c, events[0].step, events[0].signal), events[1..])
  }

  lemma {:induction false} InvOverRun(c: Conn, events: seq<Event>)
    requires Inv(c) && Runs(c, events)
    ensures Inv(Final(c, events))
    decreases |events|
  {
    if events != [] {
      InvStep(c, events[0].step, events[0].signal);
      InvOverRun(Apply(c, events[0].step, events[0].signal), events[1..]);
    }
  }

  lemma {:induction false} Extend(c: Conn, events: seq<Event>, last: Event)
    requires Runs(c, events) && Enabled(Final(c, events), last.step, last.signal)
    ensures Runs(c, events + [last])
    ensures Final(c, events + [last]) == Apply(Final(c, events), last.step, last.signal)
    decreases |events|
  {
    if events == [] {
      assert events + [last] == [last];
      assert [last][1..] == [];
    } else {
      assert (events + [last])[1..] == events[1..] + [last];
      Extend(Apply(c, events[0].step, events[0].signal), events[1..], last);
    }
  }

  lemma ReachableInv(arriving: set<nat>, events: seq<Event>)
    requires Runs(Fresh(arriving), events)
    ensures Inv(Final(Fresh(arriving), events))
  {
    FreshSatisfiesInv(arriving);
    InvOverRun(Fresh(arriving), events);
  }

  // ----- Conservation -----

  lemma {:induction false} AtMostOnce(s: seq<Job>, j: Job)
    requires NoRepeats(s)
    ensures multiset(s)[j] == if j in s then 1 else 0
  {
    if s != [] {
      var front, last := s[..|s| - 1], s[|s| - 1];
      assert s == front + [last];
      assert NoRepeats(front);
      AtMostOnce(front, j);
      assert last !in front;
    }
  }

  /**
   In every reachable state each enqueued job is in exactly one place: still queued, running,
   joined, dropped with the receiver, or cut off with the task. Nothing else is anywhere.
   */
  lemma JobsAreConserved(arriving: set<nat>, events: seq<Event>, j: Job)
    requires Runs(Fresh(arriving), events)
    ensures var c := Final(Fresh(arriving), events);
      multiset(c.queue)[j] + c.bridges[j] + c.joined[j] + multiset(c.dropped)[j] + c.cut[j] ==
        if j in c.enqueued then 1 else 0
  {
    ReachableInv(arriving, events);
    var c := Final(Fresh(arriving), events);
    AtMostOnce(c.enqueued, j);
    assert multiset(c.enqueued) == multiset(c.spawned) + multiset(c.queue) + multiset(c.dropped);
  }

  /**
   Every bridge spawned joins a request to the upstream stream of its own handshake, and no stream or request is used
   twice.
   */
  lemma BridgesArePaired(arriving: set<nat>, events: seq<Event>, i: nat, k: nat)
    requires Runs(Fresh(arriving), events)
    requires i < k < |Final(Fresh(arriving), events).spawned|
    ensures var c := Final(Fresh(arriving), events);
      && Holds(c, c.spawned[i]) && Holds(c, c.spawned[k])
      && c.spawned[i].inbound != c.spawned[k].inbound
      && c.spawned[i].outbound != c.spawned[k].outbound
  {
    ReachableInv(arriving, events);
    var c := Final(Fresh(arriving), events);
    assert c.enqueued[i] == c.spawned[i] && c.enqueued[k] == c.spawned[k];
    assert c.enqueued[i] in c.enqueued && c.enqueued[k] in c.enqueued;
    assert Holds(c, c.enqueued[i]) && Holds(c, c.enqueued[k]);
  }

  // ----- No promised tunnel is lost -----

  /**
   A tunnel-success response comes after exactly one enqueue for its request, that of its own stream, and a request that
   was refused or is not yet past its enqueue has none.
   */
  lemma PromisesAreBacked(arriving: set<nat>, events: seq<Event>, r: nat)
    requires Runs(Fresh(arriving), events)
    requires r in Final(Fresh(arriving), events).requests
    ensures var c := Final(Fresh(arriving), events);
      && (c.requests[r].Promised? ==>
            exists i :: 0 <= i < |c.enqueued| && c.enqueued[i] == Job(r, c.requests[r].stream) &&
              forall k :: 0 <= k < |c.enqueued| && c.enqueued[k].inbound == r ==> k == i)
      && (!c.requests[r].Promised? && !c.requests[r].Enqueued? ==> forall j :: j in c.enqueued ==> j.inbound != r)
  {
    ReachableInv(arriving, events);
    var c := Final(Fresh(arriving), events);
    if c.requests[r].Promised? {
      var j := Job(r, c.requests[r].stream);
      assert j in c.enqueued;
      var i :| 0 <= i < |c.enqueued| && c.enqueued[i] == j;
      assert forall k :: 0 <= k < |c.enqueued| && c.enqueued[k].inbound == r ==> k == i;
    }
    forall j | j in c.enqueued && j.inbound == r ensures c.requests[r].Promised? || c.requests[r].Enqueued? {
      assert Holds(c, j);
    }
  }

  /**
   Once the connection arm has fired and drained, every job enqueued before it is spawned, first come first spawned.
   */
  lemma EarlyJobsAreSpawned(arriving: set<nat>, events: seq<Event>)
    requires Runs(Fresh(arriving), events)
    ensures var c := Final(Fresh(arriving), events);
      && c.spawned <= c.enqueued
      && (c.finished && !c.phase.Draining? ==> c.early <= c.spawned)
  {
    ReachableInv(arriving, events);
  }

  lemma {:induction false} RunsInParts(c: Conn, before: seq<Event>, after: seq<Event>)
    requires Runs(c, before + after)
    ensures Runs(c, before) && Runs(Final(c, before), after)
    ensures Final(c, before + after) == Final(Final(c, before), after)
    decreases |before|
  {
    if before == [] {
      assert before + after == after;
    } else {
      assert (before + after)[1..] == before[1..] + after;
      RunsInParts(Apply(c, before[0].step, before[0].signal), before[1..], after);
    }
  }

  /** The connection arm fires at most once, so what it found enqueued is remembered for good. */
  lemma {:induction false} EarlyIsKept(c: Conn, events: seq<Event>)
    requires c.finished && Runs(c, events)
    ensures Final(c, events).finished && Final(c, events).early == c.early
    decreases |events|
  {
    if events != [] {
      EarlyIsKept(Apply(c, events[0].step, events[0].signal), events[1..]);
    }
  }

  /**
   In any run in which the connection arm fires, every job enqueued before that moment is spawned,
   and in the order of the enqueues, by the time the drain inside the arm is over.
   */
  lemma JobsBeforeTheEndAreSpawned(arriving: set<nat>, before: seq<Event>, signal: bool, after: seq<Event>)
    requires Runs(Fresh(arriving), before + ([Event(ConnectionArm, signal)] + after))
    requires !Final(Fresh(arriving), before + ([Event(ConnectionArm, signal)] + after)).phase.Draining?
    ensures Runs(Fresh(arriving), before)
    ensures Final(Fresh(arriving), before).enqueued <=
      Final(Fresh(arriving), before + ([Event(ConnectionArm, signal)] + after)).spawned
  {
    var start, rest := Fresh(arriving), [Event(ConnectionArm, signal)] + after;
    RunsInParts(start, before, rest);
    var c := Final(start, before);
    assert rest[1..] == after;
    EarlyIsKept(Apply(c, ConnectionArm, signal), after);
    ReachableInv(arriving, before + rest);
  }

  lemma {:induction false} PrefixIsIncluded(a: seq<Job>, b: seq<Job>)
    requires a <= b
    ensures multiset(a) <= multiset(b)
  {
    assert b == a + b[|a|..];
  }

  /**
   A task that returned left no bridge behind, joined every bridge it spawned, and dropped at most one job. That is
   never one enqueued before the connection ended, so nothing is lost if nothing is enqueued after the end.
   */
  lemma ReturnJoinsEveryBridge(arriving: set<nat>, events: seq<Event>)
    requires Runs(Fresh(arriving), events) && Final(Fresh(arriving), events).phase.Returned?
    ensures var c := Final(Fresh(arriving), events);
      && c.bridges == multiset{} && c.queue == []
      && multiset(c.spawned) == c.joined
      && c.enqueued == c.spawned + c.dropped && |c.dropped| <= 1
      && multiset(c.early) <= c.joined && (forall j :: j in c.early ==> j !in c.dropped)
      && (c.enqueued == c.early ==> c.dropped == [])
  {
    ReachableInv(arriving, events);
    var c := Final(Fresh(arriving), events);
    assert c.enqueued == c.spawned + c.dropped;
    PrefixIsIncluded(c.early, c.spawned);
    forall j | j in c.early ensures j !in c.dropped {
      AtMostOnce(c.enqueued, j);
      assert multiset(c.enqueued) == multiset(c.spawned) + multiset(c.dropped);
      assert j in multiset(c.early);
    }
  }

  /** A handshake that is finished when the connection has ended and no bridge is left. */
  const LATE_HANDSHAKE: seq<Event> := [
    Event(Handshake(0), false), Event(ConnectionArm, false), Event(DrainDone, false),
    Event(Enqueue(0), false), Event(Respond(0), false), Event(Return, false)]

  /**
   Such a handshake can lose its tunnel without any shutdown: success is promised, and the job goes with the receiver.
   */
  lemma PromiseCanBeLost()
    ensures Runs(Fresh({0}), LATE_HANDSHAKE)
    ensures var c := Final(Fresh({0}), LATE_HANDSHAKE);
      c.phase == Returned(false) && Stage(c, 0, Promised(0)) && c.dropped == [Job(0, 0)] && c.spawned == []
  {
    var c0 := Fresh({0});
    var c1 := Apply(c0, Handshake(0), false);
    var c2 := Apply(c1, ConnectionArm, false);
    var c3 := Apply(c2, DrainDone, false);
    LateHalf(c3, LATE_HANDSHAKE[3..]);
    assert LATE_HANDSHAKE[1..][1..][1..] == LATE_HANDSHAKE[3..];
    assert Runs(c2, LATE_HANDSHAKE[1..][1..]) && Final(c2, LATE_HANDSHAKE[1..][1..]) == Final(c3, LATE_HANDSHAKE[3..]);
    assert Runs(c1, LATE_HANDSHAKE[1..]) && Final(c1, LATE_HANDSHAKE[1..]) == Final(c3, LATE_HANDSHAKE[3..]);
  }

  lemma LateHalf(c: Conn, events: seq<Event>)
    requires events == [Event(Enqueue(0), false), Event(Respond(0), false), Event(Return, false)]
    requires c.phase.Selecting? && c.finished && c.bridges == multiset{} && c.sendersAlive
    requires c.queue == [] && c.dropped == [] && Stage(c, 0, Connected(0))
    ensures Runs(c, events)
    ensures var d := Final(c, events);
      d.phase == Returned(false) && Stage(d, 0, Promised(0)) && d.dropped == [Job(0, 0)] && d.spawned == c.spawned
  {
    var d := Apply(c, Enqueue(0), false);
    var e := Apply(d, Respond(0), false);
    var f := Apply(e, Return, false);
    assert events[1..][1..] == [Event(Return, false)] && events[1..][1..][1..] == [];
    assert Runs(e, [Event(Return, false)]) && Final(e, [Event(Return, false)]) == f;
    assert Runs(d, events[1..]) && Final(d, events[1..]) == f;
    assert f.dropped == [] + [Job(0, 0)];
  }

  // ----- Termination -----

  function Unenqueued(requests: map<nat, Request>): set<nat> {
    set r | r in requests && (requests[r].Waiting? || requests[r].Connected?)
  }

  function Unsubmitted(c: Conn): set<nat> {
    Unenqueued(c.requests)
  }

  function Rank(phase: Phase): nat {
    match phase
    case Draining => 3
    case Selecting => 2
    case Joining => 1
    case _ => 0
  }

  function Measure(c: Conn): nat {
    2 * (|Unsubmitted(c)| + |c.queue|) + |c.bridges| + (if c.channelOpen then 1 else 0) +
      (if c.finished then 0 else 2) + Rank(c.phase)
  }

  lemma SpawnDecreases(c: Conn)
    requires c.queue != []
    ensures Measure(Spawn(c)) == Measure(c) - 1
  {
    assert |Spawn(c).bridges| == |c.bridges| + 1;
  }

  lemma JoinDecreases(c: Conn, b: Job)
    requires b in c.bridges
    ensures Measure(Join(c, b)) == Measure(c) - 1
  {
    assert |Join(c, b).bridges| == |c.bridges| - 1;
  }

  lemma TaskStepDecreases(c: Conn, step: Step, signal: bool)
    requires Enabled(c, step, signal) && ByTask(step)
    ensures Measure(Apply(c, step, signal)) < Measure(c)
  {
    match step
    case ReceiveArm => SpawnDecreases(c);
    case DrainOne => SpawnDecreases(c);
    case JoinArm(b) => JoinDecreases(c, b);
    case JoinAborted(b) => JoinDecreases(c, b);
    case _ =>
  }

  /** A request that moves on never comes back before its enqueue. */
  lemma MovesOn(requests: map<nat, Request>, r: nat, next: Request)
    requires r in requests && !next.Waiting? && (next.Connected? ==> requests[r].Waiting?)
    ensures Unenqueued(requests[r := next]) ==
      if next.Connected? then Unenqueued(requests) else Unenqueued(requests) - {r}
  {
  }

  lemma OtherStepDoesNotIncrease(c: Conn, step: Step, signal: bool)
    requires Enabled(c, step, signal) && !ByTask(step)
    ensures Measure(Apply(c, step, signal)) <= Measure(c)
  {
    match step
    case Handshake(r) => MovesOn(c.requests, r, Connected(c.streams));
    case Refuse(r) => MovesOn(c.requests, r, Refused);
    case SendFails(r) => MovesOn(c.requests, r, Refused);
    case Enqueue(r) =>
      assert r in Unenqueued(c.requests);
      MovesOn(c.requests, r, Enqueued(c.requests[r].stream));
    case Respond(r) => MovesOn(c.requests, r, Promised(c.requests[r].stream));
    case _ =>
  }

  function TaskSteps(events: seq<Event>): nat {
    if events == [] then 0 else (if ByTask(events[0].step) then 1 else 0) + TaskSteps(events[1..])
  }

  lemma {:induction false} MeasureBoundsRun(c: Conn, events: seq<Event>)
    requires Runs(c, events)
    ensures TaskSteps(events) + Measure(Final(c, events)) <= Measure(c)
    decreases |events|
  {
    if events != [] {
      var d := Apply(c, events[0].step, events[0].signal);
      if ByTask(events[0].step) {
        TaskStepDecreases(c, events[0].step, events[0].signal);
      } else {
        OtherStepDoesNotIncrease(c, events[0].step, events[0].signal);
      }
      MeasureBoundsRun(d, events[1..]);
    }
  }

  /** A connection that serves n requests costs its task at most 2n + 5 steps, however they interleave. */
  lemma TaskIsBounded(arriving: set<nat>, events: seq<Event>)
    requires Runs(Fresh(arriving), events)
    ensures TaskSteps(events) <= 2 * |arriving| + 5
  {
    MeasureBoundsRun(Fresh(arriving), events);
    assert Unsubmitted(Fresh(arriving)) == arriving;
  }

  /** Once shutdown is signalled the task is never stuck: it is over, or one of its own steps can be taken. */
  lemma SignalledTaskMoves(c: Conn)
    ensures Over(c) || exists step :: ByTask(step) && Enabled(c, step, true)
  {
    match c.phase
    case Selecting =>
      var step := if NothingLeft(c) then Return else ShutdownArm;
      assert ByTask(step) && Enabled(c, step, true);
    case Draining =>
      var step := if c.queue == [] then DrainDone else DrainOne;
      assert ByTask(step) && Enabled(c, step, true);
    case Joining =>
      if c.bridges == multiset{} {
        assert ByTask(ReturnAfterAbort) && Enabled(c, ReturnAfterAbort, true);
      } else {
        var b :| b in c.bridges;
        assert ByTask(JoinAborted(b)) && Enabled(c, JoinAborted(b), true);
      }
    case _ =>
  }
}
