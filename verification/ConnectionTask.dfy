/**
 The supervising loop of one connection as the program runs it: local flags, the bridge channel
 and the set of bridge tasks, updated arm by arm. Each arm is proved to be a step of `Connection`.
 */
module ConnectionTask {
  import opened Wrappers
  import opened Connection
  import opened ConnectionRuns

  /**
   What the loop finds when it polls its arms: the requests that moved on before it polled, those that move on
   while it polls the connection future, which serves them, whether shutdown is signalled, whether the connection
   future is ready, and which bridge task has ended.
   */
  datatype Poll = Poll(requests: seq<Step>, during: seq<Step>, signal: bool, ready: bool, ended: Option<Job>)

  predicate IsRequestStep(step: Step) {
    step.Handshake? || step.Refuse? || step.Enqueue? || step.Respond? || step.DropSenders?
  }

  /** The arm a biased select takes: shutdown before the bridge channel, the connection and the bridge set. */
  function Choice(c: Conn, poll: Poll): (step: Option<Step>)
    requires AtSelect(c)
    ensures step.Some? ==> ByTask(step.value) && Enabled(c, step.value, poll.signal)
  {
    if poll.signal then Some(ShutdownArm)
    else if c.channelOpen && c.queue != [] then Some(ReceiveArm)
    else if c.channelOpen && !c.sendersAlive then Some(ChannelClosedArm)
    else if !c.finished && poll.ready then Some(ConnectionArm)
    else if poll.ended.Some? && poll.ended.value in c.bridges then Some(JoinArm(poll.ended.value))
    else None
  }

  /** A request moves on if it can. */
  function Moved(c: Conn, step: Step): Conn {
    if IsRequestStep(step) && Enabled(c, step, false) then Apply(c, step, false) else c
  }

  function Served(c: Conn, steps: seq<Step>): Conn
    decreases |steps|
  {
    if steps == [] then c else Served(Moved(c, steps[0]), steps[1..])
  }

  /** Everything queued is spawned, in order, and selecting goes on. */
  function Drained(c: Conn): Conn {
    c.(phase := Selecting, queue := [], bridges := c.bridges + multiset(c.queue), spawned := c.spawned + c.queue)
  }

  /** Every bridge is joined and the receiver dropped. */
  function Joined(c: Conn): Conn {
    Leave(c.(bridges := multiset{}, joined := c.joined + c.bridges), Returned(true))
  }

  /** An arm that comes before the connection is ready, so the connection is not polled. */
  predicate DecidedEarly(c: Conn, poll: Poll) {
    poll.signal || (c.channelOpen && (c.queue != [] || !c.sendersAlive))
  }

  /** The state once the connection has been polled, if it is: what it serves may have moved on. */
  function Polled(c: Conn, poll: Poll): Conn {
    if DecidedEarly(c, poll) || c.finished then c else Served(c, poll.during)
  }

  /** What one pass through the select leads to. */
  function Selected(c: Conn, poll: Poll): Conn
    requires AtSelect(c)
  {
    PolledKeeps(c, poll);
    match Choice(c, poll)
    case None => Polled(c, poll)
    case Some(step) =>
      var next := Apply(Polled(c, poll), step, poll.signal);
      if step.ConnectionArm? then Drained(next) else next
  }

  /** What the loop leads to over a script of polls: it returns as soon as nothing is left or shutdown is signalled. */
  function Supervised(c: Conn, polls: seq<Poll>): Conn
    requires c.phase.Selecting?
    decreases |polls|
  {
    if NothingLeft(c) then Leave(c, Returned(false))
    else if polls == [] then c
    else
      ServedKeeps(c, polls[0].requests);
      SelectedPhase(Served(c, polls[0].requests), polls[0]);
      var next := Selected(Served(c, polls[0].requests), polls[0]);
      if next.phase.Joining? then Joined(next) else Supervised(next, polls[1..])
  }

  /** Requests leave the flags and the bridge set of the loop alone, and what became of earlier jobs. */
  predicate SameLoop(c: Conn, d: Conn) {
    && d.phase == c.phase && d.finished == c.finished && d.channelOpen == c.channelOpen && d.bridges == c.bridges
    && d.spawned == c.spawned && d.joined == c.joined && d.dropped == c.dropped
  }

  lemma MovedKeeps(c: Conn, step: Step)
    ensures SameLoop(c, Moved(c, step))
  {
  }

  lemma {:induction false} ServedKeeps(c: Conn, steps: seq<Step>)
    ensures SameLoop(c, Served(c, steps))
    decreases |steps|
  {
    if steps != [] {
      MovedKeeps(c, steps[0]);
      ServedKeeps(Moved(c, steps[0]), steps[1..]);
    }
  }

  lemma PolledKeeps(c: Conn, poll: Poll)
    requires AtSelect(c)
    ensures SameLoop(c, Polled(c, poll)) && AtSelect(Polled(c, poll))
    ensures Choice(c, poll).Some? ==> Enabled(Polled(c, poll), Choice(c, poll).value, poll.signal)
  {
    ServedKeeps(c, poll.during);
  }

  lemma SupervisedOnce(c: Conn, polls: seq<Poll>, next: Conn)
    requires AtSelect(c) && polls != [] && AtSelect(Served(c, polls[0].requests))
    requires next == Selected(Served(c, polls[0].requests), polls[0]) && (next.phase.Joining? || next.phase.Selecting?)
    ensures Supervised(c, polls) == if next.phase.Joining? then Joined(next) else Supervised(next, polls[1..])
  {
  }

  /** The select ends the loop exactly when shutdown is signalled. */
  lemma SelectedPhase(c: Conn, poll: Poll)
    requires AtSelect(c)
    ensures Selected(c, poll).phase == if poll.signal then Joining else Selecting
  {
    PolledKeeps(c, poll);
  }

  lemma SpawnDrains(c: Conn)
    requires c.queue != []
    ensures Drained(Spawn(c)) == Drained(c)
  {
    assert c.queue == [c.queue[0]] + c.queue[1..];
    assert c.spawned + [c.queue[0]] + c.queue[1..] == c.spawned + c.queue;
  }

  lemma NothingToDrain(c: Conn)
    requires c.queue == []
    ensures Drained(c) == c.(phase := Selecting)
  {
    assert c.spawned + c.queue == c.spawned;
  }

  lemma JoinJoins(c: Conn, b: Job)
    requires b in c.bridges
    ensures Joined(Join(c, b)) == Joined(c)
  {
    assert c.joined + multiset{b} + (c.bridges - multiset{b}) == c.joined + c.bridges;
  }

  /**
   A pass does what its first ready arm demands, arm by arm: shutdown, the next job, the closed channel, the end of the
   connection with its drain, an ended bridge. If none is ready, only requests have moved on.
   */
  lemma PassDoesFirstReadyArm(c: Conn, poll: Poll)
    requires AtSelect(c)
    ensures var d, served := Selected(c, poll), if c.finished then c else Served(c, poll.during);
      if poll.signal then d == c.(phase := Joining)
      else if c.channelOpen && c.queue != [] then
        && d.spawned == c.spawned + [c.queue[0]] && d.queue == c.queue[1..]
        && d.bridges == c.bridges + multiset{c.queue[0]} && d.joined == c.joined && d.finished == c.finished
      else if c.channelOpen && !c.sendersAlive then d == c.(channelOpen := false)
      else if !c.finished && poll.ready then
        && d.finished && d.queue == [] && d.early == served.enqueued
        && d.spawned == c.spawned + served.queue && d.bridges == c.bridges + multiset(served.queue) &&
             d.joined == c.joined
      else if poll.ended.Some? && poll.ended.value in c.bridges then
        && d.bridges == c.bridges - multiset{poll.ended.value} && d.joined == c.joined + multiset{poll.ended.value}
        && d.queue == served.queue && d.spawned == c.spawned && d.finished == c.finished
      else d == served
  {
    PolledKeeps(c, poll);
    ServedKeeps(c, poll.during);
  }

  // ----- Returning without a shutdown -----

  /** One pass for each bridge, in the order in which they end, with nothing else going on. */
  function QuietPolls(order: seq<Job>): seq<Poll> {
    if order == [] then [] else [Poll([], [], false, false, Some(order[0]))] + QuietPolls(order[1..])
  }

  predicate OnlyBridgesLeft(c: Conn, order: seq<Job>) {
    c.phase.Selecting? && c.finished && c.queue == [] && multiset(order) == c.bridges
  }

  lemma QuietPass(c: Conn, b: Job, polls: seq<Poll>)
    requires AtSelect(c) && c.finished && c.queue == [] && (c.channelOpen ==> c.sendersAlive) && b in c.bridges
    requires polls != [] && polls[0] == Poll([], [], false, false, Some(b))
    ensures Supervised(c, polls) == Supervised(Join(c, b), polls[1..])
  {
    assert Served(c, polls[0].requests) == c;
    assert Selected(c, polls[0]) == Join(c, b);
    SupervisedOnce(c, polls, Join(c, b));
  }

  /** The loop has returned without a shutdown, with every bridge it had joined and nothing dropped. */
  predicate ReturnedWithAll(c: Conn, d: Conn) {
    d.phase == Returned(false) && d.bridges == multiset{} && d.joined == c.joined + c.bridges && d.dropped == c.dropped
  }

  lemma ReturnsWithNothingLeft(c: Conn, polls: seq<Poll>)
    requires c.phase.Selecting? && NothingLeft(c) && c.queue == []
    ensures ReturnedWithAll(c, Supervised(c, polls))
  {
    assert c.dropped + [] == c.dropped;
  }

  lemma ReturnsAfterJoin(c: Conn, b: Job, d: Conn)
    requires b in c.bridges && ReturnedWithAll(Join(c, b), d)
    ensures ReturnedWithAll(c, d)
  {
    assert c.joined + multiset{b} + (c.bridges - multiset{b}) == c.joined + c.bridges;
  }

  lemma JoinLeavesRest(c: Conn, order: seq<Job>)
    requires order != [] && OnlyBridgesLeft(c, order)
    ensures order[0] in c.bridges && OnlyBridgesLeft(Join(c, order[0]), order[1..])
  {
    assert order == [order[0]] + order[1..];
  }

  lemma {:induction false} QuietPollsReturn(c: Conn, order: seq<Job>)
    requires OnlyBridgesLeft(c, order) && (c.channelOpen ==> c.sendersAlive)
    ensures ReturnedWithAll(c, Supervised(c, QuietPolls(order)))
    decreases |order|
  {
    if order == [] {
      ReturnsWithNothingLeft(c, []);
    } else {
      var b, rest := order[0], order[1..];
      JoinLeavesRest(c, order);
      QuietPass(c, b, QuietPolls(order));
      assert QuietPolls(order)[1..] == QuietPolls(rest);
      QuietPollsReturn(Join(c, b), rest);
      ReturnsAfterJoin(c, b, Supervised(Join(c, b), QuietPolls(rest)));
    }
  }

  /** A pass in which nothing is ready, except that the channel may be found closed. */
  lemma EmptyPass(c: Conn, polls: seq<Poll>)
    requires AtSelect(c) && c.finished && c.queue == [] && polls != [] && polls[0] == Poll([], [], false, false, None)
    ensures Supervised(c, polls) ==
      Supervised(if c.channelOpen && !c.sendersAlive then c.(channelOpen := false) else c, polls[1..])
  {
    var next := if c.channelOpen && !c.sendersAlive then c.(channelOpen := false) else c;
    assert Served(c, polls[0].requests) == c;
    assert Selected(c, polls[0]) == next;
    SupervisedOnce(c, polls, next);
  }

  /**
   Once the connection has ended and its queue is empty, the loop needs no shutdown to return: one pass for the channel
   and one for each bridge that ends, in any order, and all of them are joined.
   */
  lemma EndedConnectionReturns(c: Conn, order: seq<Job>)
    requires OnlyBridgesLeft(c, order)
    ensures ReturnedWithAll(c, Supervised(c, [Poll([], [], false, false, None)] + QuietPolls(order)))
  {
    var polls := [Poll([], [], false, false, None)] + QuietPolls(order);
    if NothingLeft(c) {
      ReturnsWithNothingLeft(c, polls);
    } else {
      EmptyPass(c, polls);
      assert polls[1..] == QuietPolls(order);
      QuietPollsReturn(if c.channelOpen && !c.sendersAlive then c.(channelOpen := false) else c, order);
    }
  }

  /** A script goes on where its first part left off. */
  lemma {:induction false} SupervisedInParts(c: Conn, before: seq<Poll>, after: seq<Poll>)
    requires c.phase.Selecting? && Supervised(c, before).phase.Selecting?
    ensures Supervised(c, before + after) == Supervised(Supervised(c, before), after)
    decreases |before|
  {
    if before == [] {
      assert before + after == after;
    } else {
      assert (before + after)[0] == before[0] && (before + after)[1..] == before[1..] + after;
      ServedKeeps(c, before[0].requests);
      SelectedPhase(Served(c, before[0].requests), before[0]);
      var next := Selected(Served(c, before[0].requests), before[0]);
      SupervisedOnce(c, before, next);
      SupervisedOnce(c, before + after, next);
      SupervisedInParts(next, before[1..], after);
    }
  }

  /** So whatever script has led to such a state, the loop returns when the remaining bridges have ended. */
  lemma TunnelsThatEndAreJoined(arriving: set<nat>, polls: seq<Poll>, order: seq<Job>)
    requires OnlyBridgesLeft(Supervised(Fresh(arriving), polls), order)
    ensures ReturnedWithAll(Supervised(Fresh(arriving), polls),
      Supervised(Fresh(arriving), polls + ([Poll([], [], false, false, None)] + QuietPolls(order))))
  {
    SupervisedInParts(Fresh(arriving), polls, [Poll([], [], false, false, None)] + QuietPolls(order));
    EndedConnectionReturns(Supervised(Fresh(arriving), polls), order);
  }

  /** A ready connection that ends with one job on the channel, put there while it was polled. */
  lemma LastPoll(c: Conn, poll: Poll, d: Conn)
    requires AtSelect(c) && !DecidedEarly(c, poll) && !c.finished && poll.ready && d == Served(c, poll.during)
    ensures !d.finished && AtSelect(d) && Selected(c, poll) == Drained(Apply(d, ConnectionArm, poll.signal))
  {
    PolledKeeps(c, poll);
  }

  lemma OneServed(c: Conn, step: Step)
    ensures Served(c, [step]) == Moved(c, step)
  {
    assert [step][1..] == [];
  }

  /** A script of one such poll. */
  lemma LastPollOnly(c: Conn, poll: Poll, one: Conn, d: Conn)
    requires AtSelect(c) && one == Served(c, poll.requests) && AtSelect(one) && !DecidedEarly(one, poll) &&
      !one.finished
    requires poll.ready && !poll.signal && d == Served(one, poll.during) && d.queue != []
    ensures !d.finished && AtSelect(d) && Supervised(c, [poll]) == Drained(Apply(d, ConnectionArm, false))
  {
    LastPoll(one, poll, d);
    var next := Drained(Apply(d, ConnectionArm, false));
    SupervisedOnce(c, [poll], next);
    assert d.queue[0] in next.bridges;
    assert [poll][1..] == [];
  }

  /** The state after the handshake, and after its job is on the channel. */
  lemma LastJobServed(one: Conn, two: Conn)
    requires one == Moved(Fresh({0}), Handshake(0)) && two == Moved(one, Enqueue(0))
    ensures AtSelect(one) && !one.finished && one.queue == [] && one.sendersAlive
    ensures two.queue == two.enqueued == [Job(0, 0)] && two.spawned == []
  {
  }

  /**
   The drain is there for a handshake that is finished in the very poll in which the connection ends: its job comes
   after the bridge channel was polled.
   */
  lemma DrainCatchesLastJob()
    ensures var d := Supervised(Fresh({0}), [Poll([Handshake(0)], [Enqueue(0)], false, true, None)]);
      d.finished && d.early == d.spawned == [Job(0, 0)] && d.queue == []
  {
    var c, poll := Fresh({0}), Poll([Handshake(0)], [Enqueue(0)], false, true, None);
    var one := Served(c, [Handshake(0)]);
    var two := Served(one, [Enqueue(0)]);
    OneServed(c, Handshake(0));
    OneServed(one, Enqueue(0));
    LastJobServed(one, two);
    LastPollOnly(c, poll, one, two);
  }

  class Supervisor {
    var connectionFinished: bool
    var bridgeChannelOpen: bool
    var bridges: multiset<Job>
    var queue: seq<Job>
    var sendersAlive: bool
    var requests: map<nat, Request>
    var streams: nat

    ghost const arriving: set<nat>
    ghost var model: Conn
    ghost var events: seq<Event>

    /** The fields are the state the recorded steps lead to from a fresh connection. */
    ghost predicate Valid()
      reads this
    {
      && Runs(Fresh(arriving), events)
      && model == Final(Fresh(arriving), events)
      && model.finished == connectionFinished
      && model.channelOpen == bridgeChannelOpen
      && model.bridges == bridges
      && model.queue == queue
      && model.sendersAlive == sendersAlive
      && model.requests == requests
      && model.streams == streams
    }

    constructor (arriving: set<nat>)
      ensures Valid() && this.arriving == arriving && model == Fresh(arriving)
    {
      connectionFinished, bridgeChannelOpen, bridges := false, true, multiset{};
      queue, sendersAlive, requests, streams := [], true, map r | r in arriving :: Waiting, 0;
      this.arriving := arriving;
      model, events := Fresh(arriving), [];
    }

    ghost method Record(step: Step, signal: bool)
      requires Runs(Fresh(arriving), events) && model == Final(Fresh(arriving), events) && Enabled(model, step, signal)
      modifies this`model, this`events
      ensures Runs(Fresh(arriving), events) && model == Final(Fresh(arriving), events)
      ensures model == Apply(old(model), step, signal) && events == old(events) + [Event(step, signal)]
    {
      Extend(Fresh(arriving), events, Event(step, signal));
      model, events := Apply(model, step, signal), events + [Event(step, signal)];
    }

    /** `bridges.spawn` of the job received first. */
    method SpawnNext(ghost step: Step, ghost signal: bool)
      requires Valid() && (step == ReceiveArm || step == DrainOne) && Enabled(model, step, signal)
      modifies this
      ensures Valid() && model == Apply(old(model), step, signal)
    {
      var job := queue[0];
      queue := queue[1..];
      bridges := bridges + multiset{job};
      Record(step, signal);
    }

    method SetRequest(r: nat, next: Request, ghost step: Step)
      requires Valid() && Enabled(model, step, false)
      requires step == Refuse(r) || step == Respond(r)
      requires next == if step.Refuse? then Refused else Promised(requests[r].stream)
      modifies this
      ensures Valid() && model == Apply(old(model), step, false)
    {
      requests := requests[r := next];
      Record(step, false);
    }

    method FinishHandshake(r: nat)
      requires Valid() && Enabled(model, Handshake(r), false)
      modifies this
      ensures Valid() && model == Apply(old(model), Handshake(r), false)
    {
      requests, streams := requests[r := Connected(streams)], streams + 1;
      Record(Handshake(r), false);
    }

    /** `bridge_tx.send` of the job of request `r`. */
    method Send(r: nat)
      requires Valid() && Enabled(model, Enqueue(r), false)
      modifies this
      ensures Valid() && model == Apply(old(model), Enqueue(r), false)
    {
      queue := queue + [Job(r, requests[r].stream)];
      requests := requests[r := Enqueued(requests[r].stream)];
      Record(Enqueue(r), false);
    }

    method HangUp()
      requires Valid() && Enabled(model, DropSenders, false)
      modifies this
      ensures Valid() && model == Apply(old(model), DropSenders, false)
    {
      sendersAlive := false;
      Record(DropSenders, false);
    }

    /** The fields as a state without a history. */
    function Now(): Conn
      reads this
    {
      Conn(Selecting, connectionFinished, bridgeChannelOpen, sendersAlive, queue, bridges, requests, streams,
           [], [], multiset{}, [], multiset{}, [])
    }

    /** The history does not matter for what a request can do. */
    lemma NowDecides(step: Step)
      requires Valid() && AtSelect(model) && IsRequestStep(step)
      ensures Enabled(Now(), step, false) <==> Enabled(model, step, false)
    {
    }

    method Take(step: Step)
      requires Valid() && IsRequestStep(step) && Enabled(model, step, false)
      modifies this
      ensures Valid() && model == Apply(old(model), step, false)
    {
      match step
      case Handshake(r) => FinishHandshake(r);
      case Refuse(r) => SetRequest(r, Refused, step);
      case Enqueue(r) => Send(r);
      case Respond(r) => SetRequest(r, Promised(requests[r].stream), step);
      case DropSenders => HangUp();
    }

    /** One request of the environment moves on, if it can. */
    method Move(step: Step)
      requires Valid() && AtSelect(model)
      modifies this
      ensures Valid() && model == Moved(old(model), step)
    {
      if IsRequestStep(step) {
        NowDecides(step);
        if Enabled(Now(), step, false) {
          Take(step);
        }
      }
    }

    /** The body of the connection arm: note that it ended, then spawn whatever is queued. */
    method ConnectionEnded(ghost signal: bool)
      requires Valid() && AtSelect(model) && !connectionFinished
      modifies this
      ensures Valid() && model == Drained(Apply(old(model), ConnectionArm, signal))
    {
      connectionFinished := true;
      Record(ConnectionArm, signal);
      ghost var ended := model;
      while queue != []
        invariant Valid() && model.phase.Draining? && Drained(model) == Drained(ended)
        decreases |queue|
      {
        SpawnDrains(model);
        SpawnNext(DrainOne, signal);
      }
      assert Drained(model) == model.(phase := Selecting) by { NothingToDrain(model); }
      Record(DrainDone, signal);
    }

    /** `join_next` yields the ended task `bridge`. */
    method JoinNext(bridge: Job, ghost step: Step)
      requires Valid() && (step == JoinArm(bridge) || step == JoinAborted(bridge)) && Enabled(model, step, false)
      modifies this
      ensures Valid() && model == Apply(old(model), step, false)
    {
      bridges := bridges - multiset{bridge};
      Record(step, false);
    }

    /** Dropping the locals of the task drops the receiver and whatever is queued in it. */
    method DropReceiver(ghost step: Step)
      requires Valid() && (step == Return || step == ReturnAfterAbort) && Enabled(model, step, false)
      modifies this
      ensures Valid() && model == Apply(old(model), step, false)
    {
      queue := [];
      Record(step, false);
    }

    /** `abort_all`, then join until the set is empty. */
    method AbortBridges()
      requires Valid() && model.phase.Joining?
      modifies this
      ensures Valid() && model == Joined(old(model))
    {
      while bridges != multiset{}
        invariant Valid() && model.phase.Joining? && Joined(model) == Joined(old(model))
        decreases |bridges|
      {
        var bridge :| bridge in bridges;
        JoinJoins(model, bridge);
        JoinNext(bridge, JoinAborted(bridge));
      }
      DropReceiver(ReturnAfterAbort);
    }

    /** The connection future is polled unless it has finished, and serves requests meanwhile. */
    method PollConnection(poll: Poll)
      requires Valid() && AtSelect(model) && !DecidedEarly(model, poll)
      modifies this
      ensures Valid() && model == Polled(old(model), poll)
    {
      if !connectionFinished {
        Serve(poll.during);
      }
    }

    /** The last two arms: the connection, then the bridge set. */
    method SelectLate(poll: Poll)
      requires Valid() && AtSelect(model) && !DecidedEarly(model, poll)
      modifies this
      ensures Valid() && model == Selected(old(model), poll)
    {
      PolledKeeps(model, poll);
      PollConnection(poll);
      if !connectionFinished && poll.ready {
        ConnectionEnded(false);
      } else if poll.ended.Some? && poll.ended.value in bridges {
        JoinNext(poll.ended.value, JoinArm(poll.ended.value));
      }
    }

    /** One biased select: of the ready arms, only the first in the order of the source is taken. */
    method Select(poll: Poll)
      requires Valid() && AtSelect(model)
      modifies this
      ensures Valid() && model == Selected(old(model), poll)
    {
      if poll.signal {
        Record(ShutdownArm, true);
      } else if bridgeChannelOpen && queue != [] {
        SpawnNext(ReceiveArm, false);
      } else if bridgeChannelOpen && !sendersAlive {
        bridgeChannelOpen := false;
        Record(ChannelClosedArm, false);
      } else {
        SelectLate(poll);
      }
    }

    method Serve(steps: seq<Step>)
      requires Valid() && AtSelect(model)
      modifies this
      ensures Valid() && AtSelect(model) && model == Served(old(model), steps)
    {
      for i := 0 to |steps|
        invariant Valid() && AtSelect(model) && Served(model, steps[i..]) == Served(old(model), steps)
      {
        assert steps[i..][0] == steps[i] && steps[i..][1..] == steps[i + 1..];
        MovedKeeps(model, steps[i]);
        Move(steps[i]);
      }
    }

    /**
     The loop over a script of polls; it stops early when it returns. A signalled shutdown ends it whatever
     else is ready, and it returns only with every bridge it spawned joined.
     */
    method Run(polls: seq<Poll>) returns (returned: bool)
      requires Valid() && model == Fresh(arriving)
      modifies this
      ensures Valid() && model == Supervised(Fresh(arriving), polls)
      ensures returned == model.phase.Returned?
      ensures returned ==>
        model.bridges == multiset{} && multiset(model.spawned) == model.joined && |model.dropped| <= 1
      ensures returned ==> multiset(model.early) <= model.joined
      ensures !returned ==> forall i :: 0 <= i < |polls| ==> !polls[i].signal
    {
      var next := 0;
      while !(connectionFinished && bridges == multiset{})
        invariant Valid() && model.phase.Selecting? && next <= |polls|
        invariant Supervised(model, polls[next..]) == Supervised(Fresh(arriving), polls)
        invariant forall i :: 0 <= i < next ==> !polls[i].signal
        decreases |polls| - next
      {
        if next == |polls| {
          return false;
        }
        assert polls[next..][0] == polls[next] && polls[next..][1..] == polls[next + 1..];
        ghost var before := model;
        ServedKeeps(model, polls[next].requests);
        Serve(polls[next].requests);
        SelectedPhase(model, polls[next]);
        Select(polls[next]);
        SupervisedOnce(before, polls[next..], model);
        if polls[next].signal {
          AbortBridges();
          ReturnJoinsEveryBridge(arriving, events);
          return true;
        }
        next := next + 1;
      }
      DropReceiver(Return);
      ReturnJoinsEveryBridge(arriving, events);
      returned := true;
    }
  }
}
