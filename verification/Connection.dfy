/**
 One accepted connection: the task that serves it, the capacity-1 channel on which
 WebSocket handshakes hand over their bridge jobs, and the set of bridge tasks it owns.

 The state machine below interleaves the arms of the supervising loop with the requests
 being served, the bridge tasks and the owner of the connection in any order.
 */
module Connection {
  const CHANNEL_CAPACITY := 1

  /** A finished handshake: the request whose socket is upgraded and the upstream stream it got. */
  datatype Job = Job(inbound: nat, outbound: nat)

  /** How far one request has come. `stream` is the upstream stream its handshake produced. */
  datatype Request =
    | Waiting
    | Connected(stream: nat)
    | Enqueued(stream: nat)
    | Promised(stream: nat)
    | Refused

  datatype Phase =
    | Selecting
    | Draining
    | Joining
    | Returned(byShutdown: bool)
    | Aborted

  datatype Conn = Conn(
    phase: Phase,
    finished: bool,
    channelOpen: bool,
    sendersAlive: bool,
    queue: seq<Job>,
    bridges: multiset<Job>,
    requests: map<nat, Request>,
    streams: nat,
    // History, kept only to state what happened to each job.
    enqueued: seq<Job>,
    spawned: seq<Job>,
    joined: multiset<Job>,
    dropped: seq<Job>,
    cut: multiset<Job>,
    early: seq<Job>)

  datatype Step =
    // The supervising task.
    | ShutdownArm
    | ReceiveArm
    | ChannelClosedArm
    | ConnectionArm
    | DrainOne
    | DrainDone
    | JoinArm(bridge: Job)
    | Return
    | JoinAborted(bridge: Job)
    | ReturnAfterAbort
    // Everyone else.
    | Handshake(request: nat)
    | Refuse(request: nat)
    | Enqueue(request: nat)
    | SendFails(request: nat)
    | Respond(request: nat)
    | DropSenders
    | Abort

  predicate ByTask(step: Step) {
    step.ShutdownArm? || step.ReceiveArm? || step.ChannelClosedArm? || step.ConnectionArm? || step.DrainOne? ||
    step.DrainDone? || step.JoinArm? || step.Return? || step.JoinAborted? || step.ReturnAfterAbort?
  }

  /** A fresh connection on which the requests `arriving` are going to be served. */
  function Fresh(arriving: set<nat>): Conn {
    Conn(Selecting, false, true, true, [], multiset{}, map r | r in arriving :: Waiting, 0,
         [], [], multiset{}, [], multiset{}, [])
  }

  predicate Over(c: Conn) {
    c.phase.Returned? || c.phase.Aborted?
  }

  /** The loop head leaves instead of selecting once nothing is left to supervise. */
  predicate NothingLeft(c: Conn) {
    c.finished && c.bridges == multiset{}
  }

  predicate AtSelect(c: Conn) {
    c.phase.Selecting? && !NothingLeft(c)
  }

  predicate Stage(c: Conn, r: nat, request: Request) {
    r in c.requests && c.requests[r] == request
  }

  /** `signal` is what the shutdown watch currently holds. */
  predicate Enabled(c: Conn, step: Step, signal: bool) {
    match step
    case ShutdownArm => AtSelect(c) && signal
    case ReceiveArm => AtSelect(c) && c.channelOpen && c.queue != []
    case ChannelClosedArm => AtSelect(c) && c.channelOpen && c.queue == [] && !c.sendersAlive
    case ConnectionArm => AtSelect(c) && !c.finished
    case DrainOne => c.phase.Draining? && c.queue != []
    case DrainDone => c.phase.Draining? && c.queue == []
    case JoinArm(b) => AtSelect(c) && b in c.bridges
    case Return => c.phase.Selecting? && NothingLeft(c)
    case JoinAborted(b) => c.phase.Joining? && b in c.bridges
    case ReturnAfterAbort => c.phase.Joining? && c.bridges == multiset{}
    case Handshake(r) => Stage(c, r, Waiting)
    case Refuse(r) => Stage(c, r, Waiting) || (r in c.requests && c.requests[r].Connected?)
    case Enqueue(r) => r in c.requests && c.requests[r].Connected? && c.sendersAlive && !Over(c) &&
      |c.queue| < CHANNEL_CAPACITY
    case SendFails(r) => r in c.requests && c.requests[r].Connected? && Over(c)
    case Respond(r) => r in c.requests && c.requests[r].Enqueued?
    case DropSenders => c.sendersAlive
    // A task is only cancelled where it awaits, and draining does not await.
    case Abort => c.phase.Selecting? || c.phase.Joining?
  }

  function Spawn(c: Conn): Conn
    requires c.queue != []
  {
    c.(queue := c.queue[1..], bridges := c.bridges + multiset{c.queue[0]}, spawned := c.spawned + [c.queue[0]])
  }

  function Join(c: Conn, b: Job): Conn {
    c.(bridges := c.bridges - multiset{b}, joined := c.joined + multiset{b})
  }

  /** The receiver goes away with whatever is still queued in it. */
  function Leave(c: Conn, phase: Phase): Conn {
    c.(phase := phase, queue := [], dropped := c.dropped + c.queue)
  }

  function Apply(c: Conn, step: Step, signal: bool): Conn
    requires Enabled(c, step, signal)
  {
    match step
    case ShutdownArm => c.(phase := Joining)
    case ReceiveArm => Spawn(c)
    case ChannelClosedArm => c.(channelOpen := false)
    case ConnectionArm => c.(phase := Draining, finished := true, early := c.enqueued)
    case DrainOne => Spawn(c)
    case DrainDone => c.(phase := Selecting)
    case JoinArm(b) => Join(c, b)
    case Return => Leave(c, Returned(false))
    case JoinAborted(b) => Join(c, b)
    case ReturnAfterAbort => Leave(c, Returned(true))
    case Handshake(r) => c.(requests := c.requests[r := Connected(c.streams)], streams := c.streams + 1)
    case Refuse(r) => c.(requests := c.requests[r := Refused])
    case Enqueue(r) =>
      var job := Job(r, c.requests[r].stream);
      c.(requests := c.requests[r := Enqueued(job.outbound)], queue := c.queue + [job], enqueued := c.enqueued + [job])
    case SendFails(r) => c.(requests := c.requests[r := Refused])
    case Respond(r) => c.(requests := c.requests[r := Promised(c.requests[r].stream)])
    case DropSenders => c.(sendersAlive := false)
    case Abort => Leave(c, Aborted).(bridges := multiset{}, cut := c.cut + c.bridges)
  }

  // ----- What a request can do -----

  /** Only the request and what is said of it differs. */
  predicate OnlyRequest(c: Conn, d: Conn, r: nat, next: Request) {
    Stage(d, r, next) && d.requests.Keys == c.requests.Keys &&
      (forall q :: q in c.requests && q != r ==> d.requests[q] == c.requests[q])
  }

  /** A handshake gets a stream that no other has, or is given up. */
  lemma HandshakeExactly(c: Conn, r: nat, signal: bool)
    ensures Enabled(c, Handshake(r), signal) <==> Stage(c, r, Waiting)
    ensures Stage(c, r, Waiting) ==>
      OnlyRequest(c, Apply(c, Handshake(r), signal), r, Connected(c.streams)) &&
      Apply(c, Handshake(r), signal).streams == c.streams + 1
    ensures Enabled(c, Refuse(r), signal) <==> Stage(c, r, Waiting) || (r in c.requests && c.requests[r].Connected?)
    ensures Enabled(c, Refuse(r), signal) ==> OnlyRequest(c, Apply(c, Refuse(r), signal), r, Refused)
  {
  }

  /**
   The send of a finished handshake goes through while the task is there and its channel is empty; it fails, and the
   request is refused, exactly when the task is over.
   */
  lemma SendExactly(c: Conn, r: nat, stream: nat, signal: bool)
    requires Stage(c, r, Connected(stream)) && |c.queue| <= 1
    ensures Enabled(c, Enqueue(r), signal) <==>
      c.queue == [] && c.sendersAlive && !c.phase.Returned? && !c.phase.Aborted?
    ensures Enabled(c, Enqueue(r), signal) ==>
      && OnlyRequest(c, Apply(c, Enqueue(r), signal), r, Enqueued(stream))
      && Apply(c, Enqueue(r), signal).queue == [Job(r, stream)]
    ensures Enabled(c, SendFails(r), signal) <==> c.phase.Returned? || c.phase.Aborted?
    ensures Enabled(c, SendFails(r), signal) ==>
      OnlyRequest(c, Apply(c, SendFails(r), signal), r, Refused) && Apply(c, SendFails(r), signal).queue == c.queue
  {
  }

  /** The success response follows the send, and nothing else does; and the senders can go away once. */
  lemma RespondExactly(c: Conn, r: nat, stream: nat, signal: bool)
    ensures Stage(c, r, Enqueued(stream)) ==>
      Enabled(c, Respond(r), signal) && OnlyRequest(c, Apply(c, Respond(r), signal), r, Promised(stream))
    ensures Enabled(c, Respond(r), signal) ==> r in c.requests && c.requests[r].Enqueued?
    ensures Enabled(c, DropSenders, signal) <==> c.sendersAlive
    ensures c.sendersAlive ==> Apply(c, DropSenders, signal) == c.(sendersAlive := false)
  {
  }

  // ----- What every reachable state satisfies -----

  /** Every enqueued job is spawned, queued or dropped, in that order; every spawned one runs, was joined or was cut. */
  ghost predicate Conserved(c: Conn) {
    && c.enqueued == c.spawned + c.queue + c.dropped
    && multiset(c.spawned) == c.bridges + c.joined + c.cut
    && |c.queue| <= CHANNEL_CAPACITY
  }

  /** Leaving, and only leaving, empties the queue and the bridge set. */
  ghost predicate Tidy(c: Conn) {
    && (Over(c) ==> c.bridges == multiset{} && c.queue == [] && |c.dropped| <= CHANNEL_CAPACITY)
    && (!Over(c) ==> c.dropped == [])
    && (!c.phase.Aborted? ==> c.cut == multiset{})
    && (c.phase == Draining || c.phase == Returned(false) ==> c.finished)
  }

  /** What was enqueued before the connection arm fired is spawned by the time it has drained. */
  ghost predicate EarlySpawned(c: Conn) {
    && c.early <= c.enqueued
    && (!c.finished ==> c.early == [])
    && (!c.phase.Draining? ==> c.early <= c.spawned)
  }

  predicate Holds(c: Conn, j: Job) {
    j.inbound in c.requests &&
    (c.requests[j.inbound] == Enqueued(j.outbound) || c.requests[j.inbound] == Promised(j.outbound))
  }

  ghost predicate NoRepeats(s: seq<Job>) {
    forall i, k :: 0 <= i < k < |s| ==> s[i].inbound != s[k].inbound
  }

  /** The enqueue log holds exactly one job for each request past its enqueue, and none for any other. */
  ghost predicate Matched(c: Conn) {
    && (forall j :: j in c.enqueued ==> Holds(c, j))
    && NoRepeats(c.enqueued)
    && (forall r :: r in c.requests && (c.requests[r].Enqueued? || c.requests[r].Promised?) ==>
          Job(r, c.requests[r].stream) in c.enqueued)
  }

  predicate HasStream(q: Request) {
    q.Connected? || q.Enqueued? || q.Promised?
  }

  /** No two requests share an upstream stream. */
  ghost predicate OwnStreams(c: Conn) {
    && (forall r :: r in c.requests && HasStream(c.requests[r]) ==> c.requests[r].stream < c.streams)
    && (forall r, q ::
          r in c.requests && q in c.requests && r != q && HasStream(c.requests[r]) && HasStream(c.requests[q]) ==>
          c.requests[r].stream != c.requests[q].stream)
  }

  ghost predicate Inv(c: Conn) {
    Conserved(c) && Tidy(c) && EarlySpawned(c) && Matched(c) && OwnStreams(c)
  }

  lemma FreshSatisfiesInv(arriving: set<nat>)
    ensures Inv(Fresh(arriving))
  {
  }

  lemma SpawnConserves(c: Conn)
    requires Conserved(c) && c.queue != []
    ensures Conserved(Spawn(c))
  {
    assert c.queue == [c.queue[0]] + c.queue[1..];
    assert Spawn(c).spawned + Spawn(c).queue == c.spawned + c.queue;
  }

  lemma JoinConserves(c: Conn, b: Job)
    requires Conserved(c) && b in c.bridges
    ensures Conserved(Join(c, b))
  {
    assert c.bridges - multiset{b} + multiset{b} == c.bridges;
  }

  lemma LeaveConserves(c: Conn, phase: Phase)
    requires Conserved(c) && c.dropped == []
    ensures Conserved(Leave(c, phase)) && Leave(c, phase).dropped == c.queue
  {
    assert c.spawned + c.queue + c.dropped == c.spawned + [] + (c.dropped + c.queue);
  }

  lemma EnqueueConserves(c: Conn, r: nat)
    requires Conserved(c) && c.dropped == [] && Enabled(c, Enqueue(r), false)
    ensures Conserved(Apply(c, Enqueue(r), false))
  {
    var job := Job(r, c.requests[r].stream);
    assert c.spawned + (c.queue + [job]) + [] == c.spawned + c.queue + [] + [job];
  }

  lemma AbortConserves(c: Conn)
    requires Conserved(c) && c.dropped == [] && Enabled(c, Abort, false)
    ensures Conserved(Apply(c, Abort, false)) && Apply(c, Abort, false).dropped == c.queue
  {
    LeaveConserves(c, Aborted);
  }

  lemma ConservedStep(c: Conn, step: Step, signal: bool)
    requires Conserved(c) && Tidy(c) && Enabled(c, step, signal)
    ensures Conserved(Apply(c, step, signal))
  {
    match step
    case ReceiveArm => SpawnConserves(c);
    case DrainOne => SpawnConserves(c);
    case JoinArm(b) => JoinConserves(c, b);
    case JoinAborted(b) => JoinConserves(c, b);
    case Return => LeaveConserves(c, Returned(false));
    case ReturnAfterAbort => LeaveConserves(c, Returned(true));
    case Abort => AbortConserves(c);
    case Enqueue(r) => EnqueueConserves(c, r);
    case _ => assert Apply(c, step, signal).enqueued == c.enqueued;
  }

  lemma TidyStep(c: Conn, step: Step, signal: bool)
    requires |c.queue| <= CHANNEL_CAPACITY && Tidy(c) && Enabled(c, step, signal)
    ensures Tidy(Apply(c, step, signal))
  {
    match step
    case Return => assert c.dropped + c.queue == c.queue;
    case ReturnAfterAbort => assert c.dropped + c.queue == c.queue;
    case Abort => assert c.dropped + c.queue == c.queue;
    case _ =>
  }

  predicate LogsOnly(c: Conn, d: Conn) {
    && d.early == c.early && d.finished == c.finished && (c.phase.Draining? ==> d.phase.Draining?)
    && c.enqueued <= d.enqueued && c.spawned <= d.spawned
  }

  lemma TaskLogsGrow(c: Conn, step: Step, signal: bool)
    requires Enabled(c, step, signal) && ByTask(step) && !step.DrainDone? && !step.ConnectionArm?
    ensures LogsOnly(c, Apply(c, step, signal))
  {
  }

  lemma OtherLogsGrow(c: Conn, step: Step, signal: bool)
    requires Enabled(c, step, signal) && !ByTask(step)
    ensures LogsOnly(c, Apply(c, step, signal))
  {
  }

  lemma EarlyKept(c: Conn, d: Conn)
    requires EarlySpawned(c) && LogsOnly(c, d)
    ensures EarlySpawned(d)
  {
  }

  lemma EarlyStep(c: Conn, step: Step, signal: bool)
    requires Conserved(c) && Tidy(c) && EarlySpawned(c) && Enabled(c, step, signal)
    ensures EarlySpawned(Apply(c, step, signal))
  {
    if step.DrainDone? {
      assert c.enqueued == c.spawned;
    } else if !step.ConnectionArm? {
      if ByTask(step) {
        TaskLogsGrow(c, step, signal);
      } else {
        OtherLogsGrow(c, step, signal);
      }
      EarlyKept(c, Apply(c, step, signal));
    }
  }

  /** Moving a request on, without touching the enqueue log, keeps the log matched and the streams apart. */
  lemma MoveRequest(c: Conn, r: nat, next: Request, streams: nat)
    requires Matched(c) && OwnStreams(c) && r in c.requests
    requires c.requests[r].Enqueued? || c.requests[r].Promised? ==> next == Promised(c.requests[r].stream)
    requires !(c.requests[r].Enqueued? || c.requests[r].Promised?) ==> !next.Enqueued? && !next.Promised?
    requires HasStream(next) ==>
      (next.stream == c.streams && streams == c.streams + 1) ||
        (HasStream(c.requests[r]) && next.stream == c.requests[r].stream)
    requires c.streams <= streams
    ensures var d := c.(requests := c.requests[r := next], streams := streams); Matched(d) && OwnStreams(d)
  {
    var d := c.(requests := c.requests[r := next], streams := streams);
    forall j | j in d.enqueued ensures Holds(d, j) { assert Holds(c, j); }
  }

  lemma EnqueueMatches(c: Conn, r: nat)
    requires Matched(c) && OwnStreams(c) && Enabled(c, Enqueue(r), false)
    ensures Matched(Apply(c, Enqueue(r), false)) && OwnStreams(Apply(c, Enqueue(r), false))
  {
    var d := Apply(c, Enqueue(r), false);
    var job := Job(r, c.requests[r].stream);
    assert d.enqueued == c.enqueued + [job];
    forall i | 0 <= i < |c.enqueued| ensures c.enqueued[i].inbound != r {
      assert c.enqueued[i] in c.enqueued && Holds(c, c.enqueued[i]);
    }
    forall j | j in d.enqueued ensures Holds(d, j) {
      if j in c.enqueued { assert Holds(c, j); } else { assert j == job; }
    }
  }

  lemma SameLog(c: Conn, d: Conn)
    requires Matched(c) && OwnStreams(c)
    requires d.enqueued == c.enqueued && d.requests == c.requests && d.streams == c.streams
    ensures Matched(d) && OwnStreams(d)
  {
    forall j | j in d.enqueued ensures Holds(d, j) { assert Holds(c, j); }
  }

  lemma MatchedStep(c: Conn, step: Step, signal: bool)
    requires Matched(c) && OwnStreams(c) && Enabled(c, step, signal)
    ensures Matched(Apply(c, step, signal)) && OwnStreams(Apply(c, step, signal))
  {
    match step
    case Handshake(r) => MoveRequest(c, r, Connected(c.streams), c.streams + 1);
    case Refuse(r) => MoveRequest(c, r, Refused, c.streams);
    case SendFails(r) => MoveRequest(c, r, Refused, c.streams);
    case Respond(r) => MoveRequest(c, r, Promised(c.requests[r].stream), c.streams);
    case Enqueue(r) => EnqueueMatches(c, r);
    case _ => SameLog(c, Apply(c, step, signal));
  }

  lemma InvStep(c: Conn, step: Step, signal: bool)
    requires Inv(c) && Enabled(c, step, signal)
    ensures Inv(Apply(c, step, signal))
  {
    ConservedStep(c, step, signal);
    TidyStep(c, step, signal);
    EarlyStep(c, step, signal);
    MatchedStep(c, step, signal);
  }
}
