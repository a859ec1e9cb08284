/**
 The global server state as its callers change it, each holding its lock for the whole call. Every call is proved to be
 a run of `Lifecycle`, in which the generations go on while the caller waits.
 */
module ServerState {
  import opened Wrappers
  import opened Lifecycle
  import opened LifecycleRuns
  import Generation

  datatype Ip = V4(a: nat, b: nat, c: nat, d: nat) | V6(value: nat)

  datatype SocketAddr = SocketAddr(ip: Ip, port: nat)

  predicate IsLoopback(ip: Ip) {
    match ip
    case V4(a, _, _, _) => a == 127
    case V6(value) => value == 1
  }

  /** What parsing an address and binding a listener to it answer; a bound listener has the address it reports. */
  datatype Network = Network(parse: string -> Option<SocketAddr>, bind: SocketAddr -> Option<string>)

  /** Parsing comes before the loopback check, and that before binding. */
  function Outcome(net: Network, address: string): BindOutcome {
    match net.parse(address)
    case None => Rejected(InvalidAddress)
    case Some(addr) =>
      if !IsLoopback(addr.ip) then Rejected(NotLoopback)
      else match net.bind(addr)
        case None => Rejected(BindFailed)
        case Some(listening) => Bound(listening)
  }

  datatype Message =
    | IsRunning
    | IsAlreadyRunning
    | HasStarted
    | HasFailed(why: StartError)
    | IsStopped
    | WasNotRunning
    | HasStopped
    | StopHasTimedOut

  datatype ServerStatus = ServerStatus(running: bool, listenAddr: Option<string>, message: Message)

  /** The status in which a caller sees an answer. */
  function Shown(report: Report): ServerStatus {
    match report
    case AlreadyRunning(addr) => ServerStatus(true, addr, IsAlreadyRunning)
    case StartFailed(why) => ServerStatus(false, None, HasFailed(why))
    case Started(addr) => ServerStatus(true, Some(addr), HasStarted)
    case NotRunning(previous) => ServerStatus(false, previous, WasNotRunning)
    case Stopped(_, previous) => ServerStatus(false, previous, HasStopped)
    case TimedOut(_, previous) => ServerStatus(false, previous, StopHasTimedOut)
    case StatusIs(running, addr) => ServerStatus(running, addr, if running then IsRunning else IsStopped)
  }

  // ----- The steps of a call -----

  /** What generations and the clock do. */
  predicate Around(steps: seq<Step>) {
    forall i :: 0 <= i < |steps| ==> steps[i].Serve? || steps[i].Tick?
  }

  /** `during` happens between the spawn of the generation and its registration. */
  function StartSteps(r: Registry, caller: nat, outcome: BindOutcome, during: seq<Step>): seq<Step> {
    if r.running || outcome.Rejected? then [Acquire(caller, Start(outcome)), StartAnswer]
    else [Acquire(caller, Start(outcome)), StartSpawn] + during + [StartRegister]
  }

  /** `during` happens while the stop waits, and `completed` is what the receive then reports. */
  function StopSteps(r: Registry, caller: nat, during: seq<Step>, completed: bool): seq<Step> {
    if r.shutdown.None? then [Acquire(caller, Stop), StopTake]
    else [Acquire(caller, Stop), StopTake, StopSend] + during + [if completed then StopCompleted else StopTimedOut]
  }

  function StatusSteps(caller: nat): seq<Step> {
    [Acquire(caller, Status), StatusAnswer]
  }

  lemma {:induction false} AroundFrame(s: System, steps: seq<Step>)
    requires Runs(s, steps) && Around(steps)
    ensures var t := Final(s, steps);
      t.registry == s.registry && t.critical == s.critical && t.log == s.log && |t.gens| == |s.gens|
    decreases |steps|
  {
    if steps != [] {
      assert forall i :: 0 <= i < |steps[1..]| ==> steps[1..][i] == steps[i + 1];
      AroundFrame(Apply(s, steps[0]), steps[1..]);
    }
  }

  lemma OneStep(s: System, step: Step)
    requires Runs(s, [step])
    ensures Enabled(s, step) && Final(s, [step]) == Apply(s, step)
  {
    assert [step][1..] == [];
  }

  lemma TwoSteps(s: System, first: Step, second: Step)
    requires Runs(s, [first, second])
    ensures Enabled(s, first) && Enabled(Apply(s, first), second)
    ensures Final(s, [first, second]) == Apply(Apply(s, first), second)
  {
    assert [first, second][1..] == [second];
    OneStep(Apply(s, first), second);
  }

  /** A head, what happens meanwhile, and a last step. */
  lemma Around3(s: System, head: seq<Step>, during: seq<Step>, last: Step)
    requires Runs(s, head + during + [last]) && Around(during)
    ensures Runs(s, head) && Runs(Final(s, head), during)
    ensures var waited := Final(Final(s, head), during);
      && Enabled(waited, last) && Final(s, head + during + [last]) == Apply(waited, last)
      && waited.registry == Final(s, head).registry && waited.critical == Final(s, head).critical
      && waited.log == Final(s, head).log && |waited.gens| == |Final(s, head).gens|
  {
    RunsInParts(s, head + during, [last]);
    RunsInParts(s, head, during);
    AroundFrame(Final(s, head), during);
    OneStep(Final(s, head + during), last);
  }

  /** What a start leaves behind. */
  lemma StartLeads(s: System, caller: nat, outcome: BindOutcome, during: seq<Step>)
    requires Inv(s) && s.critical.None? && Around(during) && Runs(s, StartSteps(s.registry, caller, outcome, during))
    ensures var t := Final(s, StartSteps(s.registry, caller, outcome, during));
      if s.registry.running || outcome.Rejected? then
        && t.critical.None? && t.registry == s.registry && |t.gens| == |s.gens|
        && t.log == s.log +
             [if s.registry.running then AlreadyRunning(s.registry.listenAddr) else StartFailed(outcome.why)]
      else
        && t.critical.None? && t.registry == Register(outcome.addr, Handle(|s.gens|, |s.gens|)) &&
             |t.gens| == |s.gens| + 1
        && t.log == s.log + [Started(outcome.addr)]
  {
    if s.registry.running || outcome.Rejected? {
      TwoSteps(s, Acquire(caller, Start(outcome)), StartAnswer);
    } else {
      Around3(s, [Acquire(caller, Start(outcome)), StartSpawn], during, StartRegister);
      TwoSteps(s, Acquire(caller, Start(outcome)), StartSpawn);
    }
  }

  /** What a stop leaves behind. */
  lemma StopLeads(s: System, caller: nat, during: seq<Step>, completed: bool)
    requires Inv(s) && s.critical.None? && Around(during) && Runs(s, StopSteps(s.registry, caller, during, completed))
    ensures var t := Final(s, StopSteps(s.registry, caller, during, completed));
      && t.critical.None? && t.registry == STOPPED && |t.gens| == |s.gens|
      && t.log == s.log + [
           match s.registry.shutdown
           case None => NotRunning(s.registry.listenAddr)
           case Some(handle) =>
             if completed then Stopped(handle, s.registry.listenAddr) else TimedOut(handle, s.registry.listenAddr)]
  {
    if s.registry.shutdown.None? {
      TwoSteps(s, Acquire(caller, Stop), StopTake);
    } else {
      var head := [Acquire(caller, Stop), StopTake];
      Around3(s, [Acquire(caller, Stop), StopTake, StopSend], during, if completed then StopCompleted
        else StopTimedOut);
      assert [Acquire(caller, Stop), StopTake, StopSend] == head + [StopSend];
      RunsInParts(s, head, [StopSend]);
      TwoSteps(s, Acquire(caller, Stop), StopTake);
      OneStep(Final(s, head), StopSend);
    }
  }

  lemma StatusLeads(s: System, caller: nat)
    requires s.critical.None?
    ensures Runs(s, StatusSteps(caller))
    ensures Final(s, StatusSteps(caller)) == s.(log := s.log + [StatusIs(s.registry.running, s.registry.listenAddr)])
  {
    assert StatusSteps(caller)[1..] == [StatusAnswer] && [StatusAnswer][1..] == [];
  }

  // ----- The calls -----

  class State {
    var running: bool
    var listenAddr: Option<string>
    var shutdown: Option<Handle>
    /** Channels made so far, which tells the next ones apart from all others. */
    var channels: nat

    ghost var system: System
    ghost var steps: seq<Step>

    function Value(): Registry
      reads this
    {
      Registry(running, listenAddr, shutdown)
    }

    /** The fields are the registry the recorded steps lead to from the start, with the lock free. */
    ghost predicate Valid()
      reads this
    {
      && Runs(INITIAL, steps) && system == Final(INITIAL, steps)
      && system.critical.None? && system.registry == Value() && |system.gens| == channels
    }

    constructor ()
      ensures Valid() && steps == [] && Value() == STOPPED
    {
      running, listenAddr, shutdown, channels := false, None, None, 0;
      system, steps := INITIAL, [];
    }

    ghost method Record(call: seq<Step>)
      requires Runs(INITIAL, steps) && system == Final(INITIAL, steps) && Runs(system, call)
      modifies this`system, this`steps
      ensures Runs(INITIAL, steps) && system == Final(INITIAL, steps)
      ensures steps == old(steps) + call && system == Final(old(system), call)
    {
      RunsConcat(INITIAL, steps, call);
      system, steps := Final(system, call), steps + call;
    }

    /** Generations and the clock go on while nobody calls. */
    ghost method Elapse(during: seq<Step>)
      requires Valid() && Around(during) && Runs(system, during)
      modifies this`system, this`steps
      ensures Valid() && steps == old(steps) + during && system == Final(old(system), during)
    {
      AroundFrame(system, during);
      Record(during);
    }

    ghost method RecordStart(caller: nat, outcome: BindOutcome, during: seq<Step>)
      requires Valid() && Around(during) && Runs(system, StartSteps(system.registry, caller, outcome, during))
      modifies this`system, this`steps
      ensures Runs(INITIAL, steps) && system == Final(INITIAL, steps) && system.critical.None?
      ensures steps == old(steps) + StartSteps(old(system).registry, caller, outcome, during) && Coherent(old(Value()))
      ensures if old(running) || outcome.Rejected? then
          && system.registry == old(Value()) && |system.gens| == old(channels)
          && system.log == old(system).log +
               [if old(running) then AlreadyRunning(old(listenAddr)) else StartFailed(outcome.why)]
        else
          && system.registry == Register(outcome.addr, Handle(old(channels), old(channels)))
          && |system.gens| == old(channels) + 1 && system.log == old(system).log + [Started(outcome.addr)]
    {
      ReachableInv(steps);
      StartLeads(system, caller, outcome, during);
      Record(StartSteps(system.registry, caller, outcome, during));
    }

    ghost method RecordStop(caller: nat, during: seq<Step>, completed: bool)
      requires Valid() && Around(during) && Runs(system, StopSteps(system.registry, caller, during, completed))
      modifies this`system, this`steps
      ensures Runs(INITIAL, steps) && system == Final(INITIAL, steps) && system.critical.None?
      ensures steps == old(steps) + StopSteps(old(system).registry, caller, during, completed)
      ensures system.registry == STOPPED && |system.gens| == old(channels) && old(running) == old(shutdown).Some?
      ensures system.log == old(system).log + [
        match old(shutdown)
        case None => NotRunning(old(listenAddr))
        case Some(handle) => if completed then Stopped(handle, old(listenAddr)) else TimedOut(handle, old(listenAddr))]
      ensures old(shutdown).Some? && completed ==>
        && old(shutdown).value.completion < |system.gens|
        && Generation.Quiet(system.gens[old(shutdown).value.completion])
    {
      ReachableInv(steps);
      StopLeads(system, caller, during, completed);
      ghost var answer := |system.log|;
      Record(StopSteps(system.registry, caller, during, completed));
      if system.log[answer].Stopped? {
        StoppedMeansQuiet(steps, answer);
      }
    }

    /**
     A start of a server that is not running succeeds exactly if the text is an address, its IP is in 127.0.0.0/8 or is
     ::1, and a listener can be bound to it. The server then is at the address the listener reports.
     */
    method Start(net: Network, address: string, ghost caller: nat, ghost during: seq<Step>)
      returns (status: ServerStatus)
      requires Valid() && Around(during) && Runs(system, StartSteps(Value(), caller, Outcome(net, address), during))
      modifies this
      ensures Valid() && steps == old(steps) + StartSteps(old(Value()), caller, Outcome(net, address), during)
      ensures |system.log| == |old(system).log| + 1 && status == Shown(system.log[|old(system).log|])
      ensures status.running == running && status.listenAddr == listenAddr
      ensures old(running) ==> status.message == IsAlreadyRunning && Value() == old(Value())
      ensures !old(running) ==>
        var parsed := net.parse(address);
        if parsed.None? then status.message == HasFailed(InvalidAddress) && Value() == old(Value())
        else if (parsed.value.ip.V4? && parsed.value.ip.a != 127) ||
          (parsed.value.ip.V6? && parsed.value.ip.value != 1) then
          status.message == HasFailed(NotLoopback) && Value() == old(Value())
        else if net.bind(parsed.value).None? then status.message == HasFailed(BindFailed) && Value() == old(Value())
        else
          && status.message == HasStarted && running && listenAddr == net.bind(parsed.value)
          && shutdown.Some? && shutdown.value.completion == |old(system).gens|
    {
      RecordStart(caller, Outcome(net, address), during);
      if running {
        return ServerStatus(true, listenAddr, IsAlreadyRunning);
      }
      var parsed := net.parse(address);
      if parsed.None? {
        return ServerStatus(false, None, HasFailed(InvalidAddress));
      }
      if !IsLoopback(parsed.value.ip) {
        return ServerStatus(false, None, HasFailed(NotLoopback));
      }
      var bound := net.bind(parsed.value);
      if bound.None? {
        return ServerStatus(false, None, HasFailed(BindFailed));
      }
      var handle := Handle(channels, channels);
      channels := channels + 1;
      running := true;
      listenAddr := bound;
      shutdown := Some(handle);
      return ServerStatus(true, bound, HasStarted);
    }

    /** "Stopped" is the answer only if the generation that was registered is over. */
    method Stop(completed: bool, ghost caller: nat, ghost during: seq<Step>) returns (status: ServerStatus)
      requires Valid() && Around(during) && Runs(system, StopSteps(Value(), caller, during, completed))
      modifies this
      ensures Valid() && steps == old(steps) + StopSteps(old(Value()), caller, during, completed)
      ensures |system.log| == |old(system).log| + 1 && status == Shown(system.log[|old(system).log|])
      ensures Value() == STOPPED
      ensures status == ServerStatus(false, old(listenAddr),
        if !old(running) then WasNotRunning else if completed then HasStopped else StopHasTimedOut)
      ensures status.message.HasStopped? ==>
        && old(shutdown).Some? && old(shutdown).value.completion < |system.gens|
        && Generation.Quiet(system.gens[old(shutdown).value.completion])
    {
      RecordStop(caller, during, completed);
      var previous := listenAddr;
      listenAddr := None;
      if shutdown.Some? {
        shutdown := None;
        running := false;
        status := ServerStatus(false, previous, if completed then HasStopped else StopHasTimedOut);
      } else {
        running := false;
        status := ServerStatus(false, previous, WasNotRunning);
      }
    }

    /** The status is what the answers given so far lead to: running, at an address, since a start not yet stopped. */
    method Status(ghost caller: nat) returns (status: ServerStatus)
      requires Valid()
      modifies this`system, this`steps
      ensures Valid() && steps == old(steps) + StatusSteps(caller)
      ensures |system.log| == |old(system).log| + 1 && status == Shown(system.log[|old(system).log|])
      ensures status.running == status.listenAddr.Some? && status.listenAddr == Current(old(system).log)
      ensures status.message == if status.running then IsRunning else IsStopped
    {
      AnswersAreSequential(steps);
      StatusLeads(system, caller);
      Record(StatusSteps(caller));
      status := ServerStatus(running, listenAddr, if running then IsRunning else IsStopped);
    }
  }
}
