/**
 Starting, stopping and asking after the server. Callers take turns under one lock; the generations they
 spawned run beside them. The lock holder is the only caller with anything in flight, so one optional
 critical section stands for all callers.
 */
module Lifecycle {
  import opened Wrappers
  import Generation

  const SERVER_STOP_TIMEOUT := 3000

  /** The two channel ends a stop keeps: where to send the stop, and where completion arrives. */
  datatype Handle = Handle(sender: nat, completion: nat)

  /** The global server state. */
  datatype Registry = Registry(running: bool, listenAddr: Option<string>, shutdown: Option<Handle>)

  datatype StartError = InvalidAddress | NotLoopback | BindFailed

  datatype BindOutcome = Rejected(why: StartError) | Bound(addr: string)

  datatype Operation = Start(outcome: BindOutcome) | Stop | Status

  datatype Stage =
    | Entered(operation: Operation)
    | Spawned(handle: Handle, addr: string)
    | Taken(handle: Handle, previous: Option<string>)
    | Waiting(handle: Handle, previous: Option<string>, sentAt: nat)

  datatype Critical = Critical(caller: nat, stage: Stage)

  datatype Report =
    | AlreadyRunning(current: Option<string>)
    | StartFailed(why: StartError)
    | Started(addr: string)
    | NotRunning(previous: Option<string>)
    | Stopped(handle: Handle, previous: Option<string>)
    | TimedOut(handle: Handle, previous: Option<string>)
    | StatusIs(running: bool, current: Option<string>)

  /**
   `ports[g]` and `addrs[g]` are the channel ends and the bound address of generation g; `stale` are the
   generations whose stop timed out.
   */
  datatype System = System(
    registry: Registry,
    critical: Option<Critical>,
    gens: seq<Generation.Gen>,
    ports: seq<Handle>,
    addrs: seq<string>,
    told: seq<bool>,
    completions: seq<nat>,
    now: nat,
    stale: set<nat>,
    log: seq<Report>)

  datatype Step =
    | Acquire(caller: nat, operation: Operation)
    | StartAnswer
    | StartSpawn
    | StartRegister
    | StopTake
    | StopSend
    | StopCompleted
    | StopTimedOut
    | StatusAnswer
    | Serve(gen: nat, step: Generation.Step)
    | Tick

  const STOPPED := Registry(false, None, None)

  const INITIAL := System(STOPPED, None, [], [], [], [], [], 0, {}, [])

  function Register(addr: string, handle: Handle): Registry {
    Registry(true, Some(addr), Some(handle))
  }

  function Take(r: Registry): Registry {
    r.(listenAddr := None, shutdown := None)
  }

  function Settle(r: Registry): Registry {
    r.(running := false)
  }

  predicate At(s: System, operation: Operation) {
    s.critical.Some? && s.critical.value.stage == Entered(operation)
  }

  predicate Starting(s: System) {
    s.critical.Some? && s.critical.value.stage.Entered? && s.critical.value.stage.operation.Start?
  }

  predicate AtSpawned(s: System) {
    s.critical.Some? && s.critical.value.stage.Spawned?
  }

  predicate AtTaken(s: System) {
    s.critical.Some? && s.critical.value.stage.Taken? && s.critical.value.stage.handle.sender < |s.told|
  }

  predicate AtWaiting(s: System) {
    s.critical.Some? && s.critical.value.stage.Waiting? && s.critical.value.stage.handle.completion < |s.completions|
  }

  predicate CanServe(s: System, g: nat, step: Generation.Step) {
    && g < |s.gens| && g < |s.ports|
    && s.ports[g].sender < |s.told| && s.ports[g].completion < |s.completions|
    && Generation.Enabled(s.gens[g], step, s.told[s.ports[g].sender], s.now)
  }

  predicate Enabled(s: System, step: Step) {
    match step
    case Acquire(_, _) => s.critical.None?
    case StartAnswer => Starting(s) && (s.registry.running || s.critical.value.stage.operation.outcome.Rejected?)
    case StartSpawn => Starting(s) && !s.registry.running && s.critical.value.stage.operation.outcome.Bound?
    case StartRegister => AtSpawned(s)
    case StopTake => At(s, Stop)
    case StopSend => AtTaken(s)
    case StopCompleted => AtWaiting(s) && s.completions[s.critical.value.stage.handle.completion] > 0
    // A receive that times out has looked into the channel a last time.
    case StopTimedOut =>
      AtWaiting(s) && s.completions[s.critical.value.stage.handle.completion] == 0 &&
      s.now >= s.critical.value.stage.sentAt + SERVER_STOP_TIMEOUT
    case StatusAnswer => At(s, Status)
    case Serve(g, step) => CanServe(s, g, step)
    case Tick => true
  }

  function Answer(s: System, report: Report): System {
    s.(critical := None, log := s.log + [report])
  }

  function Advance(s: System, stage: Stage): System
    requires s.critical.Some?
  {
    s.(critical := Some(Critical(s.critical.value.caller, stage)))
  }

  function StartAnswered(s: System): System
    requires Enabled(s, StartAnswer)
  {
    Answer(s, if s.registry.running then AlreadyRunning(s.registry.listenAddr)
              else StartFailed(s.critical.value.stage.operation.outcome.why))
  }

  function StartSpawned(s: System): System
    requires Enabled(s, StartSpawn)
  {
    var handle := Handle(|s.told|, |s.completions|);
    var addr := s.critical.value.stage.operation.outcome.addr;
    Advance(s, Spawned(handle, addr)).(
      gens := s.gens + [Generation.FRESH], ports := s.ports + [handle], addrs := s.addrs + [addr],
      told := s.told + [false], completions := s.completions + [0])
  }

  function StartRegistered(s: System): System
    requires Enabled(s, StartRegister)
  {
    var stage := s.critical.value.stage;
    Answer(s, Started(stage.addr)).(registry := Register(stage.addr, stage.handle))
  }

  function StopTaken(s: System): System
    requires Enabled(s, StopTake)
  {
    match s.registry.shutdown
    case Some(handle) => Advance(s, Taken(handle, s.registry.listenAddr)).(registry := Take(s.registry))
    case None => Answer(s, NotRunning(s.registry.listenAddr)).(registry := Settle(Take(s.registry)))
  }

  function StopSent(s: System): System
    requires Enabled(s, StopSend)
  {
    var stage := s.critical.value.stage;
    Advance(s, Waiting(stage.handle, stage.previous, s.now)).(told := s.told[stage.handle.sender := true])
  }

  function StopDone(s: System): System
    requires Enabled(s, StopCompleted)
  {
    var stage := s.critical.value.stage;
    Answer(s, Stopped(stage.handle, stage.previous)).(
      registry := Settle(s.registry),
      completions := s.completions[stage.handle.completion := s.completions[stage.handle.completion] - 1])
  }

  function StopLate(s: System): System
    requires Enabled(s, StopTimedOut)
  {
    var stage := s.critical.value.stage;
    Answer(s, TimedOut(stage.handle, stage.previous)).(
      registry := Settle(s.registry), stale := s.stale + {stage.handle.completion})
  }

  function Served(s: System, g: nat, step: Generation.Step): System
    requires CanServe(s, g, step)
  {
    var port := s.ports[g];
    s.(gens := s.gens[g := Generation.Apply(s.gens[g], step, s.told[port.sender], s.now)],
       completions :=
         if step.SendCompletion? then s.completions[port.completion := s.completions[port.completion] + 1]
         else s.completions)
  }

  function Apply(s: System, step: Step): System
    requires Enabled(s, step)
  {
    match step
    case Acquire(caller, operation) => s.(critical := Some(Critical(caller, Entered(operation))))
    case StartAnswer => StartAnswered(s)
    case StartSpawn => StartSpawned(s)
    case StartRegister => StartRegistered(s)
    case StopTake => StopTaken(s)
    case StopSend => StopSent(s)
    case StopCompleted => StopDone(s)
    case StopTimedOut => StopLate(s)
    case StatusAnswer => Answer(s, StatusIs(s.registry.running, s.registry.listenAddr))
    case Serve(g, step) => Served(s, g, step)
    case Tick => s.(now := s.now + 1)
  }

  // ----- Invariants -----

  predicate Coherent(r: Registry) {
    r.running == r.listenAddr.Some? && r.running == r.shutdown.Some?
  }

  /** The handle some stop can still use or is using. */
  function Pending(s: System): Option<Handle> {
    if s.registry.shutdown.Some? then s.registry.shutdown
    else if s.critical.Some? && s.critical.value.stage.Entered? then None
    else if s.critical.Some? then Some(s.critical.value.stage.handle)
    else None
  }

  ghost predicate Shape(s: System) {
    && |s.ports| == |s.gens| && |s.addrs| == |s.gens| && |s.told| == |s.gens| && |s.completions| == |s.gens|
    && (forall g :: 0 <= g < |s.ports| ==> s.ports[g] == Handle(g, g))
  }

  ghost predicate Registered(s: System) {
    if s.critical.None? || s.critical.value.stage.Entered? then Coherent(s.registry)
    else if s.critical.value.stage.Spawned? then s.registry == STOPPED
    else s.registry == Registry(true, None, None)
  }

  ghost predicate GensInv(s: System) {
    forall g :: 0 <= g < |s.gens| ==> Generation.Inv(s.gens[g])
  }

  /** Completion arrives only from the generation it is about, once, and a stop is heard only if it was sent. */
  ghost predicate Channels(s: System)
    requires Shape(s)
  {
    && (forall g :: 0 <= g < |s.gens| ==> s.completions[g] <= 1)
    && (forall g :: 0 <= g < |s.gens| && s.completions[g] > 0 ==> s.gens[g].phase.Completed?)
    && (forall g :: 0 <= g < |s.gens| && !s.gens[g].phase.Accepting? ==> s.told[g])
  }

  ghost predicate PendingInv(s: System)
    requires Shape(s)
  {
    Pending(s).Some? ==>
      var h := Pending(s).value;
      && h.sender == h.completion < |s.gens|
      && h.sender !in s.stale
      && s.told[h.sender] == (s.critical.Some? && s.critical.value.stage.Waiting?)
      && (s.gens[h.completion].phase.Completed? ==> s.completions[h.completion] > 0)
  }

  ghost predicate Accounted(s: System) {
    && (forall g :: g in s.stale ==> g < |s.gens|)
    && (forall g :: 0 <= g < |s.gens| && !s.gens[g].phase.Completed? ==>
          g in s.stale || (Pending(s).Some? && Pending(s).value.completion == g))
  }

  ghost predicate LogInv(s: System) {
    forall i :: 0 <= i < |s.log| && s.log[i].Stopped? ==>
      s.log[i].handle.sender == s.log[i].handle.completion < |s.gens| &&
        s.gens[s.log[i].handle.completion].phase.Completed?
  }

  ghost predicate Inv(s: System) {
    Shape(s) && Registered(s) && GensInv(s) && Channels(s) && PendingInv(s) && Accounted(s) && LogInv(s)
  }

  lemma InitialSatisfiesInv()
    ensures Inv(INITIAL)
  {
  }

  /** The step of one generation leaves the other generations, the registry and the callers alone. */
  lemma ServedFrame(s: System, g: nat, step: Generation.Step)
    requires CanServe(s, g, step)
    ensures var t := Served(s, g, step);
      && Pending(t) == Pending(s) && |t.gens| == |s.gens|
      && (forall i :: 0 <= i < |s.gens| && i != g ==> t.gens[i] == s.gens[i])
  {
  }

  lemma ServeChannels(s: System, g: nat, step: Generation.Step)
    requires Inv(s) && CanServe(s, g, step)
    ensures Shape(Served(s, g, step)) && Channels(Served(s, g, step)) && GensInv(Served(s, g, step))
  {
    Generation.InvStep(s.gens[g], step, s.told[g], s.now);
    Generation.CompletedIsFinal(s.gens[g], step, s.told[g], s.now);
    ServedFrame(s, g, step);
  }

  lemma ServePending(s: System, g: nat, step: Generation.Step)
    requires Inv(s) && CanServe(s, g, step) && Shape(Served(s, g, step))
    ensures PendingInv(Served(s, g, step)) && Accounted(Served(s, g, step)) && LogInv(Served(s, g, step))
  {
    Generation.CompletedIsFinal(s.gens[g], step, s.told[g], s.now);
    ServedFrame(s, g, step);
  }

  lemma ServeStep(s: System, g: nat, step: Generation.Step)
    requires Inv(s) && CanServe(s, g, step)
    ensures Inv(Served(s, g, step))
  {
    ServeChannels(s, g, step);
    ServePending(s, g, step);
  }

  lemma SpawnStep(s: System)
    requires Inv(s) && Enabled(s, StartSpawn)
    ensures Inv(Apply(s, StartSpawn))
  {
    Generation.FreshSatisfiesInv();
    var t := Apply(s, StartSpawn);
    assert forall i :: 0 <= i < |s.gens| ==> t.gens[i] == s.gens[i];
    assert LogInv(t);
  }

  lemma StartStep(s: System, step: Step)
    requires Inv(s) && Enabled(s, step) && (step.StartAnswer? || step.StartRegister?)
    ensures Inv(Apply(s, step))
  {
    var t := Apply(s, step);
    assert t.gens == s.gens;
    assert LogInv(t);
  }

  lemma StopBegins(s: System, step: Step)
    requires Inv(s) && Enabled(s, step) && (step.StopTake? || step.StopSend?)
    ensures Inv(Apply(s, step))
  {
    var t := Apply(s, step);
    assert t.gens == s.gens;
    assert LogInv(t);
  }

  lemma StopEnds(s: System, step: Step)
    requires Inv(s) && Enabled(s, step) && (step.StopCompleted? || step.StopTimedOut?)
    ensures Inv(Apply(s, step))
  {
    var t := Apply(s, step);
    assert t.gens == s.gens;
    assert LogInv(t);
  }

  lemma InvStep(s: System, step: Step)
    requires Inv(s) && Enabled(s, step)
    ensures Inv(Apply(s, step))
  {
    match step
    case Serve(g, serve) => ServeStep(s, g, serve);
    case Acquire(_, _) =>
    case StatusAnswer =>
    case Tick =>
    case StartAnswer => StartStep(s, step);
    case StartSpawn => SpawnStep(s);
    case StartRegister => StartStep(s, step);
    case StopTake => StopBegins(s, step);
    case StopSend => StopBegins(s, step);
    case StopCompleted => StopEnds(s, step);
    case StopTimedOut => StopEnds(s, step);
  }
}
