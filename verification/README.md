# TLS+ proxy core: a Dafny model

TLS+ redirects an intercepting tool's requests to an embedded proxy on a loopback address. The proxy reads the
original target, TLS profile and HTTP version from internal header fields, sends the request on with a client that
imitates that profile, and tunnels WebSocket handshakes. This project models the concurrent core of that proxy and the
transformations it rests on, and proves what they keep. `dafny verify dfyconfig.toml` checks all of it.

## How the modules fit

**Supervision.** Three nested layers, each twice: as a state machine whose steps interleave in any order, and as the
code that runs.

- `Connection` is one accepted connection: the arms of the supervising loop, the channel of capacity 1, the bridge
  tasks, the requests being served, and the owner that may abort it. `ConnectionRuns` proves conservation, pairing,
  promises and termination over all runs. `ConnectionTask` is the loop itself, biased select, drain and final join
  included; every update of its fields is shown to be a step of the state machine, and the state it reaches is fixed by
  a specification function.
- `Generation` is one server generation: accept loop, broadcast, drain under a grace period, abort, completion.
  `GenerationProgress` proves that shutting down is bounded and never stuck. `AcceptTask` is the spawned code.
- `Lifecycle` is any number of callers of start, stop and status around the locked registry, the generations they
  spawned and the clock. A caller holds the lock for a whole call, so at most one is inside. `LifecycleRuns` has the
  safety results over all runs, and `LifecycleTiming` relates the grace period of a drain to the patience of a stop.
  `ServerState` has the three calls as methods on the registry, each proved to be a run of `Lifecycle` in which the
  generations go on meanwhile. Every generation, connection and job has an identity of its own, so that "this completion
  is about that generation" can be said.

**Client pool.** `Profiles` is the catalog and `ClientPool` the cache that frees its lock between lookup and insertion.
A client is the moment it was built and its emulation. The state machine interleaves any number of callers;
`ClientCache.GetClient` is one call, with what others inserted meanwhile as a parameter.

**Headers and protocol.** `HeaderMap` is the library's ordered multimap, one entry per name. `WebSocketHeaders` has the
token lists and the filters, `Service` the decision of what one request turns into, `WebSocketProxy` the second half of
a handshake.

**Buffered API and fingerprints.** `Forward` is the retry loop, `HeaderText` the header lines, `Ja4` the recogniser,
`Ja3` the printer with a decoder written as its inverse.

**Extension.** `Redirect` is the handler that rewrites requests and its address parser. `EndToEnd` composes it with
`Service`: the HTTP version survives the trip, and so does the metadata, under exact conditions.

## Where the code does not do what one might expect

The model follows the code. For each point a lemma says exactly when it shows, and at which input.

- The repository's README.md says (line 187) that requests to `127.0.0.1` and `localhost` are not redirected. The code
  exempts only the proxy's own endpoint: `Redirect.LoopbackIsRedirected`, `Redirect.RedirectsAllButItsOwn`.
- A request that already carries X-Tlsplus-Target, -Profile or -Timeout twice is answered 400 by the plain path once it
  is redirected: `EndToEnd.MetadataArrives`, `EndToEnd.RepeatedTargetIsRefused`. This rests on what is assumed below of
  the tool, that setting a header updates only the first of its name.
- A client can be told that its tunnel is open and lose it, without any shutdown: if the handshake is finished after the
  connection ended and no bridge is left, the job is dropped with the receiver: `ConnectionRuns.PromiseCanBeLost`. It
  happens to at most one job and to none enqueued before the end, so never if nothing is enqueued after it:
  `ConnectionRuns.ReturnJoinsEveryBridge`.
- The response filter by itself does not take a Keep-Alive field out of an HTTP/2 tunnel response:
  `WebSocketHeaders.ResponseFitsItsTransport`, `WebSocketHeaders.KeepAliveIsKept`. An upstream that sends one on HTTP/2
  breaks section 8.2.2 of RFC 9113 already; whether the libraries let the field in or out is not part of this model.
- The direct client trims a profile name, the proxy does not: `ClientPool.EntryPathsAgree`,
  `ClientPool.UntrimmedAliasDiffers`.
- TLS 1.0 and SSL 3.0 have one number in the JA3 string: `Ja3.VersionsCollide`.
- The text form of headers cannot carry values that begin or end with a blank or are not UTF-8: `HeaderText.RoundTrip`,
  `HeaderText.LeadingBlankIsLost`.
- A stop can time out on a generation whose grace period is only just over, which leaves it running beside the next one.
  It takes an accept task that is late by a second: `LifecycleTiming.TimeoutMeansLate`,
  `LifecycleTiming.StopCanTimeOut`. A prompt one never lets a stop time out: `LifecycleTiming.PromptStopsNeverTimeOut`.

## What is taken as given

- `Profiles.WellNamed`: the emulation library's names for profiles and platforms are distinct; a profile name is
  trimmed, not empty, not `default`, without `@`; none is `pass-through` or `rustls_default` in any case. The library
  itself is not part of this model, so its list of profiles and its names are a parameter.
- The outcomes of parsing URIs, binding, building clients, sending, upgrading and the passing of time are parameters or
  environment steps, and range over all possibilities.
- `HeaderText.RoundTrip` starts from what the HTTP library guarantees of any header map: names are lower-case tokens and
  no value has a control character other than the tab.
- The tool's request operations: setting a header updates the first one of its name, or adds it at the end; removing one
  removes all of its name. The repository does not say so, and its own test double keeps one value per name.
- Time passes in milliseconds. A generation is late when the clock goes on although a step of its accept task could be
  taken at once, or a connection that it is aborting is between two awaits. In `Forward.ForwardRequest` the timer ends
  an attempt on time.

## Model

| member | source | states |
|---|---|---|
| `LifecycleRuns.StoppedMeansQuiet` | crates/tlsplus-core/src/proxy/server/mod.rs:95-111 | In every run, an answer "stopped" means that the generation it took has completed for good: listener closed, connection set empty, no bridge left, every bridge joined if the drain beat the grace period; and the answer names that generation's own address |
| `LifecycleRuns.CompletionIsOwn` | crates/tlsplus-core/src/proxy/server/mod.rs:159-164 | A waiting stop can hear a completion exactly when the one generation whose channel it holds has completed, whatever the others do |
| `LifecycleRuns.FreeStateIsCoherent` | crates/tlsplus-core/src/lib.rs:20-37 | Whenever the lock is free, `running`, the address and the stop handle are present together or not at all, and the registered generation is accepting on an open listener at the registered address |
| `LifecycleRuns.LiveGenerationsAreBounded` | crates/tlsplus-core/src/proxy/server/mod.rs:154-183 | Generations not yet completed number at most one if running, plus the stops that timed out |
| `LifecycleRuns.AnswersAreSequential` | crates/tlsplus-core/src/proxy/server/mod.rs:14-183 | Over all interleavings the answers of all callers are those of a server called by one caller at a time: each one is what the answers before it leave open, and when the lock is free the registry is where they lead |
| `LifecycleTiming.PromptStopsNeverTimeOut` | crates/tlsplus-core/src/proxy/server/mod.rs:97-164 | If the accept task is never late, nor a connection that it is aborting while between two awaits, no stop ever times out, however slow the connections are; every generation is gone when its stop answers |
| `LifecycleTiming.TimeoutMeansLate` | crates/tlsplus-core/src/proxy/server/mod.rs:97-164 | In any run a stop times out only on a generation that has not completed and has been late, since the stop was sent, by the difference of the two limits (1 s) at least |
| `LifecycleTiming.StopCanTimeOut` | crates/tlsplus-core/src/proxy/server/mod.rs:97-164 | That bound is tight: a run in which a generation has been late by exactly 1 s and is at the very end of its grace period when its stop can time out |
| `LifecycleRuns.RestartFindsNothingRunning` | crates/tlsplus-core/src/proxy/server/mod.rs:14-73 | Without a timed-out stop in the history, a start spawns a generation only when all earlier ones are completed and quiet |
| `LifecycleRuns.HistoryStep` | crates/tlsplus-core/src/proxy/server/mod.rs:121-183 | Every step keeps the answers a sequential history, ends no generation twice, ties every ending to its generation's address, and leaves a pending handle unanswered |
| `Lifecycle.InvStep` | crates/tlsplus-core/src/proxy/server/mod.rs:14-183 | The inductive invariant of callers, registry, channels and generations is kept by each caller step, generation step and clock tick, in any interleaving |
| `Lifecycle.ServeStep` | crates/tlsplus-core/src/proxy/server/mod.rs:73-112 | A step of one generation, or of any of its connections, keeps the invariant of the whole system and sends at most one completion |
| `ServerState.State.Start` | crates/tlsplus-core/src/proxy/server/mod.rs:14-126 | A start of a server that is not running succeeds if and only if the text is an address, its IP is 127.x.x.x or ::1 and a listener can be bound; the server is then at the address the listener reports, and otherwise the first check that fails is named. The call is exactly a run of the state machine, while generations go on |
| `ServerState.State.Stop` | crates/tlsplus-core/src/proxy/server/mod.rs:154-183 | A stop is exactly the run that takes the handle, sends, waits while generations go on, and hears completion or times out; the registry ends up stopped, and "stopped" means that the registered generation is over and quiet |
| `ServerState.State.Status` | crates/tlsplus-core/src/proxy/server/mod.rs:128-145 | A status has an address exactly when it says running, and it is the one the last start or stop among all answers left |
| `Generation.InvStep` | crates/tlsplus-core/src/proxy/server/mod.rs:73-112 | Every step of a generation keeps its invariant: listener open only before it is dropped, a task leaves the set only when it is over, none is aborted inside the grace period |
| `Generation.FinishedIsQuiet` | crates/tlsplus-core/src/proxy/server/mod.rs:95-111 | A generation that reports completion has no listener and no connection task, and unless the grace period ran out every connection returned by itself with all its bridges joined |
| `Generation.CompletedIsFinal` | crates/tlsplus-core/src/proxy/server/mod.rs:111 | Completion is sent by one step only and never undone, and only the stop message ends the accept loop |
| `GenerationProgress.OwnStepDecreases` | crates/tlsplus-core/src/proxy/server/mod.rs:76-111 | Each step of the generation's own tasks strictly decreases a measure over all its connections, bridges, queues and phases |
| `GenerationProgress.ShutdownIsBounded` | crates/tlsplus-core/src/proxy/server/mod.rs:95-111 | From the moment it stops accepting, a generation takes a bounded number of own steps, however requests and clocks interleave |
| `GenerationProgress.ToldGenerationMoves` | crates/tlsplus-core/src/proxy/server/mod.rs:76-111 | A generation told to stop is never stuck: until it has completed it has a step of its own at any clock reading |
| `GenerationProgress.GraceIsHonoured` | crates/tlsplus-core/src/proxy/server/mod.rs:97-110 | While no clock reading reaches the end of the grace period no connection is aborted, and a generation that finishes has beaten it |
| `AcceptTask.Task.AcceptLoop` | crates/tlsplus-core/src/proxy/server/mod.rs:76-94 | The loop leaves exactly at the first stop message, with the broadcast sent and the listener dropped, having treated everything before it as the step-by-step account says |
| `AcceptTask.EveryHappeningCounts` | crates/tlsplus-core/src/proxy/server/mod.rs:76-94 | Each connection that comes in becomes a new member and starts with its own requests; members move by their own steps and stay members until they have ended and are joined |
| `AcceptTask.AcceptsEveryIncoming` | crates/tlsplus-core/src/proxy/server/mod.rs:82-86 | Over every script the connections accepted number exactly those that come in before the first stop |
| `AcceptTask.DrainsInTime` | crates/tlsplus-core/src/proxy/server/mod.rs:97-107 | A drain that finds every member ended, with no clock reading two seconds on, completes in time with no member left |
| `AcceptTask.CanDrainInTime` | crates/tlsplus-core/src/proxy/server/mod.rs:97-103 | However its members stand, a task told to stop can complete in time by their own steps and ends alone |
| `AcceptTask.LateReadingAborts` | crates/tlsplus-core/src/proxy/server/mod.rs:104-110 | A reading two seconds on ends the drain: every member that is not over is aborted with no bridge left and nothing more joined, and completion follows |
| `AcceptTask.Task.Drain` | crates/tlsplus-core/src/proxy/server/mod.rs:97-107 | The drain ends in time with the set empty, or when the clock reaches the grace period with tasks left, and otherwise goes on |
| `AcceptTask.Task.AbortAll` | crates/tlsplus-core/src/proxy/server/mod.rs:108-109 | Abort and join end, with every remaining task cancelled where it next awaits, independently of the order in which they are joined |
| `AcceptTask.Task.Run` | crates/tlsplus-core/src/proxy/server/mod.rs:73-112 | For every script of arrivals, connection steps, ends, stop messages and clock readings, the task reaches the state of its specification; it completes only quiet, and in time unless a reading after the first stop message is past the grace period |
| `Connection.InvStep` | crates/tlsplus-core/src/proxy/server/connection.rs:29-59 | Every arm, request step, drop of senders and abort keeps the invariant of a connection |
| `Connection.ConservedStep` | crates/tlsplus-core/src/proxy/server/connection.rs:37-59 | What was enqueued is, in order, what was spawned, then what is queued, then what was dropped; what was spawned is running, joined or cut off |
| `Connection.TidyStep` | crates/tlsplus-core/src/proxy/server/connection.rs:30-59 | Leaving empties the bridge set and the queue, nothing is dropped before, and bridges are cut off only by an abort from outside |
| `Connection.EarlyStep` | crates/tlsplus-core/src/proxy/server/connection.rs:45-51 | What was enqueued before the connection future finished stays ahead of what is spawned until the drain has spawned it |
| `Connection.MatchedStep` | crates/tlsplus-core/src/proxy/websocket/mod.rs:164-182 | The enqueue log holds exactly one job per promised tunnel, pairing it with the stream of its own handshake, and no two requests share a stream |
| `Connection.HandshakeExactly` | crates/tlsplus-core/src/proxy/websocket/mod.rs:104-162 | A request gets a stream of its own or is refused, and nothing else about it or any other request changes |
| `Connection.SendExactly` | crates/tlsplus-core/src/proxy/websocket/mod.rs:164-173 | The send of a finished handshake goes through exactly while the task is there and its channel of one is empty, and fails, refusing the request, exactly when the task is over |
| `Connection.RespondExactly` | crates/tlsplus-core/src/proxy/websocket/mod.rs:175-182 | The success response follows the send and nothing else, and the senders go away once |
| `ConnectionRuns.JobsAreConserved` | crates/tlsplus-core/src/proxy/server/connection.rs:15-60 | In every reachable state every enqueued job is in exactly one place: queued, running, joined, dropped with the receiver, or cut off with an aborted connection |
| `ConnectionRuns.BridgesArePaired` | crates/tlsplus-core/src/proxy/websocket/mod.rs:164-168 | Each spawned bridge pairs a request with the upstream stream of its own handshake, and no request or stream is bridged twice |
| `ConnectionRuns.PromisesAreBacked` | crates/tlsplus-core/src/proxy/websocket/mod.rs:164-182 | A tunnel-success response comes after exactly one enqueue for its request, that of its own stream; a request refused or not yet past its enqueue has none |
| `ConnectionRuns.EarlyJobsAreSpawned` | crates/tlsplus-core/src/proxy/server/connection.rs:45-51 | Jobs are spawned in the order of the enqueues, and after the drain those enqueued before the connection finished are all spawned |
| `ConnectionRuns.JobsBeforeTheEndAreSpawned` | crates/tlsplus-core/src/proxy/server/connection.rs:37-51 | In any run in which the connection arm fires, every job enqueued before that moment is spawned once the drain inside the arm is over |
| `ConnectionRuns.ReturnJoinsEveryBridge` | crates/tlsplus-core/src/proxy/server/connection.rs:30-32 | `run` returns, by either exit, only with an empty bridge set and every spawned bridge joined, at most one job dropped, and never one that was enqueued before the connection ended |
| `ConnectionRuns.PromiseCanBeLost` | crates/tlsplus-core/src/proxy/server/connection.rs:30-32 | A run without shutdown in which a handshake finished after the connection ended is promised its tunnel and its job is dropped |
| `ConnectionRuns.TaskStepDecreases` | crates/tlsplus-core/src/proxy/server/connection.rs:29-59 | Twice the jobs to come and queued, plus the bridges, the two flags and the phase, decreases on every arm, on each spawn of the drain and on each join after the loop |
| `ConnectionRuns.OtherStepDoesNotIncrease` | crates/tlsplus-core/src/proxy/websocket/mod.rs:115-182 | No step of a request, of the senders or of the owner of the connection increases that measure |
| `ConnectionRuns.MeasureBoundsRun` | crates/tlsplus-core/src/proxy/server/connection.rs:29-59 | Over any run, the supervising task's steps so far and the measure left never exceed the measure at the start |
| `ConnectionRuns.TaskIsBounded` | crates/tlsplus-core/src/proxy/server/connection.rs:26-59 | Serving n requests costs the supervising task at most 2n + 5 steps over every interleaving |
| `ConnectionRuns.SignalledTaskMoves` | crates/tlsplus-core/src/proxy/server/connection.rs:36-59 | Once shutdown is signalled the supervising task is over or can take a step |
| `ConnectionTask.Choice` | crates/tlsplus-core/src/proxy/server/connection.rs:34-55 | Whatever arm the biased select picks is one that is enabled in the state machine |
| `ConnectionTask.PassDoesFirstReadyArm` | crates/tlsplus-core/src/proxy/server/connection.rs:34-55 | A pass does what its first ready arm demands, arm by arm: shutdown, the next job spawned, the channel found closed, the connection's end with its drain, the ended bridge joined; if none is ready only requests have moved on |
| `ConnectionTask.EndedConnectionReturns` | crates/tlsplus-core/src/proxy/server/connection.rs:29-55 | Once the connection has ended and the queue is empty the loop returns without a shutdown after one pass for the channel and one for each bridge, in whatever order they end, with all of them joined |
| `ConnectionTask.TunnelsThatEndAreJoined` | crates/tlsplus-core/src/proxy/server/connection.rs:29-55 | The same after any script that has led to such a state |
| `ConnectionTask.Supervisor.Select` | crates/tlsplus-core/src/proxy/server/connection.rs:34-55 | One pass of the biased select has exactly the effect of the first ready arm; requests move on while the connection is polled, and if it ends the drain spawns what they put on the channel |
| `ConnectionTask.Supervisor.ConnectionEnded` | crates/tlsplus-core/src/proxy/server/connection.rs:45-51 | The connection arm spawns everything queued, in order, and leaves the queue empty |
| `ConnectionTask.Supervisor.AbortBridges` | crates/tlsplus-core/src/proxy/server/connection.rs:58-59 | Abort and join leave no bridge and drop the receiver, whatever order the bridges are joined in |
| `ConnectionTask.DrainCatchesLastJob` | crates/tlsplus-core/src/proxy/server/connection.rs:45-51 | A script in which a handshake finishes in the very poll that ends the connection: its bridge is spawned by the drain alone |
| `ConnectionTask.Supervisor.Run` | crates/tlsplus-core/src/proxy/server/connection.rs:26-60 | For every script of polls, with requests moving on before and during each, the loop reaches the state of its specification by steps of the state machine; it returns with all spawned bridges joined, those of every job enqueued before the connection ended among them, and a signalled shutdown ends it at once |
| `Profiles.LookupIsStable` | crates/tlsplus-core/src/profiles.rs:193-197 | Looking up the name of the profile found finds the same profile again: by_name(by_name(n).name) = by_name(n) for every name |
| `Profiles.SpecialNames` | crates/tlsplus-core/src/profiles.rs:112-187 | The fallback name finds the alias without an identity, and pass-through finds nothing |
| `Profiles.CatalogIsTrimmed` | crates/tlsplus-core/src/profiles.rs:112-187 | No name in the catalog begins or ends with a blank |
| `Profiles.KeyShape` | crates/tlsplus-core/src/profiles.rs:83-91 | A pool key has an '@' exactly when it names a platform and is "default" exactly when there is no identity |
| `Profiles.PoolKeyDeterminesEmulation` | crates/tlsplus-core/src/profiles.rs:71-91 | Profiles share a pool key if and only if they have the same emulation, platform included |
| `ClientPool.BuildIsFaithful` | crates/tlsplus-core/src/transport.rs:16-47 | Building for the canonical name gives the emulation of the profile the requested name resolves to, fallback and pass-through included |
| `ClientPool.KeyDeterminesEmulation` | crates/tlsplus-core/src/transport.rs:36-47 | Names that select one pool request one emulation, whatever their case and whether alias, fallback or pass-through |
| `ClientPool.AliasEmulations` | crates/tlsplus-core/src/profiles.rs:112-177 | What each of the ten aliases and pass-through requests, written out, for any library that lists no profile of the name |
| `ClientPool.ListedEmulation` | crates/tlsplus-core/src/profiles.rs:16-24 | A profile of the library is requested by its own name in any case, without a platform, from the pool of that name |
| `ClientPool.EntryPathsAgree` | crates/tlsplus-core/src/http_client.rs:63-79 | For every accepted name the direct client and the proxy select one pool if and only if the name is trimmed or selects the default pool anyway; every name the direct client rejects selects the default pool in the proxy |
| `ClientPool.UntrimmedAliasDiffers` | crates/tlsplus-core/src/http_client.rs:121-132 | A blank before an alias with an identity: the direct client takes its pool, the proxy the default one |
| `ClientPool.InvStep` | crates/tlsplus-core/src/transport.rs:49-62 | Each step of each caller keeps the cache faithful, and every caller served holds the cached client of its pool |
| `ClientPool.CallersAgree` | crates/tlsplus-core/src/transport.rs:49-62 | Any number of callers, interleaving lookup, build and insert: all served from one pool hold the same client |
| `ClientPool.CacheIsTransparent` | crates/tlsplus-core/src/transport.rs:35-63 | In every run the client returned has the emulation requested, equal to that of a client built afresh |
| `ClientPool.EntriesArePermanent` | crates/tlsplus-core/src/transport.rs:49-62 | An entry never changes once present; without an insertion, so also after failed builds, the cache is unchanged |
| `ClientPool.CachedIsReused` | crates/tlsplus-core/src/transport.rs:49-56 | A caller that finds its pool filled gets that client when it looks and never builds, whatever others do |
| `ClientPool.PoolsAreSeparate` | crates/tlsplus-core/src/transport.rs:13-14 | Different pools never share a client, in any run |
| `ClientPool.ClientCache.InsertOrKeep` | crates/tlsplus-core/src/transport.rs:62 | A second insertion under a key keeps and returns the first client |
| `ClientPool.ClientCache.GetClient` | crates/tlsplus-core/src/transport.rs:35-63 | The exact result and cache for a hit, a failed build, a lost race and a won one; a faithful cache stays faithful |
| `HeaderMap.Rebuild` | crates/tlsplus-core/src/proxy/service.rs:135-145 | Filtering by name and appending the rest one by one to an empty map yields exactly the kept entries |
| `HeaderMap.KeepIsKeepFields` | crates/tlsplus-core/src/proxy/service.rs:135-145 | Filtering entries by name filters the field sequence: order and multiplicity of what stays are kept |
| `HeaderMap.Headers.Fill` | crates/tlsplus-core/src/proxy/websocket/headers.rs:53-76 | The fold over the source map leaves the filtered map in the target |
| `Text.SplitIsPieces` | crates/tlsplus-core/src/proxy/websocket/headers.rs:28-30 | Splitting yields exactly the stretches of text between separators or ends |
| `Text.TrimDecomposes` | crates/tlsplus-core/src/proxy/websocket/headers.rs:30 | Trimming takes blanks off both ends, all of them and nothing else |
| `HeaderMap.ToStrExactly` | crates/tlsplus-core/src/proxy/websocket/headers.rs:27 | A value reads as text if and only if it is visible ASCII, spaces and tabs included |
| `WebSocketHeaders.ConnectionTokensAreOfTheJoin` | crates/tlsplus-core/src/proxy/websocket/headers.rs:39-49 | The tokens of several Connection lines are those of the one line joining them with a comma and a space (section 5.3 of RFC 9110) |
| `WebSocketHeaders.TokenReadingsAgree` | crates/tlsplus-core/src/proxy/websocket/headers.rs:25-49 | A token is nominated if and only if it is not empty and `contains_token` finds it, for every string |
| `WebSocketHeaders.ContainsTokenExactly` | crates/tlsplus-core/src/proxy/websocket/headers.rs:25-33 | A token is found if and only if some value of the name, whichever, reads as text and has it between commas, blanks aside, in any case |
| `WebSocketHeaders.NominatedExactly` | crates/tlsplus-core/src/proxy/websocket/headers.rs:39-49 | A name is nominated if and only if it is lower-case, not empty, and some Connection value, whichever, has it |
| `WebSocketHeaders.RequestFilterDecomposes` | crates/tlsplus-core/src/proxy/websocket/headers.rs:51-82 | The handshake filter is the plain forwarding filter, then the removal of every nominated name, then on HTTP/1 exactly one Connection and one Upgrade field at the end; order and multiplicity of all others are kept |
| `WebSocketHeaders.RequestFilterIsIdempotent` | crates/tlsplus-core/src/proxy/websocket/headers.rs:51-82 | Filtering a filtered request changes nothing, on either transport |
| `WebSocketHeaders.RequestFitsItsTransport` | crates/tlsplus-core/src/proxy/websocket/headers.rs:51-82 | The HTTP/1 output reads as a WebSocket upgrade, and the HTTP/2 output has no connection-specific field (section 8.2.2 of RFC 9113) |
| `WebSocketHeaders.RequestLeaksNothing` | crates/tlsplus-core/src/proxy/websocket/headers.rs:55-71 | No internal, host, hop-by-hop or nominated field passes, the two handshake fields apart |
| `WebSocketHeaders.ResponseFitsItsTransport` | crates/tlsplus-core/src/proxy/websocket/headers.rs:84-109 | The HTTP/1 response completes the handshake; the HTTP/2 one is free of connection-specific fields if and only if the upstream sent no Keep-Alive field or nominated it |
| `WebSocketHeaders.KeepAliveIsKept` | crates/tlsplus-core/src/proxy/websocket/headers.rs:86-99 | A response map whose Keep-Alive field the HTTP/2 filter leaves in place |
| `WebSocketHeaders.ResponseFilterDecomposes` | crates/tlsplus-core/src/proxy/websocket/headers.rs:84-109 | A tunnel response keeps the upstream fields in order and multiplicity except connection, body-framing, proxy and nominated ones, and on HTTP/1 ends in exactly one Connection and one Upgrade field |
| `WebSocketHeaders.ResponseFilterIsIdempotent` | crates/tlsplus-core/src/proxy/websocket/headers.rs:84-109 | Filtering a filtered response changes nothing, on either transport |
| `WebSocketHeaders.FilterRequest` | crates/tlsplus-core/src/proxy/websocket/headers.rs:51-82 | The filter as it runs computes the request filter specified |
| `WebSocketHeaders.FilterResponse` | crates/tlsplus-core/src/proxy/websocket/headers.rs:84-109 | The filter as it runs computes the response filter specified |
| `WebSocketHeaders.FilterPlain` | crates/tlsplus-core/src/proxy/service.rs:135-145 | The fold of plain forwarding computes the plain filter specified |
| `WebSocketHeaders.NormalizeKeepsTheRest` | crates/tlsplus-core/src/proxy/websocket/headers.rs:14-20 | For every spelling of the four schemes the target keeps everything after the separator, and is secure exactly when the scheme given is |
| `WebSocketHeaders.NormalizeAccepts` | crates/tlsplus-core/src/proxy/websocket/headers.rs:10-23 | Only targets with one of the four schemes are accepted, and normalizing is idempotent |
| `Service.ForwardedExactly` | crates/tlsplus-core/src/proxy/service.rs:45-153 | A request is forwarded if and only if it is no upgrade, its version marker is in order, its metadata is readable and valid, and its profile has a client; without the client it is answered 502 |
| `Service.TunneledExactly` | crates/tlsplus-core/src/proxy/websocket/mod.rs:71-114 | A request becomes a tunnel if and only if it is a handshake in its own version with a usable target, a client and a deadline that fits; without the client it is answered 502, without the deadline 400 |
| `Service.ClassifyExactly` | crates/tlsplus-core/src/proxy/websocket/mod.rs:33-64 | Which requests are handshakes of which transport, which are no upgrade, and so which are malformed |
| `Service.MarkerExactly` | crates/tlsplus-core/src/proxy/service.rs:196-209 | The version marker is absent, or exactly one value that says HTTP/2 in any case; anything else is 400 |
| `Service.TimeoutExactly` | crates/tlsplus-core/src/proxy/websocket/mod.rs:87-94 | At least one second, 30 if nothing readable is asked for, otherwise what is asked for |
| `Service.RepliesAreExplained` | crates/tlsplus-core/src/proxy/service.rs:48-133 | The proxy answers a request itself with 400, or with 502 if no client can be built for this request's own profile, and with nothing else |
| `Service.ProtocolIsPreserved` | crates/tlsplus-core/src/proxy/service.rs:45-79 | Everything sent upstream keeps its method and :protocol; every tunnel keeps its wire version; the rest goes out in the declared version if there is one, else in the wire version |
| `Service.DowngradedTunnelIsRefused` | crates/tlsplus-core/src/proxy/service.rs:57-78 | A tunnel request whose declared version is not the wire version is answered 400, and a malformed handshake is never forwarded as an ordinary request |
| `Service.TunnelsAreHandshakes` | crates/tlsplus-core/src/proxy/websocket/mod.rs:33-64 | Only a GET upgrade on HTTP/1.1 or an Extended CONNECT for websocket on HTTP/2 (section 4 of RFC 8441) becomes a tunnel, and goes upstream in the form of its transport |
| `Service.NothingInternalIsSent` | crates/tlsplus-core/src/proxy/service.rs:135-153 | No metadata or host field and no hop-by-hop field reaches the upstream, except the two handshake fields of an HTTP/1 tunnel |
| `WebSocketProxy.FinishHandshake` | crates/tlsplus-core/src/proxy/websocket/mod.rs:115-183 | The client sees a completed handshake if and only if one job, pairing this request with its own upstream stream, is on the bridge channel; every other reply is fixed by the step that failed |
| `WebSocketProxy.BridgesExactly` | crates/tlsplus-core/src/proxy/websocket/outbound.rs:28-38 | A handshake succeeds with 101 on HTTP/1.1 and with any 2xx on HTTP/2, and is bridged if the stream was upgraded, the channel took the job and an HTTP/1.1 answer has both fields |
| `WebSocketProxy.ReplyIsPassedOn` | crates/tlsplus-core/src/proxy/service.rs:211-225 | A reply passed on keeps status, version and fields but transfer-encoding, in order; an error reply has its status and no field |
| `Forward.ForwardRequest` | crates/tlsplus-core/src/proxy/forward/mod.rs:123-199 | For every stream of outcomes the answer is that of the first attempt not worth retrying or of the last one allowed, nothing is sent after it, at most three sends, within the attempts' timeouts and the pauses, and the trailing error is never reached |
| `Forward.DecidingAttemptIsUnique` | crates/tlsplus-core/src/proxy/forward/mod.rs:154-196 | Exactly one attempt decides, so the outcomes alone fix the answer |
| `Forward.TimeIsBounded` | crates/tlsplus-core/src/proxy/forward/mod.rs:154-166 | The time to the end of an attempt is within its number of timeouts plus pauses of 100 and 400 ms |
| `Forward.SendsByMethod` | crates/tlsplus-core/src/proxy/forward/mod.rs:140-146 | Under an outage idempotent methods are sent three times, other requests up to 1 MiB twice, larger ones once |
| `Forward.RetriedExactly` | crates/tlsplus-core/src/proxy/forward/mod.rs:166-193 | Status 500 to 599, transient failures and timeouts are worth another attempt, and nothing else is |
| `Forward.OutcomeExactly` | crates/tlsplus-core/src/proxy/forward/mod.rs:166-195 | The answer is the response of the deciding attempt, or the error that fits how it failed |
| `Forward.TimesExactly` | crates/tlsplus-core/src/proxy/forward/mod.rs:147-158 | The pauses are 100 and 400 ms, and a timeout of 0 s means 30 s |
| `HeaderText.LineRoundTrip` | crates/tlsplus-core/src/proxy/forward/mod.rs:29-33 | A printed field is parsed back, colons in the value included |
| `HeaderText.LineExactly` | crates/tlsplus-core/src/proxy/forward/mod.rs:29-33 | A line is read up to its first colon, both sides trimmed and the name lowered; a line without a colon or with an invalid side is not read |
| `HeaderText.TokenCharsExactly` | crates/tlsplus-core/src/proxy/forward/mod.rs:30 | Names are made of visible ASCII but the delimiters (section 5.6.2 of RFC 9110) |
| `HeaderText.ValueCharsExactly` | crates/tlsplus-core/src/proxy/forward/mod.rs:30 | Values have no control characters but the tab |
| `HeaderText.CaseIsIgnored` | crates/tlsplus-core/src/proxy/forward/mod.rs:30 | A name is read the same in whatever case it is written |
| `HeaderText.PrintedExactly` | crates/tlsplus-core/src/proxy/forward/mod.rs:49-56 | Each printed line is the name, a colon, one space and the value, in the order of the fields |
| `HeaderText.RoundTrip` | crates/tlsplus-core/src/proxy/forward/mod.rs:26-56 | Printing a header map and parsing the lines gives the map back without transfer-encoding, repeated values in order, if and only if every other value is UTF-8 without blanks at either end |
| `HeaderText.LeadingBlankIsLost` | crates/tlsplus-core/src/proxy/forward/mod.rs:26-36 | A well-formed map whose value begins with a blank does not come back |
| `HeaderText.ParsingNormalizes` | crates/tlsplus-core/src/proxy/forward/mod.rs:26-56 | Whatever lines are parsed, the map is well formed, and printing and parsing it again reproduces it |
| `HeaderText.BuildForwardHeaders` | crates/tlsplus-core/src/proxy/forward/mod.rs:26-36 | The loop appends exactly the fields of the lines that parse, in order |
| `Ja4.RecogniserIsExact` | crates/tlsplus-core/src/proxy/forward/mod.rs:75-96 | The split-based recogniser accepts exactly the 36-character strings of the JA4 shape, over all strings |
| `Ja3.RoundTrip` | crates/tlsplus-core/src/ja4.rs:119-152 | A decoder recovers all five components of every JA3 string, empty lists included |
| `Ja3.SharedStrings` | crates/tlsplus-core/src/ja4.rs:108-152 | Two ClientHellos have one JA3 string if and only if their lists are equal and their versions have one number |
| `Ja3.DecodedExactly` | crates/tlsplus-core/src/ja4.rs:108-152 | What the decoder finds in the string of a ClientHello, the number of every version written out |
| `Ja3.PartsExactly` | crates/tlsplus-core/src/ja4.rs:151-152 | Between its commas the string has the version number and the four lists in order |
| `Ja3.ListExactly` | crates/tlsplus-core/src/ja4.rs:120-125 | Between its hyphens a list has its numbers in decimal, in order; an empty list is empty |
| `Ja3.VersionsCollide` | crates/tlsplus-core/src/ja4.rs:109-117 | Two named versions give one string if and only if they are equal or are TLS 1.0 and SSL 3.0 |
| `Ja3.ParsedPrintsBack` | crates/tlsplus-core/src/ja4.rs:151-152 | The decoder accepts nothing but JA3 strings |
| `Redirect.ParsesPlain` | src/main/kotlin/com/tlsplus/burp/handler/TlsPlusHttpHandler.kt:73-81 | Every plain host is read back, up to lower case, with every port from 1 to 65535 and with no other |
| `Redirect.ParsesBracketed` | src/main/kotlin/com/tlsplus/burp/handler/TlsPlusHttpHandler.kt:66-81 | Every bracketed host is read back, up to lower case, with every port from 1 to 65535 and with no other |
| `Redirect.RejectsMalformed` | src/main/kotlin/com/tlsplus/burp/handler/TlsPlusHttpHandler.kt:66-75 | Addresses without a host, without a port or with an open bracket are not read |
| `Redirect.ServerAddressIsRead` | crates/tlsplus-core/src/proxy/server/mod.rs:114-125 | The address the server prints for any loopback socket, scoped IPv6 ones included, is read back as the same host and port |
| `Redirect.SameHostIsNoEquivalence` | src/main/kotlin/com/tlsplus/burp/handler/TlsPlusHttpHandler.kt:86-97 | The host test is reflexive and symmetric for all hosts but not transitive |
| `Redirect.SpellingsOfOneHost` | src/main/kotlin/com/tlsplus/burp/handler/TlsPlusHttpHandler.kt:84-95 | The long form of ::1, brackets and case make no difference to the host test |
| `Redirect.RedirectIsAFixedPoint` | src/main/kotlin/com/tlsplus/burp/handler/TlsPlusHttpHandler.kt:25-56 | Handling a request twice is handling it once, for every endpoint text and settings |
| `Redirect.RedirectsAllButItsOwn` | src/main/kotlin/com/tlsplus/burp/handler/TlsPlusHttpHandler.kt:28-52 | While the server runs, a request is redirected to the reported host and port unless it is already addressed to them |
| `Redirect.RedirectedExactly` | src/main/kotlin/com/tlsplus/burp/handler/TlsPlusHttpHandler.kt:35-50 | A redirected request has the proxy as its service, without TLS, and keeps its body and version |
| `Redirect.TargetExactly` | src/main/kotlin/com/tlsplus/burp/handler/TlsPlusHttpHandler.kt:99-109 | A target keeps one of its four schemes and gets https otherwise |
| `Redirect.LeftAlone` | src/main/kotlin/com/tlsplus/burp/handler/TlsPlusHttpHandler.kt:26-55 | Requests are left alone when redirecting is off, no proxy runs, or its address cannot be read |
| `Redirect.LoopbackIsRedirected` | src/main/kotlin/com/tlsplus/burp/handler/TlsPlusHttpHandler.kt:31-34 | A request to 127.0.0.1 on another port is redirected, against line 187 of the repository's README.md |
| `Redirect.LocalhostMeansTheProxy` | src/main/kotlin/com/tlsplus/burp/handler/TlsPlusHttpHandler.kt:86-97 | localhost is taken for the server's host if and only if that host has no IPv6 scope |
| `EndToEnd.VersionSurvives` | src/main/kotlin/com/tlsplus/burp/handler/TlsPlusHttpHandler.kt:39-50 | A request held in HTTP/2 leaves the proxy in HTTP/2 or not at all, over whatever version it reaches the proxy; every other one leaves in the version it arrived in, even if it carries the marker itself |
| `EndToEnd.MetadataArrives` | src/main/kotlin/com/tlsplus/burp/handler/TlsPlusHttpHandler.kt:48-50 | Target, profile and timeout are read back by the WebSocket path whatever headers of those names the request came with, by the plain path exactly if it came with at most one of the name, and with 400 otherwise; text that is not visible ASCII arrives on neither |
| `EndToEnd.TargetArrives` | src/main/kotlin/com/tlsplus/burp/handler/TlsPlusHttpHandler.kt:99-109 | The target the extension writes is read back by both paths under exactly those conditions, and always has a scheme the WebSocket path takes |
| `EndToEnd.RepeatedTargetIsRefused` | src/main/kotlin/com/tlsplus/burp/handler/TlsPlusHttpHandler.kt:48 | A request with two target headers, in any spelling of the name, is refused by the plain path although the WebSocket path reads the extension's target, if setting a header updates only the first of its name |
| `EndToEnd.RedirectedIsForwarded` | src/main/kotlin/com/tlsplus/burp/handler/TlsPlusHttpHandler.kt:39-50 | Any redirected request is forwarded if and only if it is no upgrade, the proxy can use its target and has a client for its profile, it carried no repeated metadata, target and profile are text, and a CONNECT held in HTTP/2 arrives in HTTP/2; it then goes to its own target with the profile in force and a timeout of 30 s |
| `EndToEnd.PathsReadAlike` | crates/tlsplus-core/src/proxy/websocket/mod.rs:71-98 | Metadata that both paths accept selects one client pool and one timeout on both, although they read it by different rules |

## Left out

- Sockets, TLS, the HTTP libraries, body streaming and byte copying between the two ends of a tunnel; a bridge is a job that may end at any time, its 5 s limit for the inbound upgrade included.
- HTTP/2 stream tasks, which no set of tasks tracks: they appear only as senders on the bridge channel, and nothing is claimed about them after a stop.
- Task panics, poisoned locks and a runtime that cannot be created.
- Bridges of a connection that is itself aborted after the grace period are cut off, not joined.
- Parsing a ClientHello, JA4 hashing and MD5: `Ja3` starts from the parsed signature.
- The contents of emulation profiles: an emulation is the pair of profile and optional platform.
- The removal of nominated fields on the plain forwarding path, which the code does not do.
- The JSON body and URI conditions around the JA4 recogniser, and reading a response body after its head.
- Texts of messages and errors are enumerations; an error reply has its status and no text.
- The limits on the size of a header map, and the order of the remaining fields after a field is removed from one in place.
- Response headers of an error reply, except that it has none.
- Profile descriptions, display names, cipher counts, FFI records, native loading, settings, the user interface and the build.
- ConnectionTask.Supervisor.Run: requests move on before the arms are polled and while the connection is polled, but not while the queue is drained or bridges are aborted; `Connection` and `ConnectionRuns` cover those interleavings.
- AcceptTask.Task.Run: happens over a script of what is around it, in which connections stand still while the rest are aborted; `Generation` covers the interleavings.
- ServerState.State.Start: binding and listening are one outcome, so a socket that binds and then fails to report its address is a bind failure; the syntax of addresses is left to the parser given.
- ServerState.State.Stop: what the receive reports is a parameter, which has to be a possible report at the end of what happens meanwhile.
- Redirect.ParsesPlain: digits outside ASCII, which the platform's number parser takes, and lower-casing of letters outside ASCII are not modelled.
- EndToEnd.VersionSurvives: the hop between the tool and the proxy keeps fields in order and lower-cases names; other changes the tool may make on it are not modelled.
- Forward.ForwardRequest: starts after the header lines are parsed and ends at the response head or error; the per-attempt time bound is that of the timer.
