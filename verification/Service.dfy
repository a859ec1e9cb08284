/** What one request to the local proxy turns into: a reply of its own, a forwarded request, or a tunnel handshake. */
module Service {
  import opened Wrappers
  import opened Text
  import opened HeaderMap
  import opened WebSocketHeaders
  import opened Http

  /** `protocol` is the :protocol pseudo-header of an Extended CONNECT. */
  datatype Request = Request(verb: Method, version: Version, protocol: Option<string>, headers: Entries)

  datatype Uri = Uri(scheme: Option<string>, hasAuthority: bool, text: string)

  /**
   What the decision asks of the libraries: URI parsing, a pooled client, and whether a deadline can be represented.
   */
  datatype World = World(parseUri: string -> Option<Uri>, hasClient: string -> bool, fits: nat -> bool)

  datatype Outbound = Outbound(
    verb: Method, version: Version, protocol: Option<string>, uri: Uri, headers: Entries, profile: string, timeout: nat)

  datatype Decision = Reply(status: nat) | Forward(out: Outbound) | Tunnel(transport: Transport, out: Outbound)

  const BAD_REQUEST := 400
  const INTERNAL_SERVER_ERROR := 500
  const BAD_GATEWAY := 502
  const GATEWAY_TIMEOUT := 504
  const SWITCHING_PROTOCOLS := 101
  const U64_MAX := 0xFFFF_FFFF_FFFF_FFFF
  const DEFAULT_TIMEOUT := 30

  // ----- Reading the metadata -----

  /** The declared version of the original request, if the marker is absent or says HTTP/2; an error otherwise. */
  function DeclaredVersion(headers: Entries): Result<Option<Version>, nat> {
    var values := GetAll(headers, "x-tlsplus-http-version");
    if values == [] then Ok(None)
    else if |values| > 1 then Err(BAD_REQUEST)
    else match ToStr(values[0])
      case Some(text) => if EqIgnoreCase(text, "HTTP/2") then Ok(Some(HTTP_2)) else Err(BAD_REQUEST)
      case None => Err(BAD_REQUEST)
  }

  function InternalHeader(headers: Entries, name: string): Result<Option<string>, nat> {
    var values := GetAll(headers, name);
    if values == [] then Ok(None)
    else if |values| > 1 then Err(BAD_REQUEST)
    else match ToStr(values[0])
      case Some(text) => Ok(Some(text))
      case None => Err(BAD_REQUEST)
  }

  /** The first value, if it reads as text. */
  function FirstText(headers: Entries, name: string): Option<string> {
    var values := GetAll(headers, name);
    if values == [] then None else ToStr(values[0])
  }

  function AtLeastOne(seconds: nat): nat {
    if seconds == 0 then 1 else seconds
  }

  // ----- Classification -----

  datatype Upgrade = NoUpgrade | InvalidUpgrade | WebSocket(transport: Transport)

  function Classify(r: Request): Upgrade {
    if r.protocol.Some? then
      if r.verb == CONNECT && r.version == HTTP_2 && r.protocol.value == "websocket" then WebSocket(Http2)
        else InvalidUpgrade
    else
      var connectionUpgrade := ContainsToken(r.headers, CONNECTION, "upgrade");
      var websocketUpgrade := ContainsToken(r.headers, UPGRADE, "websocket");
      if !connectionUpgrade && !websocketUpgrade then NoUpgrade
      else if r.verb == GET && r.version == HTTP_11 && connectionUpgrade && websocketUpgrade then WebSocket(Http1)
      else InvalidUpgrade
  }

  /** Any request for a tunnel, well formed or not: CONNECT plain or extended, or half or all of an HTTP/1 upgrade. */
  predicate AsksForTunnel(r: Request) {
    r.verb == CONNECT || r.protocol.Some? ||
    ContainsToken(r.headers, CONNECTION, "upgrade") || ContainsToken(r.headers, UPGRADE, "websocket")
  }

  // ----- The decision -----

  function OutboundVersion(declared: Option<Version>, wire: Version): Version {
    match declared
    case Some(version) => version
    case None => wire
  }

  function TunnelMethod(transport: Transport): Method {
    match transport
    case Http1 => GET
    case Http2 => CONNECT
  }

  function TunnelVersion(transport: Transport): Version {
    match transport
    case Http1 => HTTP_11
    case Http2 => HTTP_2
  }

  function DecideTunnel(r: Request, transport: Transport, world: World): Decision {
    var target := match FirstText(r.headers, "x-tlsplus-target") case Some(t) => t case None => "";
    if target == "" then Reply(BAD_REQUEST) else
    var profile := match FirstText(r.headers, "x-tlsplus-profile") case Some(p) => p case None => "pass-through";
    var given :=
      match FirstText(r.headers, "x-tlsplus-timeout") case Some(t) => ParseUnsigned(t, U64_MAX) case None => None;
    var timeout := match given case Some(seconds) => AtLeastOne(seconds) case None => DEFAULT_TIMEOUT;
    match NormalizeTarget(target)
    case Err(_) => Reply(BAD_REQUEST)
    case Ok(normalized) =>
      match world.parseUri(normalized)
      case None => Reply(BAD_REQUEST)
      case Some(uri) =>
        if !world.hasClient(profile) then Reply(BAD_GATEWAY)
        else if !world.fits(timeout) then Reply(BAD_REQUEST)
        else Tunnel(transport, Outbound(TunnelMethod(transport), TunnelVersion(transport),
                                        if transport.Http2? then Some("websocket") else None,
                                        uri, RequestHeaders(r.headers, transport), profile, timeout))
  }

  function DecideForward(r: Request, declared: Option<Version>, world: World): Decision {
    match InternalHeader(r.headers, "x-tlsplus-target")
    case Err(status) => Reply(status)
    case Ok(None) => Reply(BAD_REQUEST)
    case Ok(Some(target)) =>
      if target == "" then Reply(BAD_REQUEST) else
      match InternalHeader(r.headers, "x-tlsplus-profile")
      case Err(status) => Reply(status)
      case Ok(named) =>
        var profile := if named.Some? && named.value != "" then named.value else "pass-through";
        match InternalHeader(r.headers, "x-tlsplus-timeout")
        case Err(status) => Reply(status)
        case Ok(given) =>
          if given.Some? && ParseUnsigned(given.value, U64_MAX).None? then Reply(BAD_REQUEST) else
          var seconds := if given.Some? then ParseUnsigned(given.value, U64_MAX).value else DEFAULT_TIMEOUT;
          match world.parseUri(target)
          case None => Reply(BAD_REQUEST)
          case Some(uri) =>
            if !((uri.scheme == Some("http") || uri.scheme == Some("https")) && uri.hasAuthority) then
              Reply(BAD_REQUEST)
            else if !world.hasClient(profile) then Reply(BAD_GATEWAY)
            else Forward(Outbound(r.verb, OutboundVersion(declared, r.version), None, uri,
                                  PlainHeaders(r.headers), profile, AtLeastOne(seconds)))
  }

  function Decide(r: Request, world: World): Decision {
    match DeclaredVersion(r.headers)
    case Err(status) => Reply(status)
    case Ok(declared) =>
      var upgrade := Classify(r);
      var mustMatch := r.verb == CONNECT || !upgrade.NoUpgrade?;
      if mustMatch && declared.Some? && declared.value != r.version then Reply(BAD_REQUEST) else
      match upgrade
      case WebSocket(transport) => DecideTunnel(r, transport, world)
      case InvalidUpgrade => Reply(BAD_REQUEST)
      case NoUpgrade => DecideForward(r, declared, world)
  }

  function SentUpstream(d: Decision): Option<Outbound> {
    match d
    case Reply(_) => None
    case Forward(out) => Some(out)
    case Tunnel(_, out) => Some(out)
  }

  // ----- What the decision preserves -----

  /** The seconds a timeout field asks for, at least one, and 30 if it asks for nothing readable. */
  function ReadTimeout(text: Option<string>): nat {
    if text.Some? && ParseUnsigned(text.value, U64_MAX).Some? then AtLeastOne(ParseUnsigned(text.value, U64_MAX).value)
    else DEFAULT_TIMEOUT
  }

  /**
   What a tunnel is made from. Unreadable metadata counts as absent, and of repeated metadata only the first value
   counts.
   */
  lemma TunnelDecision(r: Request, transport: Transport, world: World)
    ensures !DecideTunnel(r, transport, world).Forward?
    ensures DecideTunnel(r, transport, world).Tunnel? ==>
      var d := DecideTunnel(r, transport, world);
      var target := FirstText(r.headers, "x-tlsplus-target");
      && d.transport == transport && d.out.verb == TunnelMethod(transport) && d.out.version == TunnelVersion(transport)
      && d.out.protocol == (if transport.Http2? then Some("websocket") else None)
      && d.out.headers == RequestHeaders(r.headers, transport)
      && target.Some? && NormalizeTarget(target.value).Ok? &&
           world.parseUri(NormalizeTarget(target.value).value) == Some(d.out.uri)
      && FirstText(r.headers, "x-tlsplus-profile") in {None, Some(d.out.profile)}
      && (FirstText(r.headers, "x-tlsplus-profile").None? ==> d.out.profile == "pass-through")
      && world.hasClient(d.out.profile)
      && d.out.timeout >= 1 && d.out.timeout == ReadTimeout(FirstText(r.headers, "x-tlsplus-timeout"))
  {
  }

  /** What a forwarded request is made from. Each piece of metadata is there at most once, and readable. */
  lemma ForwardDecision(r: Request, declared: Option<Version>, world: World)
    ensures !DecideForward(r, declared, world).Tunnel?
    ensures DecideForward(r, declared, world).Forward? ==>
      var out := DecideForward(r, declared, world).out;
      var target := FirstText(r.headers, "x-tlsplus-target");
      && out.verb == r.verb && out.version == OutboundVersion(declared, r.version) && out.protocol == None
      && out.headers == PlainHeaders(r.headers)
      && target.Some? && world.parseUri(target.value) == Some(out.uri) && out.uri.hasAuthority
      && out.uri.scheme in {Some("http"), Some("https")}
      && FirstText(r.headers, "x-tlsplus-profile") in {None, Some(""), Some(out.profile)}
      && (FirstText(r.headers, "x-tlsplus-profile") in {None, Some("")} ==> out.profile == "pass-through")
      && world.hasClient(out.profile)
      && out.timeout >= 1 && out.timeout == ReadTimeout(FirstText(r.headers, "x-tlsplus-timeout"))
      && |GetAll(r.headers, "x-tlsplus-target")| == 1
      && |GetAll(r.headers, "x-tlsplus-profile")| <= 1 && |GetAll(r.headers, "x-tlsplus-timeout")| <= 1
  {
  }

  /** The version marker: none, or exactly one value that says HTTP/2 in any case; anything else is refused with 400. */
  lemma MarkerExactly(m: Entries)
    ensures var values := GetAll(m, "x-tlsplus-http-version");
      DeclaredVersion(m) ==
        if values == [] then Ok(None)
        else if |values| == 1 && ToStr(values[0]).Some? && EqIgnoreCase(ToStr(values[0]).value, "HTTP/2") then
          Ok(Some(HTTP_2))
        else Err(400)
  {
  }

  /** At least a second, half a minute if nothing readable is asked for, and otherwise what is asked for. */
  lemma TimeoutExactly(text: string)
    ensures ReadTimeout(None) == 30
    ensures ParseUnsigned(text, 0xFFFF_FFFF_FFFF_FFFF).None? ==> ReadTimeout(Some(text)) == 30
    ensures ParseUnsigned(text, 0xFFFF_FFFF_FFFF_FFFF) == Some(0) ==> ReadTimeout(Some(text)) == 1
    ensures forall n :: n > 0 && ParseUnsigned(text, 0xFFFF_FFFF_FFFF_FFFF) == Some(n) ==> ReadTimeout(Some(text)) == n
  {
  }

  /** Which requests are handshakes of which transport, which are none, and so which are malformed. */
  lemma ClassifyExactly(r: Request)
    ensures Classify(r) == WebSocket(Http1) <==>
      && r.protocol == None && r.verb == GET && r.version == HTTP_11
      && ContainsToken(r.headers, "connection", "upgrade") && ContainsToken(r.headers, "upgrade", "websocket")
    ensures Classify(r) == WebSocket(Http2) <==>
      r.protocol == Some("websocket") && r.verb == CONNECT && r.version == HTTP_2
    ensures Classify(r) == NoUpgrade <==>
      && r.protocol == None
      && !ContainsToken(r.headers, "connection", "upgrade") && !ContainsToken(r.headers, "upgrade", "websocket")
  {
  }

  /** The profile a request asks for; the two paths differ in how they take an empty name. */
  function WantedProfile(r: Request): string {
    match FirstText(r.headers, "x-tlsplus-profile")
    case None => "pass-through"
    case Some(name) => if name == "" && Classify(r) == NoUpgrade then "pass-through" else name
  }

  /**
   A request the proxy answers itself is one it found malformed, unless no client could be built for its own profile.
   */
  lemma RepliesAreExplained(r: Request, world: World)
    requires Decide(r, world).Reply?
    ensures Decide(r, world).status in {400, 502}
    ensures Decide(r, world).status == 502 ==> !world.hasClient(WantedProfile(r))
  {
  }

  /** A piece of metadata that plain forwarding can read. */
  predicate Readable(headers: Entries, name: string) {
    GetAll(headers, name) == [] || (|GetAll(headers, name)| == 1 && ToStr(GetAll(headers, name)[0]).Some?)
  }

  predicate IsAbsoluteHttp(uri: Uri) {
    uri.scheme in {Some("http"), Some("https")} && uri.hasAuthority
  }

  /** A request that is no upgrade, with an untouched version if CONNECT, and with metadata in order. */
  predicate WellFormedForward(r: Request, world: World) {
    var target := FirstText(r.headers, "x-tlsplus-target");
    var seconds := FirstText(r.headers, "x-tlsplus-timeout");
    && Classify(r) == NoUpgrade
    && DeclaredVersion(r.headers).Ok?
    && (r.verb == CONNECT ==> DeclaredVersion(r.headers).value in {None, Some(r.version)})
    && Readable(r.headers, "x-tlsplus-target") && Readable(r.headers, "x-tlsplus-profile")
    && Readable(r.headers, "x-tlsplus-timeout")
    && target.Some? && target.value != "" && world.parseUri(target.value).Some?
    && IsAbsoluteHttp(world.parseUri(target.value).value)
    && (seconds.Some? ==> ParseUnsigned(seconds.value, U64_MAX).Some?)
  }

  /** Exactly these requests are forwarded, given a client; without one they are answered 502. */
  lemma ForwardedExactly(r: Request, world: World)
    ensures Decide(r, world).Forward? <==> WellFormedForward(r, world) && world.hasClient(WantedProfile(r))
    ensures WellFormedForward(r, world) && !world.hasClient(WantedProfile(r)) ==> Decide(r, world) == Reply(502)
  {
    match (DeclaredVersion(r.headers), Classify(r))
    case (Ok(declared), WebSocket(transport)) => TunnelDecision(r, transport, world);
    case (Ok(declared), NoUpgrade) => ForwardDecision(r, declared, world);
    case _ =>
  }

  /** A handshake that arrives in the version it was made in and names a target that can be used. */
  predicate WellFormedTunnel(r: Request, world: World) {
    var target := FirstText(r.headers, "x-tlsplus-target");
    && Classify(r).WebSocket?
    && DeclaredVersion(r.headers).Ok? && DeclaredVersion(r.headers).value in {None, Some(r.version)}
    && target.Some? && NormalizeTarget(target.value).Ok?
    && world.parseUri(NormalizeTarget(target.value).value).Some?
  }

  /**
   Exactly these handshakes become tunnels, given a client and a deadline that can be represented; without the client
   they are answered 502, and without the deadline 400.
   */
  lemma TunneledExactly(r: Request, world: World)
    ensures var fits := world.fits(ReadTimeout(FirstText(r.headers, "x-tlsplus-timeout")));
      && (Decide(r, world).Tunnel? <==> WellFormedTunnel(r, world) && world.hasClient(WantedProfile(r)) && fits)
      && (WellFormedTunnel(r, world) && !world.hasClient(WantedProfile(r)) ==> Decide(r, world) == Reply(502))
      && (WellFormedTunnel(r, world) && world.hasClient(WantedProfile(r)) && !fits ==> Decide(r, world) == Reply(400))
  {
    NoEmptyTarget();
    match (DeclaredVersion(r.headers), Classify(r))
    case (Ok(declared), WebSocket(transport)) => TunnelDecision(r, transport, world);
    case (Ok(declared), NoUpgrade) => ForwardDecision(r, declared, world);
    case _ =>
  }

  lemma NoEmptyTarget()
    ensures NormalizeTarget("") == Err(MissingScheme)
  {
  }

  /**
   Whatever is sent upstream keeps the method and the :protocol of the request. A tunnel of any kind keeps its wire
   version; everything else goes out with the declared version if there is one, else with the wire version.
   */
  lemma ProtocolIsPreserved(r: Request, world: World)
    requires SentUpstream(Decide(r, world)).Some?
    ensures DeclaredVersion(r.headers).Ok?
    ensures var out := SentUpstream(Decide(r, world)).value;
      && out.verb == r.verb && out.protocol == r.protocol
      && out.version == if AsksForTunnel(r) then r.version
           else OutboundVersion(DeclaredVersion(r.headers).value, r.version)
  {
    var declared := DeclaredVersion(r.headers).value;
    match Classify(r)
    case WebSocket(transport) => TunnelDecision(r, transport, world);
    case NoUpgrade => ForwardDecision(r, declared, world);
  }

  /**
   A request for a tunnel whose declared version differs from the wire, so one that was downgraded on the way in, is
   answered 400 and never sent, and a malformed handshake is never passed on as an ordinary request.
   */
  lemma DowngradedTunnelIsRefused(r: Request, world: World)
    requires AsksForTunnel(r)
    ensures DeclaredVersion(r.headers) == Ok(Some(HTTP_2)) && r.version != HTTP_2 ==>
      Decide(r, world) == Reply(BAD_REQUEST)
    ensures Decide(r, world).Forward? ==> r.verb == CONNECT && r.protocol.None? && Classify(r) == NoUpgrade
    ensures Classify(r) == InvalidUpgrade ==> Decide(r, world) == Reply(BAD_REQUEST)
  {
    match (DeclaredVersion(r.headers), Classify(r))
    case (Ok(declared), WebSocket(transport)) => TunnelDecision(r, transport, world);
    case _ =>
  }

  lemma WebSocketClass(r: Request)
    ensures Classify(r) == WebSocket(Http1) ==>
      r.verb == GET && r.version == HTTP_11 && r.protocol.None? && IsWebSocketUpgrade(r.headers)
    ensures Classify(r) == WebSocket(Http2) ==>
      r.verb == CONNECT && r.version == HTTP_2 && r.protocol == Some("websocket")
  {
  }

  lemma TunnelClass(r: Request, world: World)
    requires Decide(r, world).Tunnel?
    ensures Classify(r).WebSocket? && Decide(r, world) == DecideTunnel(r, Classify(r).transport, world)
  {
  }

  /** Only a complete handshake becomes a tunnel, and only over its own version. */
  lemma TunnelsAreHandshakes(r: Request, world: World)
    requires Decide(r, world).Tunnel?
    ensures var d := Decide(r, world);
      && IsWebSocketUpgrade(d.out.headers) == d.transport.Http1?
      && (d.transport.Http1? ==>
            r.verb == GET && r.version == HTTP_11 && r.protocol.None? && IsWebSocketUpgrade(r.headers))
      && (d.transport.Http2? ==> r.verb == CONNECT && r.version == HTTP_2 && r.protocol == Some("websocket"))
  {
    TunnelClass(r, world);
    TunnelDecision(r, Classify(r).transport, world);
    WebSocketClass(r);
    RequestFitsItsTransport(r.headers);
  }

  /** No metadata, host or hop-by-hop field reaches the upstream, the two handshake fields of an HTTP/1 tunnel apart. */
  lemma NothingInternalIsSent(r: Request, world: World, name: string)
    requires SentUpstream(Decide(r, world)).Some? && Has(SentUpstream(Decide(r, world)).value.headers, name)
    ensures !("x-tlsplus-" <= name) && name != "host"
    ensures name != "proxy-connection" && name != "proxy-authorization" && name != "proxy-authenticate"
    ensures name != "keep-alive" && name != "te" && name != "trailer" && name != "transfer-encoding"
    ensures name == "connection" || name == "upgrade" ==> Decide(r, world).Tunnel?
  {
    match Classify(r)
    case WebSocket(transport) =>
      TunnelDecision(r, transport, world);
      RequestLeaksNothing(r.headers, transport, name);
    case NoUpgrade =>
      ForwardDecision(r, DeclaredVersion(r.headers).value, world);
      KeepHas(r.headers, PlainKeeps, name);
  }
}
