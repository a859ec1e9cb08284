/** From the extension to the upstream: what the proxy makes of the requests the extension redirects to it. */
module EndToEnd {
  import opened Wrappers
  import opened Text
  import opened HeaderMap
  import opened Http
  import WebSocketHeaders
  import Redirect
  import Service
  import Profiles
  import ClientPool

  const VERSION_NAME := "x-tlsplus-http-version"
  const TARGET_NAME := "x-tlsplus-target"
  const PROFILE_NAME := "x-tlsplus-profile"
  const TIMEOUT_NAME := "x-tlsplus-timeout"

  predicate IsPseudo(name: string) {
    name != [] && name[0] == ':'
  }

  /** The fields a header list becomes on the wire: pseudo-headers are not fields, and names arrive in lower case. */
  function WireFields(headers: seq<Redirect.Header>): seq<Field> {
    if headers == [] then []
    else if IsPseudo(headers[0].name) then WireFields(headers[1..])
    else [Field(Lower(headers[0].name), Utf8(headers[0].value))] + WireFields(headers[1..])
  }

  /** The header map the proxy receives. */
  function Received(headers: seq<Redirect.Header>): Entries {
    AppendAll([], WireFields(headers))
  }

  function ValuesOf(fields: seq<Field>, name: string): seq<Value> {
    if fields == [] then []
    else (if fields[0].name == name then [fields[0].value] else []) + ValuesOf(fields[1..], name)
  }

  lemma {:induction false} GetAllAppended(m: Entries, added: string, v: Value, name: string)
    ensures GetAll(Append(m, added, v), name) == GetAll(m, name) + (if added == name then [v] else [])
  {
    if m != [] && m[0].name != added {
      GetAllAppended(m[1..], added, v, name);
      assert ([m[0]] + Append(m[1..], added, v))[1..] == Append(m[1..], added, v);
    } else if m != [] {
      assert ([Entry(added, m[0].values + [v])] + m[1..])[1..] == m[1..];
    }
  }

  /** Appending fields collects the values of each name in order. */
  lemma {:induction false} GetAllOfAppendAll(m: Entries, fields: seq<Field>, name: string)
    ensures GetAll(AppendAll(m, fields), name) == GetAll(m, name) + ValuesOf(fields, name)
    decreases |fields|
  {
    if fields != [] {
      GetAllAppended(m, fields[0].name, fields[0].value, name);
      GetAllOfAppendAll(Append(m, fields[0].name, fields[0].value), fields[1..], name);
    }
  }

  function Sent(headers: seq<Redirect.Header>, name: string): seq<Value> {
    ValuesOf(WireFields(headers), name)
  }

  lemma ValuesOfFirst(f: Field, rest: seq<Field>, name: string)
    ensures ValuesOf([f] + rest, name) == (if f.name == name then [f.value] else []) + ValuesOf(rest, name)
  {
    assert ([f] + rest)[1..] == rest;
  }

  lemma SentFirst(headers: seq<Redirect.Header>, name: string)
    requires headers != []
    ensures Sent(headers, name) ==
      (if !IsPseudo(headers[0].name) && Lower(headers[0].name) == name then [Utf8(headers[0].value)] else []) +
        Sent(headers[1..], name)
  {
    if !IsPseudo(headers[0].name) {
      ValuesOfFirst(Field(Lower(headers[0].name), Utf8(headers[0].value)), WireFields(headers[1..]), name);
    } else {
      assert WireFields(headers) == WireFields(headers[1..]);
    }
  }

  /** The first value is replaced, or added if there is none; further values stay. */
  function Renewed(values: seq<Value>, text: string): seq<Value> {
    [Utf8(text)] + if values == [] then [] else values[1..]
  }

  lemma RenewFirst(value: Value, rest: seq<Value>, text: string)
    ensures Renewed([value] + rest, text) == [Utf8(text)] + rest
  {
    assert ([value] + rest)[1..] == rest;
  }

  /** The header found is the one updated. */
  lemma SentWithFound(headers: seq<Redirect.Header>, given: string, value: string, name: string)
    requires headers != [] && !IsPseudo(given) && EqIgnoreCase(headers[0].name, given)
    ensures Sent(Redirect.WithHeader(headers, given, value), name) ==
      if name == Lower(given) then Renewed(Sent(headers, name), value) else Sent(headers, name)
  {
    var after := Redirect.WithHeader(headers, given, value);
    EqIgnoreCaseIsLowerEq(headers[0].name, given);
    SameStart(headers[0].name, given);
    assert after[0] == Redirect.Header(headers[0].name, value) && after[1..] == headers[1..];
    SentFirst(after, name);
    SentFirst(headers, name);
    RenewFirst(Utf8(headers[0].value), Sent(headers[1..], name), value);
  }

  /** Setting a header renews the values sent under its name and no others. */
  lemma {:induction false} SentWithHeader(headers: seq<Redirect.Header>, given: string, value: string, name: string)
    requires !IsPseudo(given)
    ensures Sent(Redirect.WithHeader(headers, given, value), name) ==
      if name == Lower(given) then Renewed(Sent(headers, name), value) else Sent(headers, name)
  {
    var after := Redirect.WithHeader(headers, given, value);
    if headers == [] {
      assert after[1..] == [];
      SentFirst(after, name);
    } else if EqIgnoreCase(headers[0].name, given) {
      SentWithFound(headers, given, value, name);
    } else {
      EqIgnoreCaseIsLowerEq(headers[0].name, given);
      assert after[0] == headers[0] && after[1..] == Redirect.WithHeader(headers[1..], given, value);
      SentFirst(after, name);
      SentFirst(headers, name);
      SentWithHeader(headers[1..], given, value, name);
    }
  }

  lemma SameStart(a: string, b: string)
    requires EqIgnoreCase(a, b)
    ensures IsPseudo(a) == IsPseudo(b)
  {
    if a != [] {
      assert LowerChar(a[0]) == LowerChar(b[0]);
    }
  }

  lemma {:induction false} SentWithoutHeader(headers: seq<Redirect.Header>, removed: string, name: string)
    ensures Sent(Redirect.WithoutHeader(headers, removed), name) ==
      if name == Lower(removed) then [] else Sent(headers, name)
  {
    if headers != [] {
      SentFirst(headers, name);
      SentWithoutHeader(headers[1..], removed, name);
      EqIgnoreCaseIsLowerEq(headers[0].name, removed);
      var rest := Redirect.WithoutHeader(headers[1..], removed);
      if !EqIgnoreCase(headers[0].name, removed) {
        assert Redirect.WithoutHeader(headers, removed) == [headers[0]] + rest;
        SentFirst([headers[0]] + rest, name);
        assert ([headers[0]] + rest)[1..] == rest;
      } else {
        assert Redirect.WithoutHeader(headers, removed) == rest;
      }
    }
  }

  lemma VersionNameInLowerCase()
    ensures Lower("X-Tlsplus-Http-Version") == VERSION_NAME
  {
  }

  lemma TargetNameInLowerCase()
    ensures Lower("X-Tlsplus-Target") == TARGET_NAME
  {
  }

  lemma ProfileNameInLowerCase()
    ensures Lower("X-Tlsplus-Profile") == PROFILE_NAME
  {
  }

  lemma TimeoutNameInLowerCase()
    ensures Lower("X-Tlsplus-Timeout") == TIMEOUT_NAME
  {
  }

  lemma NamesDiffer()
    ensures |VERSION_NAME| == 22 && |TARGET_NAME| == 16 && |PROFILE_NAME| == |TIMEOUT_NAME| == 17 &&
      PROFILE_NAME != TIMEOUT_NAME
  {
    assert PROFILE_NAME[10] == 'p' && TIMEOUT_NAME[10] == 't';
  }

  /** The headers of a redirected request before the target, profile and timeout are set. */
  function Marked(r: Redirect.Request): seq<Redirect.Header> {
    if Redirect.IsHttp2(r) then Redirect.WithHeader(r.headers, "X-Tlsplus-Http-Version", "HTTP/2")
    else Redirect.WithoutHeader(r.headers, "X-Tlsplus-Http-Version")
  }

  lemma MarkerSent(r: Redirect.Request, name: string)
    ensures Sent(Marked(r), name) ==
      if name != VERSION_NAME then Sent(r.headers, name)
      else if Redirect.IsHttp2(r) then Renewed(Sent(r.headers, name), "HTTP/2")
      else []
  {
    VersionNameInLowerCase();
    SentWithHeader(r.headers, "X-Tlsplus-Http-Version", "HTTP/2", name);
    SentWithoutHeader(r.headers, "X-Tlsplus-Http-Version", name);
  }

  lemma ThreeMoreSent(marked: seq<Redirect.Header>, target: string, profile: string, name: string)
    ensures var headers := Redirect.WithHeader(Redirect.WithHeader(Redirect.WithHeader(marked,
        "X-Tlsplus-Target", target), "X-Tlsplus-Profile", profile), "X-Tlsplus-Timeout", "30");
      Sent(headers, name) ==
        if name == TARGET_NAME then Renewed(Sent(marked, name), target)
        else if name == PROFILE_NAME then Renewed(Sent(marked, name), profile)
        else if name == TIMEOUT_NAME then Renewed(Sent(marked, name), "30")
        else Sent(marked, name)
  {
    var one := Redirect.WithHeader(marked, "X-Tlsplus-Target", target);
    var two := Redirect.WithHeader(one, "X-Tlsplus-Profile", profile);
    TargetNameInLowerCase();
    ProfileNameInLowerCase();
    TimeoutNameInLowerCase();
    NamesDiffer();
    SentWithHeader(marked, "X-Tlsplus-Target", target, name);
    SentWithHeader(one, "X-Tlsplus-Profile", profile, name);
    SentWithHeader(two, "X-Tlsplus-Timeout", "30", name);
  }

  predicate IsMetadata(name: string) {
    name == TARGET_NAME || name == PROFILE_NAME || name == TIMEOUT_NAME
  }

  /** What the extension writes. */
  function MetadataText(settings: Redirect.Settings, url: string, name: string): string {
    if name == TARGET_NAME then Redirect.BuildTargetUrl(url) else if name == PROFILE_NAME then settings.profileName
      else "30"
  }

  /**
   What a redirected request carries under each name: the metadata renewed, the marker as the version says, the rest as
   it was.
   */
  lemma MetadataSent(settings: Redirect.Settings, proxy: Redirect.Endpoint, r: Redirect.Request, url: string,
        name: string)
    ensures Sent(Redirect.Redirected(settings, proxy, r, url).headers, name) ==
      if IsMetadata(name) then Renewed(Sent(r.headers, name), MetadataText(settings, url, name))
      else if name != VERSION_NAME then Sent(r.headers, name)
      else if Redirect.IsHttp2(r) then Renewed(Sent(r.headers, name), "HTTP/2")
      else []
  {
    NamesDiffer();
    MarkerSent(r, name);
    ThreeMoreSent(Marked(r), Redirect.BuildTargetUrl(url), settings.profileName, name);
  }

  lemma MetadataReceived(settings: Redirect.Settings, proxy: Redirect.Endpoint, r: Redirect.Request, url: string,
        name: string)
    ensures var headers := Redirect.Redirected(settings, proxy, r, url).headers;
      GetAll(Received(headers), name) == Sent(headers, name)
  {
    GetAllOfAppendAll([], WireFields(Redirect.Redirected(settings, proxy, r, url).headers), name);
  }

  /** The request as the proxy sees it: its method, wire version and :protocol are whatever arrives. */
  function Arrives(headers: seq<Redirect.Header>, verb: Method, wire: Version,
        protocol: Option<string>): Service.Request {
    Service.Request(verb, wire, protocol, Received(headers))
  }

  /**
   A request the tool holds in HTTP/2 leaves the proxy in HTTP/2 or not at all, over whatever version it reaches the
   proxy; any other request leaves in the version it arrived in. Headers of the same names in the request do not matter.
   */
  lemma VersionSurvives(settings: Redirect.Settings, proxy: Redirect.Endpoint, r: Redirect.Request, url: string,
                        verb: Method, wire: Version, protocol: Option<string>, world: Service.World)
    requires var arriving := Arrives(Redirect.Redirected(settings, proxy, r, url).headers, verb, wire, protocol);
      Service.SentUpstream(Service.Decide(arriving, world)).Some?
    ensures var arriving := Arrives(Redirect.Redirected(settings, proxy, r, url).headers, verb, wire, protocol);
      Service.SentUpstream(Service.Decide(arriving, world)).value.version ==
        if Redirect.IsHttp2(r) then HTTP_2 else wire
  {
    var headers := Redirect.Redirected(settings, proxy, r, url).headers;
    var arriving := Arrives(headers, verb, wire, protocol);
    NamesDiffer();
    MetadataSent(settings, proxy, r, url, VERSION_NAME);
    MetadataReceived(settings, proxy, r, url, VERSION_NAME);
    Service.ProtocolIsPreserved(arriving, world);
    DeclaredIsMarked(arriving);
    if Service.AsksForTunnel(arriving) {
      Service.DowngradedTunnelIsRefused(arriving, world);
    }
  }

  lemma DeclaredIsMarked(r: Service.Request)
    requires Service.DeclaredVersion(r.headers).Ok?
    ensures Service.DeclaredVersion(r.headers) ==
      Ok(if GetAll(r.headers, VERSION_NAME) == [] then None else Some(HTTP_2))
  {
  }

  /** Text that survives as a header value. */
  predicate IsText(s: string) {
    forall c :: c in s ==> IsVisible(c)
  }

  /**
   Renewed metadata is read by the WebSocket path from its first value, and by the plain path if it is the only one.
   */
  lemma ReadRenewed(m: Entries, name: string, values: seq<Value>, text: string)
    requires GetAll(m, name) == Renewed(values, text)
    ensures Service.FirstText(m, name) == if IsText(text) then Some(text) else None
    ensures Service.InternalHeader(m, name) ==
      if |values| <= 1 && IsText(text) then Ok(Some(text)) else Err(Service.BAD_REQUEST)
    ensures Service.Readable(m, name) <==> |values| <= 1 && IsText(text)
  {
  }

  /**
   The WebSocket path reads back the metadata the extension writes, whatever headers of those names the request came
   with. The plain path does so exactly when it came with at most one of the name, and answers 400 otherwise. Both need
   visible text.
   */
  lemma MetadataArrives(settings: Redirect.Settings, proxy: Redirect.Endpoint, r: Redirect.Request, url: string,
        name: string)
    requires IsMetadata(name)
    ensures var received := Received(Redirect.Redirected(settings, proxy, r, url).headers);
      var text := MetadataText(settings, url, name);
      && Service.FirstText(received, name) == (if IsText(text) then Some(text) else None)
      && Service.InternalHeader(received, name) ==
           (if |Sent(r.headers, name)| <= 1 && IsText(text) then Ok(Some(text)) else Err(Service.BAD_REQUEST))
      && (Service.Readable(received, name) <==> |Sent(r.headers, name)| <= 1 && IsText(text))
  {
    MetadataSent(settings, proxy, r, url, name);
    MetadataReceived(settings, proxy, r, url, name);
    ReadRenewed(Received(Redirect.Redirected(settings, proxy, r, url).headers), name, Sent(r.headers, name),
                MetadataText(settings, url, name));
  }

  /**
   The target arrives exactly if it is visible text, on the plain path also the only one, and has a scheme the WebSocket
   path takes.
   */
  lemma TargetArrives(settings: Redirect.Settings, proxy: Redirect.Endpoint, r: Redirect.Request, url: string)
    ensures var received := Received(Redirect.Redirected(settings, proxy, r, url).headers);
      var target := Redirect.BuildTargetUrl(url);
      && (Service.FirstText(received, TARGET_NAME) == Some(target) <==> IsText(url))
      && (Service.InternalHeader(received, TARGET_NAME) == Ok(Some(target)) <==>
           IsText(url) && |Sent(r.headers, TARGET_NAME)| <= 1)
      && WebSocketHeaders.NormalizeTarget(target).Ok?
  {
    MetadataArrives(settings, proxy, r, url, TARGET_NAME);
    TargetIsText(url);
    TargetIsNormalizable(url);
  }

  lemma TargetIsText(url: string)
    ensures IsText(Redirect.BuildTargetUrl(url)) <==> IsText(url)
  {
    var target := Redirect.BuildTargetUrl(url);
    if target != url {
      assert target == "https://" + url;
      assert forall c :: c in url ==> c in target;
    }
  }

  lemma TwoTargetsSent(headers: seq<Redirect.Header>)
    requires |headers| == 2
    requires headers[0].name == "X-Tlsplus-Target" && headers[1].name == "x-tlsplus-target"
    ensures |Sent(headers, TARGET_NAME)| == 2
  {
    TargetNameInLowerCase();
    assert Lower(headers[1].name) == TARGET_NAME;
    SentFirst(headers, TARGET_NAME);
    SentFirst(headers[1..], TARGET_NAME);
    assert headers[1..][1..] == [];
  }

  /**
   A request that comes with two target headers, however spelled, is refused by the plain path and not by the other.
   */
  lemma RepeatedTargetIsRefused(settings: Redirect.Settings, proxy: Redirect.Endpoint, r: Redirect.Request, url: string)
    requires IsText(url) && |r.headers| == 2
    requires r.headers[0].name == "X-Tlsplus-Target" && r.headers[1].name == "x-tlsplus-target"
    ensures var received := Received(Redirect.Redirected(settings, proxy, r, url).headers);
      && Service.InternalHeader(received, TARGET_NAME) == Err(Service.BAD_REQUEST)
      && Service.FirstText(received, TARGET_NAME) == Some(Redirect.BuildTargetUrl(url))
  {
    TwoTargetsSent(r.headers);
    TargetIsText(url);
    MetadataArrives(settings, proxy, r, url, TARGET_NAME);
  }

  /** At most one value under each name of metadata, and the marker only where the handler does not remove it. */
  predicate Unrepeated(r: Redirect.Request) {
    && |Sent(r.headers, TARGET_NAME)| <= 1 && |Sent(r.headers, PROFILE_NAME)| <= 1 &&
         |Sent(r.headers, TIMEOUT_NAME)| <= 1
    && (Redirect.IsHttp2(r) ==> |Sent(r.headers, VERSION_NAME)| <= 1)
  }

  lemma ThirtySeconds()
    ensures IsText("30") && ParseUnsigned("30", Service.U64_MAX) == Some(30)
  {
    assert "30"[..1] == "3" && "3"[..0] == "" && ValueOf("") == 0;
    assert ValueOf("3") == 3;
  }

  lemma MarkerArrives(settings: Redirect.Settings, proxy: Redirect.Endpoint, r: Redirect.Request, url: string)
    ensures Service.DeclaredVersion(Received(Redirect.Redirected(settings, proxy, r, url).headers)) ==
      if !Redirect.IsHttp2(r) then Ok(None)
      else if |Sent(r.headers, VERSION_NAME)| <= 1 then Ok(Some(HTTP_2))
      else Err(Service.BAD_REQUEST)
  {
    NamesDiffer();
    MetadataSent(settings, proxy, r, url, VERSION_NAME);
    MetadataReceived(settings, proxy, r, url, VERSION_NAME);
  }

  lemma TargetIsNotEmpty(url: string)
    ensures Redirect.BuildTargetUrl(url) != ""
  {
  }

  /**
   What the proxy finds of a redirected request apart from its metadata: no upgrade, a target it can use, and a client.
   */
  predicate Forwardable(arriving: Service.Request, target: string, world: Service.World) {
    && Service.Classify(arriving) == Service.NoUpgrade
    && world.parseUri(target).Some? && Service.IsAbsoluteHttp(world.parseUri(target).value)
    && world.hasClient(Service.WantedProfile(arriving))
  }

  /**
   A redirected request is forwarded exactly when the proxy can use it, it did not come with repeated metadata of its
   own, its target and profile are text, and, if it is a CONNECT held in HTTP/2, it arrives in HTTP/2. It then goes to
   its own target with the profile in force and a timeout of 30 seconds.
   */
  lemma RedirectedIsForwarded(settings: Redirect.Settings, proxy: Redirect.Endpoint, r: Redirect.Request, url: string,
                              verb: Method, wire: Version, protocol: Option<string>, world: Service.World)
    ensures var arriving := Arrives(Redirect.Redirected(settings, proxy, r, url).headers, verb, wire, protocol);
      var target, d := Redirect.BuildTargetUrl(url), Service.Decide(arriving, world);
      && (d.Forward? <==>
            && Forwardable(arriving, target, world) && Unrepeated(r) && IsText(target) && IsText(settings.profileName)
            && (verb == CONNECT && Redirect.IsHttp2(r) ==> wire == HTTP_2))
      && (d.Forward? ==>
            && Some(d.out.uri) == world.parseUri(target) && d.out.timeout == 30
            && d.out.profile == if settings.profileName == "" then "pass-through" else settings.profileName)
  {
    var arriving := Arrives(Redirect.Redirected(settings, proxy, r, url).headers, verb, wire, protocol);
    MarkerArrives(settings, proxy, r, url);
    MetadataArrives(settings, proxy, r, url, TARGET_NAME);
    MetadataArrives(settings, proxy, r, url, PROFILE_NAME);
    MetadataArrives(settings, proxy, r, url, TIMEOUT_NAME);
    NamesDiffer();
    ThirtySeconds();
    TargetIsNotEmpty(url);
    Service.ForwardedExactly(arriving, world);
    if Service.Decide(arriving, world).Forward? {
      Service.ForwardDecision(arriving, Service.DeclaredVersion(arriving.headers).value, world);
    }
  }

  lemma TargetIsNormalizable(url: string)
    ensures WebSocketHeaders.NormalizeTarget(Redirect.BuildTargetUrl(url)).Ok?
  {
    var target := Redirect.BuildTargetUrl(url);
    var scheme :=
      if "http://" <= target then "http" else if "https://" <= target then "https" else if "ws://" <= target then "ws"
        else "wss";
    var rest := target[|scheme| + 3..];
    assert target == scheme + "://" + rest;
    assert Lower(scheme) == scheme;
    WebSocketHeaders.NormalizeKeepsTheRest(scheme, rest);
  }

  lemma {:induction false} EmptyNameIsUnknown(profiles: seq<Profiles.TlsProfile>)
    requires forall p :: p in profiles ==> p.name != ""
    ensures Profiles.Find(profiles, "") == None
  {
    if profiles != [] {
      assert profiles[0] in profiles;
      EmptyNameIsUnknown(profiles[1..]);
    }
  }

  lemma EmptyProfileIsDefault(lib: Profiles.Library)
    requires Profiles.WellNamed(lib)
    ensures ClientPool.Key(lib, "") == ClientPool.Key(lib, "pass-through") == "default"
  {
    forall p | p in Profiles.Catalog(lib) ensures p.name != "" {
    }
    EmptyNameIsUnknown(Profiles.Catalog(lib));
    Profiles.SpecialNames(lib);
  }

  /**
   The two paths read the metadata by different rules, yet whatever both accept goes to one client pool under one
   timeout, even if the profile is given as the empty string.
   */
  lemma PathsReadAlike(lib: Profiles.Library, r: Service.Request, declared: Option<Version>,
                       transport: WebSocketHeaders.Transport, world: Service.World)
    requires Profiles.WellNamed(lib)
    requires Service.DecideForward(r, declared, world).Forward? && Service.DecideTunnel(r, transport, world).Tunnel?
    ensures var plain, tunnel := Service.DecideForward(r, declared, world).out,
      Service.DecideTunnel(r, transport, world).out;
      && ClientPool.Key(lib, plain.profile) == ClientPool.Key(lib, tunnel.profile)
      && plain.timeout == tunnel.timeout
  {
    Service.ForwardDecision(r, declared, world);
    Service.TunnelDecision(r, transport, world);
    EmptyProfileIsDefault(lib);
  }
}
