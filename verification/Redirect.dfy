/** The extension's side: reading the proxy's address and redirecting requests to it. */
module Redirect {
  import opened Wrappers
  import opened Text

  // ----- The address the server reports -----

  /** A loopback host as the server prints it; an IPv6 one may carry a scope. */
  datatype Host = V4(b: nat, c: nat, d: nat) | V6(scope: Option<nat>)

  datatype SocketAddr = SocketAddr(host: Host, port: nat)

  predicate IsSocketAddr(a: SocketAddr) {
    1 <= a.port <= 65535 && (a.host.V4? ==> a.host.b < 256 && a.host.c < 256 && a.host.d < 256)
  }

  function HostText(h: Host): string {
    match h
    case V4(b, c, d) => "127." + Dec(b) + "." + Dec(c) + "." + Dec(d)
    case V6(None) => "::1"
    case V6(Some(scope)) => "::1%" + Dec(scope)
  }

  /** IPv6 hosts are bracketed. */
  function Display(a: SocketAddr): string {
    if a.host.V4? then HostText(a.host) + ":" + Dec(a.port) else "[" + HostText(a.host) + "]:" + Dec(a.port)
  }

  // ----- Reading it -----

  datatype Endpoint = Endpoint(host: string, port: nat)

  const MAX_PORT := 65535

  function IndexOf(s: string, c: char): Option<nat> {
    if s == [] then None
    else if s[0] == c then Some(0)
    else match IndexOf(s[1..], c) case Some(i) => Some(i + 1) case None => None
  }

  function LastIndexOf(s: string, c: char): (r: Option<nat>)
    ensures r.Some? ==> r.value < |s| && s[r.value] == c
  {
    if s == [] then None
    else if s[|s| - 1] == c then Some(|s| - 1)
    else LastIndexOf(s[..|s| - 1], c)
  }

  /** `toIntOrNull` followed by the range check: a sign is allowed, and a negative number is out of range. */
  function ParsePort(s: string): Option<nat> {
    match ParseUnsigned(s, MAX_PORT)
    case Some(port) => if port >= 1 then Some(port) else None
    case None => None
  }

  function RemovePrefix(s: string): string {
    if s != [] && s[0] == '[' then s[1..] else s
  }

  function RemoveSuffix(s: string): string {
    if s != [] && s[|s| - 1] == ']' then s[..|s| - 1] else s
  }

  function NormalizeHost(host: string): string {
    Lower(RemoveSuffix(RemovePrefix(host)))
  }

  function WithPort(host: string, portText: string): Option<Endpoint> {
    match ParsePort(portText)
    case Some(port) => Some(Endpoint(NormalizeHost(host), port))
    case None => None
  }

  /** `None` where the program throws. */
  function ParseProxyAddr(address: string): Option<Endpoint> {
    if address != [] && address[0] == '[' then
      match IndexOf(address, ']')
      case None => None
      case Some(closing) =>
        if closing > 1 && closing + 1 < |address| && address[closing + 1] == ':'
        then WithPort(address[1..closing], address[closing + 2..])
        else None
    else
      match LastIndexOf(address, ':')
      case None => None
      case Some(colon) => if colon > 0 then WithPort(address[..colon], address[colon + 1..]) else None
  }

  lemma {:induction false} IndexOfFirst(before: string, c: char, after: string)
    requires c !in before
    ensures IndexOf(before + [c] + after, c) == Some(|before|)
  {
    var s := before + [c] + after;
    if before != [] {
      assert s[1..] == before[1..] + [c] + after;
      IndexOfFirst(before[1..], c, after);
    }
  }

  lemma {:induction false} LastIndexOfLast(before: string, c: char, after: string)
    requires c !in after
    ensures LastIndexOf(before + [c] + after, c) == Some(|before|)
  {
    var s := before + [c] + after;
    if after != [] {
      assert s[..|s| - 1] == before + [c] + after[..|after| - 1];
      assert s[|s| - 1] == after[|after| - 1];
      LastIndexOfLast(before, c, after[..|after| - 1]);
    }
  }

  predicate Unbracketed(host: string) {
    host != [] && '[' !in host && ']' !in host
  }

  lemma NormalizeUnbracketed(host: string)
    requires Unbracketed(host)
    ensures NormalizeHost(host) == Lower(host)
  {
  }

  lemma PortExactly(port: nat)
    ensures ParsePort(Dec(port)) == (if 1 <= port <= 65535 then Some(port) else None) && ':' !in Dec(port)
  {
    DecRoundTrip(port);
    assert Dec(port)[0] in Dec(port);
  }

  /** Every plain host and every port is read back, whatever colons the host has, if the port is from 1 to 65535. */
  lemma ParsesPlain(host: string, port: nat)
    requires Unbracketed(host)
    ensures ParseProxyAddr(host + ":" + Dec(port)) ==
      if 1 <= port <= 65535 then Some(Endpoint(Lower(host), port)) else None
  {
    var address := host + [':'] + Dec(port);
    assert address == host + ":" + Dec(port);
    PortExactly(port);
    LastIndexOfLast(host, ':', Dec(port));
    NormalizeUnbracketed(host);
    assert address[0] == host[0];
    assert address[..|host|] == host && address[|host| + 1..] == Dec(port);
  }

  /** Every bracketed host and every port is read back, if the port is from 1 to 65535. */
  lemma ParsesBracketed(host: string, port: nat)
    requires Unbracketed(host)
    ensures ParseProxyAddr("[" + host + "]:" + Dec(port)) ==
      if 1 <= port <= 65535 then Some(Endpoint(Lower(host), port)) else None
  {
    var address := "[" + host + [']'] + (":" + Dec(port));
    assert address == "[" + host + "]:" + Dec(port);
    PortExactly(port);
    IndexOfFirst("[" + host, ']', ":" + Dec(port));
    NormalizeUnbracketed(host);
    assert address[1..|host| + 1] == host && address[|host| + 3..] == Dec(port);
  }

  lemma {:induction false} NoLastIndex(s: string, c: char)
    requires c !in s
    ensures LastIndexOf(s, c) == None
  {
    if s != [] {
      assert s[|s| - 1] in s;
      NoLastIndex(s[..|s| - 1], c);
    }
  }

  lemma {:induction false} NoIndex(s: string, c: char)
    requires c !in s
    ensures IndexOf(s, c) == None
  {
    if s != [] {
      NoIndex(s[1..], c);
    }
  }

  /** An address without a host, without a port, or with an open bracket is not read. */
  lemma RejectsMalformed(text: string)
    ensures ':' !in text ==> ParseProxyAddr(text) == None && ParseProxyAddr(":" + text) == None
    ensures ']' !in text ==> ParseProxyAddr("[" + text) == None
    ensures ParseProxyAddr("[]:" + text) == None
  {
    if ':' !in text {
      if text != [] && text[0] == '[' {
        NoColonAfter(text);
      } else {
        NoLastIndex(text, ':');
      }
      LastIndexOfLast("", ':', text);
      assert ":" + text == "" + [':'] + text;
    }
    if ']' !in text {
      NoIndex("[" + text, ']');
    }
    IndexOfFirst("[", ']', ":" + text);
    assert "[]:" + text == "[" + [']'] + (":" + text);
  }

  lemma {:induction false} IndexIsHit(s: string, c: char)
    ensures IndexOf(s, c).Some? ==> IndexOf(s, c).value < |s| && s[IndexOf(s, c).value] == c
  {
    if s != [] {
      IndexIsHit(s[1..], c);
    }
  }

  lemma NoColonAfter(text: string)
    requires ':' !in text && text != [] && text[0] == '['
    ensures ParseProxyAddr(text) == None
  {
    IndexIsHit(text, ']');
    assert forall i :: 0 <= i < |text| ==> text[i] != ':';
  }

  predicate IsHostChar(c: char) {
    IsDigit(c) || c == '.' || c == ':' || c == '%'
  }

  lemma HostTextIsPlain(h: Host)
    ensures Unbracketed(HostText(h)) && Lower(HostText(h)) == HostText(h)
  {
    match h
    case V4(b, c, d) =>
      DecRoundTrip(b);
      DecRoundTrip(c);
      DecRoundTrip(d);
      PlainText(HostText(h));
    case V6(None) => PlainText("::1");
    case V6(Some(scope)) =>
      DecRoundTrip(scope);
      PlainText(HostText(h));
  }

  lemma PlainText(s: string)
    requires s != [] && forall c :: c in s ==> IsHostChar(c)
    ensures Unbracketed(s) && Lower(s) == s
  {
    assert forall i :: 0 <= i < |s| ==> s[i] in s;
  }

  /** What the server prints, the extension reads: the same host text and the same port. */
  lemma ServerAddressIsRead(a: SocketAddr)
    requires IsSocketAddr(a)
    ensures ParseProxyAddr(Display(a)) == Some(Endpoint(HostText(a.host), a.port))
  {
    HostTextIsPlain(a.host);
    if a.host.V4? {
      ParsesPlain(HostText(a.host), a.port);
    } else {
      ParsesBracketed(HostText(a.host), a.port);
    }
  }

  // ----- Hosts that mean the proxy -----

  /** Every occurrence, from the left. */
  function Replace(s: string, from: string, to: string): string
    requires from != []
  {
    if s == [] then []
    else if from <= s then to + Replace(s[|from|..], from, to)
    else [s[0]] + Replace(s[1..], from, to)
  }

  function ShortHost(host: string): string {
    Replace(NormalizeHost(host), "0:0:0:0:0:0:0:1", "::1")
  }

  predicate IsLoopbackLiteral(host: string) {
    host == "::1" || "127." <= host
  }

  predicate SameShort(request: string, proxy: string) {
    request == proxy || (request == "localhost" && IsLoopbackLiteral(proxy)) ||
      (proxy == "localhost" && IsLoopbackLiteral(request))
  }

  predicate SameHost(requestHost: string, proxyHost: string) {
    SameShort(ShortHost(requestHost), ShortHost(proxyHost))
  }

  lemma {:induction false} ReplaceNothing(s: string, from: string, to: string)
    requires from != [] && |s| < |from|
    ensures Replace(s, from, to) == s
  {
    if s != [] {
      ReplaceNothing(s[1..], from, to);
      assert [s[0]] + s[1..] == s;
    }
  }

  /** A short host in lower case stays as it is. */
  lemma ShortHostOfShort(host: string)
    requires Unbracketed(host) && Lower(host) == host && |host| < 15
    ensures ShortHost(host) == host
  {
    NormalizeUnbracketed(host);
    ReplaceNothing(host, "0:0:0:0:0:0:0:1", "::1");
  }

  lemma ShortLocalhost()
    ensures ShortHost("localhost") == "localhost"
  {
    ShortHostOfShort("localhost");
  }

  lemma ShortLoopback4()
    ensures ShortHost("127.0.0.1") == "127.0.0.1"
  {
    ShortHostOfShort("127.0.0.1");
  }

  lemma ShortLoopback6()
    ensures ShortHost("::1") == "::1"
  {
    ShortHostOfShort("::1");
  }

  lemma ShortFamiliesApart()
    ensures SameShort("127.0.0.1", "localhost") && SameShort("localhost", "::1") && !SameShort("127.0.0.1", "::1")
  {
    assert |"127.0.0.1"| == |"localhost"| == 9 && |"::1"| == 3 && "127.0.0.1"[0] == '1';
  }

  lemma LoopbackFamiliesApart()
    ensures SameHost("127.0.0.1", "localhost") && SameHost("localhost", "::1") && !SameHost("127.0.0.1", "::1")
  {
    ShortLocalhost();
    ShortLoopback4();
    ShortLoopback6();
    ShortFamiliesApart();
  }

  /** The test is reflexive and symmetric, but not transitive: localhost stands for both families, which stay apart. */
  lemma SameHostIsNoEquivalence(a: string, b: string)
    ensures SameHost(a, a) && (SameHost(a, b) <==> SameHost(b, a))
    ensures SameHost("127.0.0.1", "localhost") && SameHost("localhost", "::1") && !SameHost("127.0.0.1", "::1")
  {
    LoopbackFamiliesApart();
  }

  lemma BracketedLoopback6()
    ensures ShortHost("[::1]") == "::1"
  {
    assert RemovePrefix("[::1]") == "::1]" && RemoveSuffix("::1]") == "::1";
    assert RemovePrefix("::1") == "::1" && RemoveSuffix("::1") == "::1";
    ShortLoopback6();
  }

  lemma UpperLocalhost()
    ensures ShortHost("LOCALHOST") == "localhost"
  {
    assert RemovePrefix("LOCALHOST") == "LOCALHOST" && RemoveSuffix("LOCALHOST") == "LOCALHOST";
    assert Lower("LOCALHOST") == "localhost";
    ReplaceNothing("localhost", "0:0:0:0:0:0:0:1", "::1");
  }

  /** The long form of ::1, brackets and case make no difference. */
  lemma SpellingsOfOneHost(long: string, bracketed: string, upper: string)
    requires long == "0:0:0:0:0:0:0:1" && bracketed == "[::1]" && upper == "LOCALHOST"
    ensures ShortHost(long) == ShortHost(bracketed) == "::1" && ShortHost(upper) == "localhost"
  {
    LongLoopback6(long);
    BracketedLoopback6();
    UpperLocalhost();
  }

  lemma LongLoopback6(host: string)
    requires host == "0:0:0:0:0:0:0:1"
    ensures ShortHost(host) == "::1"
  {
    NormalizeUnbracketed(host);
    assert Lower(host) == host;
    assert host[|host|..] == "" && Replace("", host, "::1") == "";
    assert Replace(host, host, "::1") == "::1" + "";
  }

  // ----- The handler -----

  datatype HttpService = HttpService(host: string, port: nat, secure: bool)

  datatype Header = Header(name: string, value: string)

  datatype Request = Request(service: HttpService, version: string, headers: seq<Header>, body: seq<bv8>)

  datatype Settings = Settings(passThroughOnly: bool, profileName: string)

  /** The first header of that name is updated; a new one goes last. */
  function WithHeader(headers: seq<Header>, name: string, value: string): seq<Header> {
    if headers == [] then [Header(name, value)]
    else if EqIgnoreCase(headers[0].name, name) then [Header(headers[0].name, value)] + headers[1..]
    else [headers[0]] + WithHeader(headers[1..], name, value)
  }

  function WithoutHeader(headers: seq<Header>, name: string): seq<Header> {
    if headers == [] then []
    else (if EqIgnoreCase(headers[0].name, name) then [] else [headers[0]]) + WithoutHeader(headers[1..], name)
  }

  function BuildTargetUrl(url: string): string {
    if "http://" <= url || "https://" <= url || "ws://" <= url || "wss://" <= url then url else "https://" + url
  }

  predicate IsHttp2(r: Request) {
    EqIgnoreCase(r.version, "HTTP/2")
  }

  function Redirected(settings: Settings, proxy: Endpoint, r: Request, url: string): Request {
    var service := HttpService(proxy.host, proxy.port, false);
    var marked :=
      if IsHttp2(r) then Request(service, "HTTP/2", WithHeader(r.headers, "X-Tlsplus-Http-Version", "HTTP/2"), r.body)
      else r.(service := service, headers := WithoutHeader(r.headers, "X-Tlsplus-Http-Version"));
    marked.(headers := WithHeader(WithHeader(WithHeader(marked.headers,
      "X-Tlsplus-Target", BuildTargetUrl(url)), "X-Tlsplus-Profile", settings.profileName), "X-Tlsplus-Timeout", "30"))
  }

  predicate IsOwnEndpoint(r: Request, proxy: Endpoint) {
    SameHost(r.service.host, proxy.host) && r.service.port == proxy.port
  }

  /** `endpoint` is the live address of the proxy, and `urlOf` the URL the tool shows for a request. */
  function Handle(settings: Settings, endpoint: Option<string>, urlOf: Request -> string, r: Request): Request {
    if settings.passThroughOnly || endpoint.None? then r
    else match ParseProxyAddr(endpoint.value)
      case None => r
      case Some(proxy) => if IsOwnEndpoint(r, proxy) then r else Redirected(settings, proxy, r, urlOf(r))
  }

  /** A target has one of the four schemes: its own, or https. */
  lemma TargetExactly(rest: string)
    ensures BuildTargetUrl("http://" + rest) == "http://" + rest &&
      BuildTargetUrl("https://" + rest) == "https://" + rest
    ensures BuildTargetUrl("ws://" + rest) == "ws://" + rest && BuildTargetUrl("wss://" + rest) == "wss://" + rest
    ensures !("http://" <= rest || "https://" <= rest || "ws://" <= rest || "wss://" <= rest) ==>
      BuildTargetUrl(rest) == "https://" + rest
  {
  }

  /**
   Redirecting replaces the service and adds metadata; the body and the version stay, up to the spelling of HTTP/2.
   */
  lemma RedirectedExactly(settings: Settings, proxy: Endpoint, r: Request, url: string)
    ensures var d := Redirected(settings, proxy, r, url);
      && d.service == HttpService(proxy.host, proxy.port, false) && d.body == r.body
      && d.version == if EqIgnoreCase(r.version, "HTTP/2") then "HTTP/2" else r.version
  {
  }

  /** Requests are left alone when redirecting is off, when no proxy runs, and when its address cannot be read. */
  lemma LeftAlone(settings: Settings, endpoint: Option<string>, urlOf: Request -> string, r: Request)
    ensures settings.passThroughOnly || endpoint == None || ParseProxyAddr(endpoint.value) == None ==>
      Handle(settings, endpoint, urlOf, r) == r
  {
  }

  /** A redirected request is left alone, so handling twice is handling once. */
  lemma RedirectIsAFixedPoint(settings: Settings, endpoint: Option<string>, urlOf: Request -> string, r: Request)
    ensures Handle(settings, endpoint, urlOf, Handle(settings, endpoint, urlOf, r)) ==
      Handle(settings, endpoint, urlOf, r)
  {
  }

  /**
   While the server runs on `a`, a request is redirected to it exactly when it is not addressed to it already, by the
   host the server reports or one that means the same, at its port. Nothing else is exempt.
   */
  lemma RedirectsAllButItsOwn(settings: Settings, a: SocketAddr, urlOf: Request -> string, r: Request)
    requires IsSocketAddr(a) && !settings.passThroughOnly
    ensures var handled := Handle(settings, Some(Display(a)), urlOf, r);
      if SameHost(r.service.host, HostText(a.host)) && r.service.port == a.port then handled == r
      else handled == Redirected(settings, Endpoint(HostText(a.host), a.port), r, urlOf(r)) &&
           handled.service == HttpService(HostText(a.host), a.port, false)
  {
    ServerAddressIsRead(a);
  }

  /** Against the documentation, a request to 127.0.0.1 on another port is redirected like any other. */
  lemma LoopbackIsRedirected(settings: Settings, urlOf: Request -> string, r: Request)
    requires !settings.passThroughOnly && r.service == HttpService("127.0.0.1", 8080, false)
    ensures Handle(settings, Some(Display(SocketAddr(V4(0, 0, 1), 43117))), urlOf, r).service.port == 43117
  {
    RedirectsAllButItsOwn(settings, SocketAddr(V4(0, 0, 1), 43117), urlOf, r);
  }

  lemma {:induction false} ReplaceKeepsStart(s: string, from: string, to: string, n: nat)
    requires from != [] && n <= |s| && forall i :: 0 <= i < n ==> s[i] != from[0]
    ensures |Replace(s, from, to)| >= n && Replace(s, from, to)[..n] == s[..n]
  {
    if n > 0 {
      assert !(from <= s) by { assert s[0] != from[0]; }
      ReplaceKeepsStart(s[1..], from, to, n - 1);
      assert Replace(s, from, to)[..n] == [s[0]] + Replace(s[1..], from, to)[..n - 1];
    }
  }

  lemma ShortHostKeepsStart(text: string, start: string)
    requires NormalizeHost(text) == text && start <= text && forall i :: 0 <= i < |start| ==> start[i] != '0'
    ensures start <= ShortHost(text)
  {
    StartKept(text, start, "0:0:0:0:0:0:0:1", "::1");
  }

  lemma StartKept(text: string, start: string, from: string, to: string)
    requires from != [] && start <= text && forall i :: 0 <= i < |start| ==> start[i] != from[0]
    ensures start <= Replace(text, from, to)
  {
    assert forall i :: 0 <= i < |start| ==> text[i] == start[i];
    ReplaceKeepsStart(text, from, to, |start|);
    assert text[..|start|] == start;
  }

  /** With `localhost` on one side, only the other side matters. */
  lemma LocalhostSide(proxyHost: string)
    ensures SameHost("localhost", proxyHost) <==>
      ShortHost(proxyHost) == "localhost" || IsLoopbackLiteral(ShortHost(proxyHost))
  {
    ShortLocalhost();
  }

  lemma V4IsLoopback(text: string)
    requires "127." <= text
    ensures IsLoopbackLiteral(text)
  {
  }

  lemma ScopedIsNotLoopback(text: string)
    requires "::1%" <= text
    ensures text != "localhost" && !IsLoopbackLiteral(text)
  {
    assert text[0] == ':' && |text| >= 4;
  }

  lemma V4TextIsLocal(text: string)
    requires Unbracketed(text) && Lower(text) == text && "127." <= text
    ensures IsLoopbackLiteral(ShortHost(text))
  {
    NormalizeUnbracketed(text);
    ShortHostKeepsStart(text, "127.");
    V4IsLoopback(ShortHost(text));
  }

  lemma V4HostIsLocal(h: Host)
    requires h.V4?
    ensures IsLoopbackLiteral(ShortHost(HostText(h)))
  {
    HostTextIsPlain(h);
    assert HostText(h) == "127." + (Dec(h.b) + "." + Dec(h.c) + "." + Dec(h.d));
    V4TextIsLocal(HostText(h));
  }

  lemma ScopedHostIsNotLocal(h: Host)
    requires h.V6? && h.scope.Some?
    ensures ShortHost(HostText(h)) != "localhost" && !IsLoopbackLiteral(ShortHost(HostText(h)))
  {
    HostTextIsPlain(h);
    NormalizeUnbracketed(HostText(h));
    ShortHostKeepsStart(HostText(h), "::1%");
    ScopedIsNotLoopback(ShortHost(HostText(h)));
  }

  /** localhost is taken for the server's host exactly when that has no IPv6 scope. */
  lemma LocalhostMeansTheProxy(h: Host)
    ensures SameHost("localhost", HostText(h)) <==> (h.V6? ==> h.scope.None?)
  {
    LocalhostSide(HostText(h));
    match h
    case V4(_, _, _) => V4HostIsLocal(h);
    case V6(None) => ShortLoopback6();
    case V6(Some(_)) => ScopedHostIsNotLocal(h);
  }
}
