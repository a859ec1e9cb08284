/** Comma lists in header values, and the header filters of plain forwarding and of WebSocket handshakes. */
module WebSocketHeaders {
  import opened Wrappers
  import opened Text
  import opened HeaderMap

  datatype Transport = Http1 | Http2

  const CONNECTION := "connection"
  const UPGRADE := "upgrade"
  const UPGRADE_VALUE := Utf8("Upgrade")
  const WEBSOCKET_VALUE := Utf8("websocket")

  // ----- Tokens -----

  /** Trim every piece, leave out the empty ones, and lower the rest. */
  function Clean(pieces: seq<string>): seq<string> {
    if pieces == [] then []
    else (if Trim(pieces[0]) == [] then [] else [Lower(Trim(pieces[0]))]) + Clean(pieces[1..])
  }

  function Tokens(line: string): seq<string> {
    Clean(Split(line, ','))
  }

  /** The values that read as text. */
  function Texts(values: seq<Value>): seq<string> {
    if values == [] then []
    else (match ToStr(values[0]) case Some(text) => [text] case None => []) + Texts(values[1..])
  }

  function LinesTokens(lines: seq<string>): seq<string> {
    if lines == [] then [] else Tokens(lines[0]) + LinesTokens(lines[1..])
  }

  function ConnectionTokens(m: Entries): seq<string> {
    LinesTokens(Texts(GetAll(m, CONNECTION)))
  }

  predicate LineContains(line: string, expected: string) {
    exists i :: 0 <= i < |Split(line, ',')| && EqIgnoreCase(Trim(Split(line, ',')[i]), expected)
  }

  predicate ContainsToken(m: Entries, name: string, expected: string) {
    var lines := Texts(GetAll(m, name));
    exists k :: 0 <= k < |lines| && LineContains(lines[k], expected)
  }

  predicate IsWebSocketUpgrade(m: Entries) {
    ContainsToken(m, CONNECTION, "upgrade") && ContainsToken(m, UPGRADE, "websocket")
  }

  lemma {:induction false} CleanConcat(a: seq<string>, b: seq<string>)
    ensures Clean(a + b) == Clean(a) + Clean(b)
  {
    if a == [] {
      assert a + b == b;
    } else {
      assert (a + b)[1..] == a[1..] + b;
      CleanConcat(a[1..], b);
    }
  }

  /** A space after a comma does not matter. */
  lemma SpaceIsCleaned(line: string)
    ensures Tokens(" " + line) == Tokens(line)
  {
    var pieces := Split(line, ',');
    assert (" " + line)[1..] == line;
    assert Split(" " + line, ',') == [[' '] + pieces[0]] + pieces[1..];
    TrimStartDropsPrefix(" ", pieces[0]);
    assert [' '] + pieces[0] == " " + pieces[0];
    assert ([[' '] + pieces[0]] + pieces[1..])[1..] == pieces[1..];
    assert [pieces[0]] + pieces[1..] == pieces;
  }

  /** Several field lines mean what one line with their values joined by ", " means. */
  lemma {:induction false} LinesMeanTheirJoin(lines: seq<string>)
    ensures LinesTokens(lines) == Tokens(Join(lines, ", "))
  {
    if lines == [] {
      assert Clean([[]]) == [];
    } else if |lines| == 1 {
      assert LinesTokens(lines[1..]) == [];
    } else {
      var rest := Join(lines[1..], ", ");
      assert Join(lines, ", ") == lines[0] + [','] + (" " + rest);
      SplitConcat(lines[0], ',', " " + rest);
      CleanConcat(Split(lines[0], ','), Split(" " + rest, ','));
      SpaceIsCleaned(rest);
      LinesMeanTheirJoin(lines[1..]);
    }
  }

  lemma ConnectionTokensAreOfTheJoin(m: Entries)
    ensures ConnectionTokens(m) == Tokens(Join(Texts(GetAll(m, CONNECTION)), ", "))
  {
    LinesMeanTheirJoin(Texts(GetAll(m, CONNECTION)));
  }

  lemma {:induction false} CleanHas(pieces: seq<string>, t: string)
    ensures Lower(t) in Clean(pieces) <==> t != [] && exists i :: 0 <= i < |pieces| && EqIgnoreCase(Trim(pieces[i]), t)
  {
    if pieces != [] {
      CleanHas(pieces[1..], t);
      EqIgnoreCaseIsLowerEq(Trim(pieces[0]), t);
      assert Clean(pieces) == (if Trim(pieces[0]) == [] then [] else [Lower(Trim(pieces[0]))]) + Clean(pieces[1..]);
      if i :| 0 <= i < |pieces[1..]| && EqIgnoreCase(Trim(pieces[1..][i]), t) {
        assert pieces[i + 1] == pieces[1..][i];
      }
      if i :| 0 < i < |pieces| && EqIgnoreCase(Trim(pieces[i]), t) {
        assert pieces[1..][i - 1] == pieces[i];
      }
    }
  }

  lemma {:induction false} LinesHave(lines: seq<string>, t: string)
    ensures Lower(t) in LinesTokens(lines) <==> t != [] && exists k :: 0 <= k < |lines| && LineContains(lines[k], t)
  {
    if lines != [] {
      LinesHave(lines[1..], t);
      CleanHas(Split(lines[0], ','), t);
      if k :| 0 <= k < |lines[1..]| && LineContains(lines[1..][k], t) {
        assert lines[k + 1] == lines[1..][k];
      }
      if k :| 0 < k < |lines| && LineContains(lines[k], t) {
        assert lines[1..][k - 1] == lines[k];
      }
    }
  }

  /** The two readings of a comma list agree on every token but the empty one, which is never nominated. */
  lemma TokenReadingsAgree(m: Entries, t: string)
    ensures Lower(t) in ConnectionTokens(m) <==> t != [] && ContainsToken(m, CONNECTION, t)
  {
    LinesHave(Texts(GetAll(m, CONNECTION)), t);
  }

  lemma {:induction false} TextsConcat(a: seq<Value>, b: seq<Value>)
    ensures Texts(a + b) == Texts(a) + Texts(b)
  {
    if a == [] {
      assert a + b == b;
    } else {
      assert (a + b)[1..] == a[1..] + b;
      TextsConcat(a[1..], b);
    }
  }

  /** Every value that reads as text is among the lines, and no other. */
  lemma {:induction false} TextsAreValues(values: seq<Value>, text: string)
    ensures text in Texts(values) <==> exists k :: 0 <= k < |values| && ToStr(values[k]) == Some(text)
  {
    if values != [] {
      TextsAreValues(values[1..], text);
      assert forall k :: 0 <= k < |values[1..]| ==> values[1..][k] == values[k + 1];
      if k :| 0 < k < |values| && ToStr(values[k]) == Some(text) {
        assert values[1..][k - 1] == values[k];
      }
    }
  }

  /** A field line, of any number of them, that has the token: between commas, blanks aside, in any case. */
  ghost predicate ValueHas(v: Value, t: string) {
    ToStr(v).Some? && exists piece :: IsPiece(ToStr(v).value, piece, ',') && EqIgnoreCase(Trim(piece), t)
  }

  ghost predicate SomeValueHas(values: seq<Value>, t: string) {
    exists k :: 0 <= k < |values| && ValueHas(values[k], t)
  }

  lemma LineHasPieces(line: string, t: string)
    ensures LineContains(line, t) <==> exists piece :: IsPiece(line, piece, ',') && EqIgnoreCase(Trim(piece), t)
  {
    if i :| 0 <= i < |Split(line, ',')| && EqIgnoreCase(Trim(Split(line, ',')[i]), t) {
      SplitIsPieces(line, Split(line, ',')[i], ',');
    }
    if piece :| IsPiece(line, piece, ',') && EqIgnoreCase(Trim(piece), t) {
      SplitIsPieces(line, piece, ',');
    }
  }

  lemma ValueHasLine(v: Value, t: string)
    ensures ValueHas(v, t) <==> ToStr(v).Some? && LineContains(ToStr(v).value, t)
  {
    if ToStr(v).Some? {
      LineHasPieces(ToStr(v).value, t);
    }
  }

  lemma LineOfValue(values: seq<Value>, i: nat, t: string)
    requires i < |values| && ValueHas(values[i], t)
    ensures exists k :: 0 <= k < |Texts(values)| && LineContains(Texts(values)[k], t)
  {
    ValueHasLine(values[i], t);
    TextsAreValues(values, ToStr(values[i]).value);
    var k :| 0 <= k < |Texts(values)| && Texts(values)[k] == ToStr(values[i]).value;
    assert LineContains(Texts(values)[k], t);
  }

  lemma ValueOfLine(values: seq<Value>, k: nat, t: string)
    requires k < |Texts(values)| && LineContains(Texts(values)[k], t)
    ensures SomeValueHas(values, t)
  {
    TextsAreValues(values, Texts(values)[k]);
    var i :| 0 <= i < |values| && ToStr(values[i]) == Some(Texts(values)[k]);
    ValueHasLine(values[i], t);
    assert ValueHas(values[i], t);
  }

  /** A token is found exactly if some value of the name, whichever, has it. */
  lemma ContainsTokenExactly(m: Entries, name: string, t: string)
    ensures ContainsToken(m, name, t) <==> SomeValueHas(GetAll(m, name), t)
  {
    var values := GetAll(m, name);
    if ContainsToken(m, name, t) {
      var k :| 0 <= k < |Texts(values)| && LineContains(Texts(values)[k], t);
      ValueOfLine(values, k, t);
    } else if SomeValueHas(values, t) {
      var i :| 0 <= i < |values| && ValueHas(values[i], t);
      LineOfValue(values, i, t);
      assert false;
    }
  }

  lemma {:induction false} CleanIsLower(pieces: seq<string>)
    ensures forall t :: t in Clean(pieces) ==> Lower(t) == t
  {
    if pieces != [] {
      CleanIsLower(pieces[1..]);
      LowerIdempotent(Trim(pieces[0]));
    }
  }

  lemma {:induction false} LinesAreLower(lines: seq<string>)
    ensures forall t :: t in LinesTokens(lines) ==> Lower(t) == t
  {
    if lines != [] {
      CleanIsLower(Split(lines[0], ','));
      LinesAreLower(lines[1..]);
    }
  }

  /** A name is nominated exactly if it is in lower case, not empty, and some Connection value, whichever, has it. */
  lemma NominatedExactly(m: Entries, t: string)
    ensures t in ConnectionTokens(m) <==> t != [] && Lower(t) == t && SomeValueHas(GetAll(m, CONNECTION), t)
  {
    LinesAreLower(Texts(GetAll(m, CONNECTION)));
    TokenReadingsAgree(m, t);
    ContainsTokenExactly(m, CONNECTION, t);
  }

  // ----- Filters -----

  const INTERNAL_PREFIX := "x-tlsplus-"

  predicate IsHopByHop(name: string) {
    name == "connection" || name == "proxy-connection" || name == "keep-alive" || name == "proxy-authorization" ||
    name == "proxy-authenticate" || name == "te" || name == "trailer" || name == "transfer-encoding" ||
      name == "upgrade"
  }

  /** What plain forwarding keeps. */
  predicate PlainKeeps(name: string) {
    !(INTERNAL_PREFIX <= name) && name != "host" && !IsHopByHop(name)
  }

  predicate RequestKeeps(name: string, nominated: seq<string>) {
    && !(INTERNAL_PREFIX <= name)
    && name != "host" && name != CONNECTION && name != UPGRADE
    && name != "proxy-connection" && name != "proxy-authorization" && name != "proxy-authenticate"
    && name != "keep-alive" && name != "te" && name != "trailer" && name != "transfer-encoding"
    && name !in nominated
  }

  predicate ResponseKeeps(name: string, nominated: seq<string>) {
    && name != CONNECTION && name != UPGRADE && name != "content-length" && name != "transfer-encoding"
    && name != "proxy-connection" && name != "proxy-authorization" && name != "proxy-authenticate"
    && name !in nominated
  }

  function PlainHeaders(m: Entries): Entries {
    Keep(m, PlainKeeps)
  }

  /** On HTTP/1 the two handshake fields are put back. */
  function WithHandshake(m: Entries, transport: Transport): Entries {
    if transport.Http1? then Insert(Insert(m, CONNECTION, UPGRADE_VALUE), UPGRADE, WEBSOCKET_VALUE) else m
  }

  function RequestHeaders(m: Entries, transport: Transport): Entries {
    var nominated := ConnectionTokens(m);
    WithHandshake(Keep(m, name => RequestKeeps(name, nominated)), transport)
  }

  function ResponseHeaders(m: Entries, transport: Transport): Entries {
    var nominated := ConnectionTokens(m);
    WithHandshake(Keep(m, name => ResponseKeeps(name, nominated)), transport)
  }

  const HANDSHAKE: Entries := [Entry(CONNECTION, [UPGRADE_VALUE]), Entry(UPGRADE, [WEBSOCKET_VALUE])]

  lemma HandshakeGoesLast(m: Entries, transport: Transport)
    requires !Has(m, CONNECTION) && !Has(m, UPGRADE)
    ensures WithHandshake(m, transport) == m + if transport.Http1? then HANDSHAKE else []
  {
    InsertNew(m, CONNECTION, UPGRADE_VALUE);
    HasConcat(m, [Entry(CONNECTION, [UPGRADE_VALUE])], UPGRADE);
    HasOne(Entry(CONNECTION, [UPGRADE_VALUE]), UPGRADE);
    InsertNew(m + [Entry(CONNECTION, [UPGRADE_VALUE])], UPGRADE, WEBSOCKET_VALUE);
    assert m + [Entry(CONNECTION, [UPGRADE_VALUE])] + [Entry(UPGRADE, [WEBSOCKET_VALUE])] == m + HANDSHAKE;
  }

  /**
   The handshake filter is plain forwarding, then the removal of every nominated field, then on HTTP/1 exactly one
   Connection and one Upgrade field at the end. All other fields keep their order and multiplicity.
   */
  lemma RequestFilterDecomposes(m: Entries, transport: Transport)
    ensures var kept := Keep(PlainHeaders(m), name => name !in ConnectionTokens(m));
      && RequestHeaders(m, transport) == kept + (if transport.Http1? then HANDSHAKE else [])
      && Fields(kept) == KeepFields(Fields(m), name => PlainKeeps(name) && name !in ConnectionTokens(m))
      && Fields(RequestHeaders(m, transport)) == Fields(kept) + (if transport.Http1? then Fields(HANDSHAKE) else [])
  {
    var nominated := ConnectionTokens(m);
    var direct := name => RequestKeeps(name, nominated);
    var both := name => PlainKeeps(name) && name !in ConnectionTokens(m);
    var second := name => name !in ConnectionTokens(m);
    KeepTwice(m, PlainKeeps, second, direct);
    KeepTwice(m, PlainKeeps, second, both);
    KeepIsKeepFields(m, both);
    KeepHas(m, direct, CONNECTION);
    KeepHas(m, direct, UPGRADE);
    HandshakeGoesLast(Keep(m, direct), transport);
    FieldsConcat(Keep(m, direct), if transport.Http1? then HANDSHAKE else []);
  }

  /** A line that is a single trimmed token. */
  predicate IsToken(line: string) {
    line != [] && Trimmed(line) && ',' !in line && forall c :: c in line ==> IsVisible(c)
  }

  lemma OneToken(line: string)
    requires IsToken(line)
    ensures Tokens(line) == [Lower(line)]
    ensures LineContains(line, Lower(line))
  {
    SplitFree(line, ',');
    TrimIsTrimmed(line);
    assert Clean([line][1..]) == [];
    LowerIdempotent(line);
    EqIgnoreCaseIsLowerEq(line, Lower(line));
    assert Split(line, ',')[0] == line;
  }

  /** A field whose only value is such a line. */
  lemma OneValue(m: Entries, name: string, line: string)
    requires GetAll(m, name) == [Utf8(line)] && IsToken(line)
    ensures LinesTokens(Texts(GetAll(m, name))) == [Lower(line)] && ContainsToken(m, name, Lower(line))
  {
    OneToken(line);
    assert Texts([Utf8(line)][1..]) == [];
    assert Texts(GetAll(m, name)) == [line];
    assert LinesTokens([line][1..]) == [];
    assert [line][0] == line;
  }

  lemma LowerOfUpgrade()
    ensures Lower("Upgrade") == "upgrade" && Lower("websocket") == "websocket"
    ensures IsToken("Upgrade") && IsToken("websocket")
  {
  }

  lemma HandshakeValues()
    ensures GetAll(HANDSHAKE, CONNECTION) == [UPGRADE_VALUE] && GetAll(HANDSHAKE, UPGRADE) == [WEBSOCKET_VALUE]
  {
    assert |CONNECTION| != |UPGRADE|;
    assert HANDSHAKE[1..][0] == Entry(UPGRADE, [WEBSOCKET_VALUE]);
  }

  lemma HandshakeReads(m: Entries)
    requires GetAll(m, CONNECTION) == [UPGRADE_VALUE] && GetAll(m, UPGRADE) == [WEBSOCKET_VALUE]
    ensures ConnectionTokens(m) == ["upgrade"] && IsWebSocketUpgrade(m)
  {
    var upgrade, websocket := "Upgrade", "websocket";
    LowerOfUpgrade();
    OneValue(m, CONNECTION, upgrade);
    OneValue(m, UPGRADE, websocket);
  }

  /** What the two handshake fields at the end of a map without them say. */
  lemma HandshakeFields(kept: Entries)
    requires !Has(kept, CONNECTION) && !Has(kept, UPGRADE)
    ensures GetAll(kept + HANDSHAKE, CONNECTION) == [UPGRADE_VALUE] &&
      GetAll(kept + HANDSHAKE, UPGRADE) == [WEBSOCKET_VALUE]
    ensures ConnectionTokens(kept + HANDSHAKE) == ["upgrade"]
    ensures IsWebSocketUpgrade(kept + HANDSHAKE)
  {
    GetAllConcat(kept, HANDSHAKE, CONNECTION);
    GetAllConcat(kept, HANDSHAKE, UPGRADE);
    HandshakeValues();
    HandshakeReads(kept + HANDSHAKE);
  }

  lemma HandshakeIsFiltered(keep: string -> bool)
    requires !keep(CONNECTION) && !keep(UPGRADE)
    ensures Keep(HANDSHAKE, keep) == []
  {
    var rest := HANDSHAKE[1..];
    assert rest == [Entry(UPGRADE, [WEBSOCKET_VALUE])];
    assert Keep(rest[1..], keep) == [];
    assert Keep(rest, keep) == [];
  }

  /** What the filter nominates when it reads its own output: nothing but the Upgrade field it put there. */
  lemma SecondNomination(kept: Entries, transport: Transport)
    requires !Has(kept, CONNECTION) && !Has(kept, UPGRADE)
    ensures ConnectionTokens(WithHandshake(kept, transport)) == if transport.Http1? then ["upgrade"] else []
  {
    HandshakeGoesLast(kept, transport);
    if transport.Http1? {
      HandshakeFields(kept);
    } else {
      GetAllAbsent(kept, CONNECTION);
    }
  }

  lemma KeptTwice(kept: Entries, transport: Transport, keep: string -> bool)
    requires !Has(kept, CONNECTION) && !Has(kept, UPGRADE)
    requires !keep(CONNECTION) && !keep(UPGRADE) && forall i :: 0 <= i < |kept| ==> keep(kept[i].name)
    ensures Keep(WithHandshake(kept, transport), keep) == kept
  {
    HandshakeGoesLast(kept, transport);
    KeepAll(kept, keep);
    KeepConcat(kept, HANDSHAKE, keep);
    HandshakeIsFiltered(keep);
    assert kept + [] == kept;
  }

  /** Filtering a filtered request changes nothing. */
  lemma RequestFilterIsIdempotent(m: Entries, transport: Transport)
    ensures RequestHeaders(RequestHeaders(m, transport), transport) == RequestHeaders(m, transport)
  {
    var nominated := ConnectionTokens(m);
    var keeps := name => RequestKeeps(name, nominated);
    var kept := Keep(m, keeps);
    KeepOnly(m, keeps);
    KeepHas(m, keeps, CONNECTION);
    KeepHas(m, keeps, UPGRADE);
    SecondNomination(kept, transport);
    var again := ConnectionTokens(WithHandshake(kept, transport));
    forall i | 0 <= i < |kept| ensures RequestKeeps(kept[i].name, again) {
      assert keeps(kept[i].name);
    }
    KeptTwice(kept, transport, name => RequestKeeps(name, again));
  }

  /** Connection-specific fields, which section 8.2.2 of RFC 9113 keeps out of HTTP/2 messages. */
  predicate IsConnectionSpecific(name: string) {
    name == "connection" || name == "proxy-connection" || name == "keep-alive" || name == "transfer-encoding" ||
      name == "upgrade"
  }

  /**
   An HTTP/1 handshake request reads as a WebSocket upgrade; an HTTP/2 one has no connection-specific field at all.
   */
  lemma RequestFitsItsTransport(m: Entries)
    ensures IsWebSocketUpgrade(RequestHeaders(m, Http1))
    ensures GetAll(RequestHeaders(m, Http1), "connection") == [Utf8("Upgrade")]
    ensures GetAll(RequestHeaders(m, Http1), "upgrade") == [Utf8("websocket")]
    ensures forall name :: IsConnectionSpecific(name) ==> !Has(RequestHeaders(m, Http2), name)
    ensures !IsWebSocketUpgrade(RequestHeaders(m, Http2))
  {
    var nominated := ConnectionTokens(m);
    var keeps := name => RequestKeeps(name, nominated);
    KeepHas(m, keeps, CONNECTION);
    KeepHas(m, keeps, UPGRADE);
    HandshakeGoesLast(Keep(m, keeps), Http1);
    HandshakeFields(Keep(m, keeps));
    forall name | IsConnectionSpecific(name) ensures !Has(RequestHeaders(m, Http2), name) {
      KeepHas(m, keeps, name);
    }
    GetAllAbsent(RequestHeaders(m, Http2), CONNECTION);
  }

  /** The two handshake names are not among the names kept from the upstream for other reasons. */
  lemma HandshakeNamesAreHarmless()
    ensures CONNECTION != UPGRADE && CONNECTION != "host" && UPGRADE != "host"
    ensures !(INTERNAL_PREFIX <= CONNECTION) && !(INTERNAL_PREFIX <= UPGRADE)
  {
    assert INTERNAL_PREFIX[0] == 'x' && CONNECTION[0] == 'c' && UPGRADE[0] == 'u' && "host"[0] == 'h';
  }

  lemma HasAfterHandshake(kept: Entries, transport: Transport, name: string)
    requires !Has(kept, CONNECTION) && !Has(kept, UPGRADE) && Has(WithHandshake(kept, transport), name)
    ensures name == CONNECTION || name == UPGRADE || Has(kept, name)
  {
    HandshakeGoesLast(kept, transport);
    if transport.Http1? {
      HasConcat(kept, HANDSHAKE, name);
    } else {
      assert kept + [] == kept;
    }
  }

  /**
   The internal fields, the host and everything hop-by-hop or nominated never reach the upstream, whatever the
   transport.
   */
  lemma RequestLeaksNothing(m: Entries, transport: Transport, name: string)
    requires Has(RequestHeaders(m, transport), name)
    ensures !("x-tlsplus-" <= name) && name != "host"
    ensures name != "proxy-connection" && name != "proxy-authorization" && name != "proxy-authenticate"
    ensures name != "keep-alive" && name != "te" && name != "trailer" && name != "transfer-encoding"
    ensures name == "connection" || name == "upgrade" || (PlainKeeps(name) && name !in ConnectionTokens(m))
  {
    var nominated := ConnectionTokens(m);
    var keeps := name => RequestKeeps(name, nominated);
    KeepHas(m, keeps, CONNECTION);
    KeepHas(m, keeps, UPGRADE);
    HasAfterHandshake(Keep(m, keeps), transport, name);
    if name == CONNECTION || name == UPGRADE {
      HandshakeNamesAreHarmless();
    } else {
      KeepHas(m, keeps, name);
    }
  }

  /**
   A tunnel response on HTTP/1 completes the handshake. On HTTP/2 it is free of connection-specific fields exactly when
   the upstream sent no Keep-Alive field or nominated it, because the response filter has no rule for that field.
   */
  lemma ResponseFitsItsTransport(m: Entries)
    ensures IsWebSocketUpgrade(ResponseHeaders(m, Http1))
    ensures (forall name :: IsConnectionSpecific(name) ==> !Has(ResponseHeaders(m, Http2), name)) <==>
      (!Has(m, "keep-alive") || "keep-alive" in ConnectionTokens(m))
  {
    var nominated := ConnectionTokens(m);
    var keeps := name => ResponseKeeps(name, nominated);
    KeepHas(m, keeps, CONNECTION);
    KeepHas(m, keeps, UPGRADE);
    HandshakeGoesLast(Keep(m, keeps), Http1);
    HandshakeFields(Keep(m, keeps));
    KeepHas(m, keeps, "keep-alive");
    assert IsConnectionSpecific("keep-alive");
    forall name | IsConnectionSpecific(name) && name != "keep-alive" ensures !Has(ResponseHeaders(m, Http2), name) {
      KeepHas(m, keeps, name);
    }
  }

  /** The filter alone does not take a Keep-Alive field out of a response. */
  lemma KeepAliveIsKept()
    ensures Has(ResponseHeaders([Entry("keep-alive", [Utf8("timeout=5")])], Http2), "keep-alive")
  {
    var m := [Entry("keep-alive", [Utf8("timeout=5")])];
    var nominated := ConnectionTokens(m);
    HasOne(m[0], "keep-alive");
    HasOne(m[0], CONNECTION);
    assert |"keep-alive"| != |CONNECTION| == 10 || "keep-alive"[0] != CONNECTION[0];
    GetAllAbsent(m, CONNECTION);
    KeepHas(m, name => ResponseKeeps(name, nominated), "keep-alive");
  }

  /** A field that frames a body or speaks to a proxy, which a tunnel response must not carry. */
  predicate FramesOrSpeaksToProxy(name: string) {
    name in {"content-length", "transfer-encoding", "proxy-connection", "proxy-authorization", "proxy-authenticate"}
  }

  /**
   A tunnel response is the upstream's without body framing, proxy and nominated fields, in order and multiplicity, and
   on HTTP/1 with exactly one Connection and one Upgrade field at the end.
   */
  lemma ResponseFilterDecomposes(m: Entries, transport: Transport)
    ensures var both := name => name !in {CONNECTION, UPGRADE} && !FramesOrSpeaksToProxy(name) &&
      name !in ConnectionTokens(m);
      && ResponseHeaders(m, transport) == Keep(m, both) + (if transport.Http1? then HANDSHAKE else [])
      && Fields(ResponseHeaders(m, transport)) ==
           KeepFields(Fields(m), both) + (if transport.Http1? then Fields(HANDSHAKE) else [])
  {
    var nominated := ConnectionTokens(m);
    var direct := name => ResponseKeeps(name, nominated);
    var both := name => name !in {CONNECTION, UPGRADE} && !FramesOrSpeaksToProxy(name) && name !in ConnectionTokens(m);
    KeepAlike(m, direct, both);
    KeepIsKeepFields(m, both);
    KeepHas(m, direct, CONNECTION);
    KeepHas(m, direct, UPGRADE);
    HandshakeGoesLast(Keep(m, direct), transport);
    FieldsConcat(Keep(m, direct), if transport.Http1? then HANDSHAKE else []);
  }

  lemma {:induction false} KeepAlike(m: Entries, first: string -> bool, second: string -> bool)
    requires forall name :: first(name) <==> second(name)
    ensures Keep(m, first) == Keep(m, second)
  {
    if m != [] {
      KeepAlike(m[1..], first, second);
    }
  }

  /** Filtering a filtered response changes nothing. */
  lemma ResponseFilterIsIdempotent(m: Entries, transport: Transport)
    ensures ResponseHeaders(ResponseHeaders(m, transport), transport) == ResponseHeaders(m, transport)
  {
    var nominated := ConnectionTokens(m);
    var keeps := name => ResponseKeeps(name, nominated);
    var kept := Keep(m, keeps);
    KeepOnly(m, keeps);
    KeepHas(m, keeps, CONNECTION);
    KeepHas(m, keeps, UPGRADE);
    SecondNomination(kept, transport);
    var again := ConnectionTokens(WithHandshake(kept, transport));
    forall i | 0 <= i < |kept| ensures ResponseKeeps(kept[i].name, again) {
      assert keeps(kept[i].name);
    }
    KeptTwice(kept, transport, name => ResponseKeeps(name, again));
  }

  // ----- The filters as they run -----

  method FilterRequest(source: Headers, transport: Transport) returns (headers: Headers)
    requires Valid(source.entries)
    ensures fresh(headers) && headers.entries == RequestHeaders(source.entries, transport)
  {
    var nominated := ConnectionTokens(source.entries);
    headers := new Headers();
    headers.Fill(source, name => RequestKeeps(name, nominated));
    if transport == Http1 {
      headers.InsertField(CONNECTION, UPGRADE_VALUE);
      headers.InsertField(UPGRADE, WEBSOCKET_VALUE);
    }
  }

  method FilterResponse(source: Headers, transport: Transport) returns (headers: Headers)
    requires Valid(source.entries)
    ensures fresh(headers) && headers.entries == ResponseHeaders(source.entries, transport)
  {
    var nominated := ConnectionTokens(source.entries);
    headers := new Headers();
    headers.Fill(source, name => ResponseKeeps(name, nominated));
    if transport == Http1 {
      headers.InsertField(CONNECTION, UPGRADE_VALUE);
      headers.InsertField(UPGRADE, WEBSOCKET_VALUE);
    }
  }

  method FilterPlain(source: Headers) returns (headers: Headers)
    requires Valid(source.entries)
    ensures fresh(headers) && headers.entries == PlainHeaders(source.entries)
  {
    headers := new Headers();
    headers.Fill(source, PlainKeeps);
  }

  // ----- Targets -----

  datatype TargetError = MissingScheme | UnsupportedScheme(scheme: string)

  /** Around the first "://". */
  function SplitScheme(s: string): Option<(string, string)> {
    if |s| < 3 then None
    else if s[..3] == "://" then Some(([], s[3..]))
    else match SplitScheme(s[1..])
      case None => None
      case Some(p) => Some(([s[0]] + p.0, p.1))
  }

  /** The target text that is then parsed as a URI. */
  function NormalizeTarget(target: string): Result<string, TargetError> {
    match SplitScheme(target)
    case None => Err(MissingScheme)
    case Some(p) =>
      var scheme := Lower(p.0);
      if scheme == "http" || scheme == "ws" then Ok("http://" + p.1)
      else if scheme == "https" || scheme == "wss" then Ok("https://" + p.1)
      else Err(UnsupportedScheme(p.0))
  }

  lemma {:induction false} SplitSchemeAt(scheme: string, rest: string)
    requires ':' !in scheme
    ensures SplitScheme(scheme + "://" + rest) == Some((scheme, rest))
  {
    var s := scheme + "://" + rest;
    if scheme == [] {
      assert s[..3] == "://" && s[3..] == rest;
    } else {
      assert s[0] == scheme[0] && s[..3][0] != ':';
      assert s[1..] == scheme[1..] + "://" + rest;
      SplitSchemeAt(scheme[1..], rest);
      assert [scheme[0]] + scheme[1..] == scheme;
    }
  }

  lemma {:induction false} SplitSchemeJoins(s: string)
    ensures SplitScheme(s).Some? ==> SplitScheme(s).value.0 + "://" + SplitScheme(s).value.1 == s
  {
    if |s| >= 3 {
      if s[..3] == "://" {
        assert [] + s[..3] + s[3..] == s;
      } else {
        SplitSchemeJoins(s[1..]);
        if SplitScheme(s[1..]).Some? {
          var p := SplitScheme(s[1..]).value;
          assert [s[0]] + p.0 + "://" + p.1 == [s[0]] + (p.0 + "://" + p.1);
          assert [s[0]] + s[1..] == s;
        }
      }
    }
  }

  predicate IsScheme(scheme: string) {
    scheme == "http" || scheme == "https" || scheme == "ws" || scheme == "wss"
  }

  /**
   For every spelling of the four schemes the rest of the target is kept, and the result is secure exactly when the
   scheme is.
   */
  lemma NormalizeKeepsTheRest(scheme: string, rest: string)
    requires IsScheme(Lower(scheme))
    ensures NormalizeTarget(scheme + "://" + rest) ==
      Ok((if Lower(scheme) == "https" || Lower(scheme) == "wss" then "https" else "http") + "://" + rest)
  {
    forall c | c in scheme ensures c != ':' {
      var i :| 0 <= i < |scheme| && scheme[i] == c;
      assert Lower(scheme)[i] == LowerChar(c);
    }
    SplitSchemeAt(scheme, rest);
    assert "http" + "://" + rest == "http://" + rest;
    assert "https" + "://" + rest == "https://" + rest;
  }

  /** Only those targets are accepted, and a normalized target is left alone. */
  lemma NormalizeAccepts(target: string)
    ensures NormalizeTarget(target).Ok? <==>
      exists scheme, rest :: target == scheme + "://" + rest && IsScheme(Lower(scheme))
    ensures NormalizeTarget(target).Ok? ==> NormalizeTarget(NormalizeTarget(target).value) == NormalizeTarget(target)
  {
    SplitSchemeJoins(target);
    if scheme, rest :| target == scheme + "://" + rest && IsScheme(Lower(scheme)) {
      NormalizeKeepsTheRest(scheme, rest);
    }
    if NormalizeTarget(target).Ok? {
      var p := SplitScheme(target).value;
      assert target == p.0 + "://" + p.1 && IsScheme(Lower(p.0));
      NormalizeKeepsTheRest(p.0, p.1);
      assert Lower("http") == "http" && Lower("https") == "https";
      NormalizeKeepsTheRest("http", p.1);
      NormalizeKeepsTheRest("https", p.1);
    }
  }
}
