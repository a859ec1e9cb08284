/**
 The second half of a WebSocket handshake: from the upstream answer to the job on the bridge channel and the reply.
 */
module WebSocketProxy {
  import opened Wrappers
  import opened HeaderMap
  import opened WebSocketHeaders
  import opened Http
  import opened Service
  import Connection

  datatype Response = Response(status: nat, version: Version, headers: Entries)

  datatype UpstreamAnswer = SendFailed | SendTimedOut | Answered(response: Response)

  datatype UpgradeAnswer = UpgradeFailed | UpgradeTimedOut | Upgraded(stream: nat)

  /** The reply and what went into the bridge channel. */
  datatype Outcome = Outcome(response: Response, enqueued: Option<Connection.Job>)

  /** A response that completes the handshake on the given transport. */
  predicate IsSuccess(response: Response, transport: Transport) {
    match transport
    case Http1 => response.version == HTTP_11 && response.status == SWITCHING_PROTOCOLS
    case Http2 => response.version == HTTP_2 && 200 <= response.status < 300
  }

  function ErrorResponse(status: nat): Response {
    Response(status, HTTP_11, [])
  }

  function ConvertResponse(response: Response): Response {
    response.(headers := Keep(response.headers, name => name != "transfer-encoding"))
  }

  predicate Bridges(transport: Transport, answer: UpstreamAnswer, upgrade: UpgradeAnswer, channelOpen: bool) {
    && answer.Answered? && IsSuccess(answer.response, transport)
    && (transport.Http1? ==> IsWebSocketUpgrade(answer.response.headers))
    && upgrade.Upgraded? && channelOpen
  }

  /**
   The answers that complete a handshake: 101 on HTTP/1.1 (section 4 of RFC 6455), any 2xx on HTTP/2 (section 5 of
   RFC 8441). The bridge then needs the upgraded stream and the channel, and on HTTP/1 the two fields of the answer.
   */
  lemma BridgesExactly(transport: Transport, answer: UpstreamAnswer, upgrade: UpgradeAnswer, channelOpen: bool)
    ensures answer.Answered? ==> (IsSuccess(answer.response, Http1) <==>
      answer.response.version == HTTP_11 && answer.response.status == 101)
    ensures answer.Answered? ==> (IsSuccess(answer.response, Http2) <==>
      answer.response.version == HTTP_2 && 200 <= answer.response.status <= 299)
    ensures Bridges(transport, answer, upgrade, channelOpen) <==>
      && answer.Answered? && IsSuccess(answer.response, transport) && upgrade.Upgraded? && channelOpen
      && (transport.Http1? ==>
            && ContainsToken(answer.response.headers, "connection", "upgrade")
            && ContainsToken(answer.response.headers, "upgrade", "websocket"))
  {
  }

  /**
   A reply that is passed on keeps its status, version and fields, in order, but for transfer-encoding; an error has
   none.
   */
  lemma ReplyIsPassedOn(response: Response, status: nat)
    ensures var passed := ConvertResponse(response);
      && passed.status == response.status && passed.version == response.version
      && Fields(passed.headers) == KeepFields(Fields(response.headers), name => name != "transfer-encoding")
    ensures ErrorResponse(status).status == status && ErrorResponse(status).headers == []
  {
    KeepIsKeepFields(response.headers, name => name != "transfer-encoding");
  }

  /**
   `request` is the inbound request, `answer` what sending it upstream before the deadline led to, `upgrade` what
   upgrading the upstream response led to, and `channelOpen` whether the bridge channel took the job. The client sees a
   completed handshake exactly when one job, pairing this request with its own upstream stream, is on the channel; the
   reply is then a well-formed handshake response with the upstream's status and version.
   */
  method FinishHandshake(request: nat, transport: Transport, answer: UpstreamAnswer, upgrade: UpgradeAnswer,
        channelOpen: bool)
    returns (outcome: Outcome)
    ensures IsSuccess(outcome.response, transport) <==> outcome.enqueued.Some?
    ensures outcome.enqueued ==
      if Bridges(transport, answer, upgrade, channelOpen) then Some(Connection.Job(request, upgrade.stream)) else None
    ensures outcome.enqueued.Some? ==>
      && outcome.response.status == answer.response.status && outcome.response.version == answer.response.version
      && outcome.response.headers == ResponseHeaders(answer.response.headers, transport)
      && (transport.Http1? ==> IsWebSocketUpgrade(outcome.response.headers))
    ensures answer.SendFailed? ==> outcome.response == ErrorResponse(502)
    ensures answer.SendTimedOut? ==> outcome.response == ErrorResponse(504)
    ensures answer.Answered? && !IsSuccess(answer.response, transport) ==>
      outcome.response == ConvertResponse(answer.response)
    ensures answer.Answered? && IsSuccess(answer.response, transport) && outcome.enqueued.None? ==>
      outcome.response == ErrorResponse(
        if transport.Http1? && !IsWebSocketUpgrade(answer.response.headers) then 502
        else if upgrade.UpgradeFailed? then 502
        else if upgrade.UpgradeTimedOut? then 504
        else 500)
  {
    if answer.SendFailed? {
      return Outcome(ErrorResponse(BAD_GATEWAY), None);
    }
    if answer.SendTimedOut? {
      return Outcome(ErrorResponse(GATEWAY_TIMEOUT), None);
    }
    var response := answer.response;
    if !IsSuccess(response, transport) {
      return Outcome(ConvertResponse(response), None);
    }
    if transport == Http1 && !IsWebSocketUpgrade(response.headers) {
      return Outcome(ErrorResponse(BAD_GATEWAY), None);
    }
    if upgrade.UpgradeFailed? {
      return Outcome(ErrorResponse(BAD_GATEWAY), None);
    }
    if upgrade.UpgradeTimedOut? {
      return Outcome(ErrorResponse(GATEWAY_TIMEOUT), None);
    }
    if !channelOpen {
      return Outcome(ErrorResponse(INTERNAL_SERVER_ERROR), None);
    }
    ResponseFitsItsTransport(response.headers);
    var downstream := Response(response.status, response.version, ResponseHeaders(response.headers, transport));
    outcome := Outcome(downstream, Some(Connection.Job(request, upgrade.stream)));
  }
}
