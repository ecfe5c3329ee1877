/** The decisions inside the plex.tv wrappers of plextv.go: PIN request
    and check, account linking, and webhook list handling. Requests and
    decoding are done elsewhere; each wrapper receives the decoded reply. */
module PlexTV {
  import opened Results
  import GoStrconv
  import PlexClient

  /** The request headers sent to plex.tv. */
  datatype Headers = Headers(
    platform: string, platformVersion: string, plexProvides: string,
    product: string, version: string, device: string,
    containerSize: string, containerStart: string, token: string,
    accept: string, contentType: string,
    clientIdentifier: string, targetClientIdentifier: string)

  datatype ErrorResponse = ErrorResponse(code: int, message: string)

  /** The PIN fields the model keeps. */
  datatype PinResponse = PinResponse(
    id: int, code: string, clientIdentifier: string,
    expiresIn: int, authToken: string, errors: seq<ErrorResponse>, trusted: bool)

  const EmptyPin: PinResponse := PinResponse(0, "", "", 0, "", [], false)
  const PinNotAuthorized: string := "pin is not authorized yet"
  const LinkFailedPrefix: string := "failed to link account: "
  const SetWebhookFailed: string := "setting webhook failed"
  const FormContentType: string := "application/x-www-form-urlencoded"
  const PinsPath: string := "/api/v2/pins/"

  /** A PIN call's result: the PIN information and the error, if any. */
  datatype PinOutcome = PinOutcome(pin: PinResponse, err: Option<string>)

  /** RequestPIN's headers: the defaults replace the given ones exactly
      when no client identifier was given. */
  function RequestPinHeaders(requestHeaders: Headers, defaults: Headers): (h: Headers)
    ensures requestHeaders.clientIdentifier == "" ==> h == defaults
    ensures requestHeaders.clientIdentifier != "" ==> h == requestHeaders
  {
    if requestHeaders.clientIdentifier == "" then defaults else requestHeaders
  }

  /** RequestPIN: only status 201 with a decodable body succeeds. */
  function RequestPIN(reply: Reply<PinResponse>): (r: PinOutcome)
    ensures r.err.None? <==> reply.Response? && reply.statusCode == 201 && reply.body.Decoded?
    ensures r.err.None? ==> r.pin == reply.body.value
    ensures reply.Response? && reply.statusCode != 201 ==> r == PinOutcome(EmptyPin, Some(reply.status))
  {
    match reply
    case TransportError(e) => PinOutcome(EmptyPin, Some(e))
    case Response(code, status, body) =>
      if code != 201 then PinOutcome(EmptyPin, Some(status))
      else match body
        case Undecodable(e) => PinOutcome(EmptyPin, Some(e))
        case Decoded(pin) => PinOutcome(pin, None)
  }

  /** CheckPIN's headers: the defaults, with the given client identifier
      when one is given. */
  function CheckPinHeaders(clientIdentifier: string, defaults: Headers): (h: Headers)
    ensures h.clientIdentifier == if clientIdentifier != "" then clientIdentifier else defaults.clientIdentifier
    ensures h.(clientIdentifier := defaults.clientIdentifier) == defaults
  {
    if clientIdentifier != "" then defaults.(clientIdentifier := clientIdentifier) else defaults
  }

  /** CheckPIN's URL for a PIN id. */
  function CheckPinURL(id: int): string {
    PlexClient.PlexTVURL + PinsPath + GoStrconv.Itoa(id) + ".json"
  }

  /** The PIN id can be read back from CheckPIN's URL. */
  lemma CheckPinURLCarriesId(id: int)
    requires GoStrconv.MinInt64 <= id <= GoStrconv.MaxInt64
    ensures var u := CheckPinURL(id);
      var start := |PlexClient.PlexTVURL + PinsPath|;
      start <= |u| - 5 && GoStrconv.Atoi(u[start..|u| - 5]) == Some(id)
  {
    var digits := GoStrconv.Itoa(id);
    var u := CheckPinURL(id);
    var head := PlexClient.PlexTVURL + PinsPath;
    GoStrconv.AtoiItoa(id);
    assert u == head + digits + ".json";
    assert u[|head|..|u| - 5] == digits;
  }

  /** CheckPIN: a listed error wins and carries its message; then an empty
      token means "not authorized yet"; otherwise the PIN is linked. The
      status code is not consulted. */
  function CheckPIN(reply: Reply<PinResponse>): (r: PinOutcome)
    ensures reply.Response? && reply.body.Decoded? && |reply.body.value.errors| > 0 ==>
      r == PinOutcome(reply.body.value, Some(reply.body.value.errors[0].message))
    ensures reply.Response? && reply.body.Decoded? && |reply.body.value.errors| == 0 && reply.body.value.authToken == "" ==>
      r == PinOutcome(reply.body.value, Some(PinNotAuthorized))
    ensures r.err.None? <==> (reply.Response? && reply.body.Decoded? &&
      |reply.body.value.errors| == 0 && reply.body.value.authToken != "")
    ensures r.err.None? ==> r.pin == reply.body.value && r.pin.authToken != ""
  {
    match reply
    case TransportError(e) => PinOutcome(EmptyPin, Some(e))
    case Response(_, _, body) =>
      match body
      case Undecodable(e) => PinOutcome(EmptyPin, Some(e))
      case Decoded(pin) =>
        if |pin.errors| > 0 then PinOutcome(pin, Some(pin.errors[0].message))
        else if pin.authToken == "" then PinOutcome(pin, Some(PinNotAuthorized))
        else PinOutcome(pin, None)
  }

  /** LinkAccount's request: the client's headers as form-encoded, and the
      code as the only form value. */
  function LinkAccountRequest(clientHeaders: Headers, code: string): (req: (Headers, seq<(string, string)>))
    ensures req.0 == clientHeaders.(contentType := FormContentType)
    ensures req.1 == [("code", code)]
  {
    (clientHeaders.(contentType := FormContentType), [("code", code)])
  }

  /** LinkAccount: only status 204 succeeds. */
  function LinkAccount(reply: Reply<()>): (err: Option<string>)
    ensures err.None? <==> reply.Response? && reply.statusCode == 204
    ensures reply.Response? && reply.statusCode != 204 ==> err == Some(LinkFailedPrefix + reply.status)
  {
    match reply
    case TransportError(e) => Some(e)
    case Response(code, status, _) =>
      if code != 204 then Some(LinkFailedPrefix + status) else None
  }

  /** One entry of the webhook list plex.tv returns. */
  datatype Hook = Hook(url: string)

  /** GetWebhooks: the URLs in response order; the status is not checked. */
  method GetWebhooks(reply: Reply<seq<Hook>>) returns (r: Result<seq<string>>)
    ensures r.Ok? <==> reply.Response? && reply.body.Decoded?
    ensures reply.TransportError? ==> r == Err(reply.error)
    ensures reply.Response? && reply.body.Undecodable? ==> r == Err(reply.body.error)
    ensures r.Ok? ==> (|r.value| == |reply.body.value| &&
      forall i :: 0 <= i < |r.value| ==> r.value[i] == reply.body.value[i].url)
  {
    if reply.TransportError? {
      return Err(reply.error);
    }
    if reply.body.Undecodable? {
      return Err(reply.body.error);
    }
    var hook := reply.body.value;
    var webhooks: seq<string> := [];
    for i := 0 to |hook|
      invariant |webhooks| == i
      invariant forall j :: 0 <= j < i ==> webhooks[j] == hook[j].url
    {
      webhooks := webhooks + [hook[i].url];
    }
    return Ok(webhooks);
  }

  /** AddWebhook: the list handed to SetWebhooks is the current list
      followed by the new hook; a failed fetch is passed on. */
  function AddWebhookList(current: Result<seq<string>>, webhook: string): (r: Result<seq<string>>)
    ensures current.Err? ==> r == current
    ensures current.Ok? ==> (r.Ok? && |r.value| == |current.value| + 1 &&
      r.value[..|current.value|] == current.value && r.value[|current.value|] == webhook)
  {
    match current
    case Err(e) => Err(e)
    case Ok(hooks) => Ok(hooks + [webhook])
  }

  /** SetWebhooks's form body: one urls[] pair per hook in order, or a
      single empty urls[] pair to clear the list. */
  method SetWebhooksForm(webhooks: seq<string>) returns (body: seq<(string, string)>)
    ensures webhooks == [] ==> body == [("urls[]", "")]
    ensures webhooks != [] ==> (|body| == |webhooks| &&
      forall i :: 0 <= i < |body| ==> body[i] == ("urls[]", webhooks[i]))
  {
    body := [];
    if |webhooks| == 0 {
      body := body + [("urls[]", "")];
    }
    for i := 0 to |webhooks|
      invariant |webhooks| == 0 ==> body == [("urls[]", "")]
      invariant |webhooks| > 0 ==> |body| == i
      invariant |webhooks| > 0 ==> forall j :: 0 <= j < i ==> body[j] == ("urls[]", webhooks[j])
    {
      body := body + [("urls[]", webhooks[i])];
    }
  }

  /** SetWebhooks's reply: only status 201 succeeds. */
  function SetWebhooks(reply: Reply<()>): (err: Option<string>)
    ensures err.None? <==> reply.Response? && reply.statusCode == 201
    ensures reply.Response? && reply.statusCode != 201 ==> err == Some(SetWebhookFailed)
  {
    match reply
    case TransportError(e) => Some(e)
    case Response(code, _, _) => if code != 201 then Some(SetWebhookFailed) else None
  }
}
