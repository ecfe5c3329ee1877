/** The decisions inside the media-server client wrappers of plex.go:
    argument guards, status-code classification, the transcode stop URL,
    the server filter and parameter defaults. Requests and decoding are
    done elsewhere; every wrapper here receives the already-decoded reply. */
module PlexClient {
  import opened Results
  import GoStrconv

  /** A client for one media server: base URL and access token. */
  datatype Plex = Plex(url: string, token: string)

  const PlexTVURL: string := "https://plex.tv"
  const UrlRequired: string := "url is required"
  const TitleRequired: string := "ERROR: A title is required"
  const MissingSessionKey: string := "Missing sessionKey"
  const NotAuthorizedThis: string := "You are not authorized to access this server"
  const NotAuthorizedThat: string := "You are not authorized to access that server"
  const RepliedPrefix: string := "Server replied with "
  const RepliedSuffix: string := " status code"
  const StopPath: string := "/video/:/transcode/universal/stop?session="

  /** New: an empty base URL is refused before anything else is looked at. */
  function New(baseURL: string, token: string): (r: Result<Plex>)
    ensures r.Err? <==> baseURL == ""
    ensures r.Err? ==> r.error == UrlRequired
    ensures r.Ok? ==> r.value.url == baseURL && r.value.token == token
  {
    if baseURL == "" then Err(UrlRequired) else Ok(Plex(baseURL, token))
  }

  /** Search: an empty title fails before any request; an unauthorized
      reply and an undecodable body fail; any other status is decoded. */
  function Search<T>(p: Plex, title: string, reply: Reply<T>): (r: Result<T>)
    ensures title == "" ==> r == Err(TitleRequired)
    ensures r.Ok? <==> title != "" && reply.Response? && reply.statusCode != 401 && reply.body.Decoded?
    ensures r.Ok? ==> r.value == reply.body.value
    ensures title != "" && reply.Response? && reply.statusCode == 401 ==> r == Err(NotAuthorizedThat)
  {
    if title == "" then Err(TitleRequired)
    else match reply
      case TransportError(e) => Err(e)
      case Response(code, _, body) =>
        if code == 401 then Err(NotAuthorizedThat)
        else match body
          case Undecodable(e) => Err(e)
          case Decoded(v) => Ok(v)
  }

  /** A successful search that `SearchPlex` can cut without depending on
      the decoder: Go slices the results to their first four, which with
      fewer than four either pads them with zero-valued entries up to the
      slice's capacity or panics, as that capacity decides. */
  predicate SearchPlexSafe<M>(title: string, reply: Reply<seq<M>>) {
    (title != "" && reply.Response? && reply.statusCode != 401 && reply.body.Decoded?) ==>
      |reply.body.value| >= 4
  }

  /** SearchPlex: `Search`, keeping only the first four results. */
  function SearchPlex<M>(p: Plex, title: string, reply: Reply<seq<M>>): (r: Result<seq<M>>)
    requires SearchPlexSafe(title, reply)
    ensures r.Ok? <==> Search(p, title, reply).Ok?
    ensures r.Err? ==> r == Search(p, title, reply)
    ensures r.Ok? ==> |r.value| == 4 && r.value <= Search(p, title, reply).value
  {
    match Search(p, title, reply)
      case Ok(results) => Ok(results[..4])
      case Err(e) => Err(e)
  }

  function ServerRepliedWith(code: int): string {
    RepliedPrefix + GoStrconv.Itoa(code) + RepliedSuffix
  }

  /** The status rule shared by Test and KillTranscodeSession. */
  function ClassifyStatus(code: int): (r: Result<bool>)
    ensures r.Ok? <==> code == 200
    ensures r.Ok? ==> r.value
    ensures code == 401 ==> r == Err(NotAuthorizedThis)
    ensures code != 401 && code != 200 ==> r == Err(ServerRepliedWith(code))
  {
    if code == 401 then Err(NotAuthorizedThis)
    else if code != 200 then Err(ServerRepliedWith(code))
    else Ok(true)
  }

  /** The "Server replied with N status code" message carries N: reading
      the text between prefix and suffix gives the status code back. */
  lemma ServerRepliedCarriesCode(code: int)
    requires GoStrconv.MinInt64 <= code <= GoStrconv.MaxInt64
    ensures var m := ServerRepliedWith(code);
      |m| > |RepliedPrefix| + |RepliedSuffix| &&
      m[..|RepliedPrefix|] == RepliedPrefix &&
      GoStrconv.Atoi(m[|RepliedPrefix|..|m| - |RepliedSuffix|]) == Some(code)
  {
    var digits := GoStrconv.Itoa(code);
    var m := ServerRepliedWith(code);
    GoStrconv.AtoiItoa(code);
    assert m == RepliedPrefix + digits + RepliedSuffix;
    assert m[|RepliedPrefix|..|m| - |RepliedSuffix|] == digits;
  }

  /** Test: a transport error is passed on, otherwise the status decides. */
  function Test(reply: Reply<()>): (r: Result<bool>)
    ensures r.Ok? <==> reply.Response? && reply.statusCode == 200
    ensures reply.TransportError? ==> r == Err(reply.error)
  {
    match reply
    case TransportError(e) => Err(e)
    case Response(code, _, _) => ClassifyStatus(code)
  }

  /** The URL that stops one transcode session. */
  function StopURL(base: string, sessionKey: string): (u: string)
    ensures |u| == |base| + |StopPath| + |sessionKey|
    ensures u[..|base|] == base && u[|base|..|base| + |StopPath|] == StopPath
    ensures u[|base| + |StopPath|..] == sessionKey
  {
    base + StopPath + sessionKey
  }

  /** The request KillTranscodeSession makes, if any. */
  function KillRequest(p: Plex, sessionKey: string): (q: Option<string>)
    ensures q.None? <==> sessionKey == ""
    ensures q.Some? ==> q.value == StopURL(p.url, sessionKey)
  {
    if sessionKey == "" then None else Some(StopURL(p.url, sessionKey))
  }

  /** KillTranscodeSession: an empty key fails with no request made;
      otherwise the transport outcome and then the status decide. */
  function KillTranscodeSession(p: Plex, sessionKey: string, reply: Reply<()>): (r: Result<bool>)
    ensures sessionKey == "" ==> r == Err(MissingSessionKey)
    ensures r.Ok? <==> sessionKey != "" && reply.Response? && reply.statusCode == 200
    ensures r.Ok? ==> r.value
    ensures sessionKey != "" && reply.Response? && reply.statusCode == 401 ==> r == Err(NotAuthorizedThis)
    ensures sessionKey != "" && reply.Response? && reply.statusCode != 401 && reply.statusCode != 200
      ==> r == Err(ServerRepliedWith(reply.statusCode))
  {
    if sessionKey == "" then Err(MissingSessionKey)
    else match reply
      case TransportError(e) => Err(e)
      case Response(code, _, _) => ClassifyStatus(code)
  }

  /** RemoveFriend: any status but 200 or 400 fails with the status line;
      otherwise the decoded result code says whether the friend went. */
  function RemoveFriend(reply: Reply<int>): (r: Result<bool>)
    ensures r.Ok? <==> reply.Response? && (reply.statusCode == 200 || reply.statusCode == 400) && reply.body.Decoded?
    ensures r.Ok? ==> (r.value <==> reply.body.value == 0)
    ensures reply.Response? && reply.statusCode != 200 && reply.statusCode != 400 ==> r == Err(reply.status)
  {
    match reply
    case TransportError(e) => Err(e)
    case Response(code, status, body) =>
      if code != 200 && code != 400 then Err(status)
      else match body
        case Undecodable(e) => Err(e)
        case Decoded(c) => Ok(c == 0)
  }

  /** A device listed by plex.tv's resources endpoint. `offers` is the Go
      field `Provides` (`provides` is a reserved word in Dafny). */
  datatype Device = Device(name: string, product: string, clientIdentifier: string, offers: string)

  /** The devices that provide "server", in their original order. */
  function Servers(ds: seq<Device>): seq<Device>
  {
    if ds == [] then []
    else Servers(ds[..|ds| - 1]) + (if ds[|ds| - 1].offers == "server" then [ds[|ds| - 1]] else [])
  }

  lemma {:induction false} ServersMembership(ds: seq<Device>, d: Device)
    ensures d in Servers(ds) <==> d in ds && d.offers == "server"
  {
    if ds != [] {
      var init := ds[..|ds| - 1];
      ServersMembership(init, d);
      assert ds == init + [ds[|ds| - 1]];
    }
  }

  /** Filtering distributes over concatenation, so relative order is kept. */
  lemma {:induction false} ServersConcat(a: seq<Device>, b: seq<Device>)
    ensures Servers(a + b) == Servers(a) + Servers(b)
    decreases |b|
  {
    if b == [] {
      assert a + b == a;
    } else {
      var b', last := b[..|b| - 1], b[|b| - 1];
      var tail := if last.offers == "server" then [last] else [];
      ServersConcat(a, b');
      assert (a + b)[..|a + b| - 1] == a + b';
      assert (a + b)[|a + b| - 1] == last;
      assert Servers(a + b) == Servers(a + b') + tail;
      assert Servers(b) == Servers(b') + tail;
      assert Servers(a) + Servers(b') + tail == Servers(a) + (Servers(b') + tail);
    }
  }

  /** GetServers: transport and decode errors are passed on; otherwise the
      server devices, in order. */
  method GetServers(reply: Reply<seq<Device>>) returns (r: Result<seq<Device>>)
    ensures r.Ok? <==> reply.Response? && reply.body.Decoded?
    ensures r.Ok? ==> r.value == Servers(reply.body.value)
    ensures r.Ok? ==> forall i :: 0 <= i < |r.value| ==> r.value[i].offers == "server"
    ensures reply.TransportError? ==> r == Err(reply.error)
    ensures reply.Response? && reply.body.Undecodable? ==> r == Err(reply.body.error)
  {
    if reply.TransportError? {
      return Err(reply.error);
    }
    if reply.body.Undecodable? {
      return Err(reply.body.error);
    }
    var devices := reply.body.value;
    var servers: seq<Device> := [];
    for i := 0 to |devices|
      invariant servers == Servers(devices[..i])
      invariant forall j :: 0 <= j < |servers| ==> servers[j].offers == "server"
    {
      assert devices[..i + 1][..i] == devices[..i];
      if devices[i].offers != "server" {
        continue;
      }
      servers := servers + [devices[i]];
    }
    assert devices[..|devices|] == devices;
    return Ok(servers);
  }

  /** The optional settings UpdateFriendAccess sends. */
  datatype UpdateFriendParams = UpdateFriendParams(
    allowSync: string, allowCameraUpload: string, allowChannels: string,
    filterMovies: string, filterTelevision: string, filterMusic: string, filterPhotos: string)

  /** UpdateFriendAccess's query values: the three allow-flags default to
      "0" when empty, then the seven values are added in a fixed order. */
  method FriendAccessValues(params: UpdateFriendParams) returns (vals: seq<(string, string)>)
    ensures |vals| == 7
    ensures vals[0].0 == "allowSync" && vals[1].0 == "allowCameraUpload" && vals[2].0 == "allowChannels"
    ensures vals[3].0 == "filterMovies" && vals[4].0 == "filterMusic"
    ensures vals[5].0 == "filterTelevision" && vals[6].0 == "filterPhotos"
    ensures forall i :: 0 <= i < 3 ==> vals[i].1 != ""
    ensures params.allowSync != "" ==> vals[0].1 == params.allowSync
    ensures params.allowCameraUpload != "" ==> vals[1].1 == params.allowCameraUpload
    ensures params.allowChannels != "" ==> vals[2].1 == params.allowChannels
    ensures params.allowSync == "" ==> vals[0].1 == "0"
    ensures params.allowCameraUpload == "" ==> vals[1].1 == "0"
    ensures params.allowChannels == "" ==> vals[2].1 == "0"
    ensures vals[3].1 == params.filterMovies && vals[4].1 == params.filterMusic
    ensures vals[5].1 == params.filterTelevision && vals[6].1 == params.filterPhotos
  {
    var p := params;
    if p.allowSync == "" {
      p := p.(allowSync := "0");
    }
    if p.allowCameraUpload == "" {
      p := p.(allowCameraUpload := "0");
    }
    if p.allowChannels == "" {
      p := p.(allowChannels := "0");
    }
    vals := [];
    vals := vals + [("allowSync", p.allowSync)];
    vals := vals + [("allowCameraUpload", p.allowCameraUpload)];
    vals := vals + [("allowChannels", p.allowChannels)];
    vals := vals + [("filterMovies", p.filterMovies)];
    vals := vals + [("filterMusic", p.filterMusic)];
    vals := vals + [("filterTelevision", p.filterTelevision)];
    vals := vals + [("filterPhotos", p.filterPhotos)];
  }

  /** UpdateFriendAccess's reply: only status 200 succeeds. */
  function UpdateFriendAccess(reply: Reply<()>): (r: Result<bool>)
    ensures r.Ok? <==> reply.Response? && reply.statusCode == 200
    ensures r.Ok? ==> r.value
    ensures reply.Response? && reply.statusCode != 200 ==> r == Err(reply.status)
  {
    match reply
    case TransportError(e) => Err(e)
    case Response(code, status, _) => if code != 200 then Err(status) else Ok(true)
  }

  /** GetLibraryLabels's query: an empty section index means "1". */
  function LabelsQuery(p: Plex, sectionKey: string, sectionIndex: string): (q: string)
    ensures var idx := if sectionIndex == "" then "1" else sectionIndex;
      |q| >= |idx| && q[|q| - |idx|..] == idx
    ensures |q| >= |p.url| && q[..|p.url|] == p.url
  {
    var idx := if sectionIndex == "" then "1" else sectionIndex;
    p.url + "/library/sections/" + sectionKey + "/labels?type=" + idx
  }

  /** The error Go's JSON decoder reports when asked to decode into a value
      that is not a pointer. */
  const NonPointerUnmarshal: string := "json: Unmarshal(non-pointer plex.libraryLabels)"

  /** GetLibraryLabels as written: the reply is decoded into `result`
      itself rather than `&result`, so a body that reads as JSON still fails
      with the non-pointer error, and no reply ever yields labels. */
  function GetLibraryLabelsAsWritten<L>(reply: Reply<L>): (r: Result<L>)
    ensures r.Err?
    ensures reply.TransportError? ==> r == Err(reply.error)
    ensures reply.Response? && reply.body.Decoded? ==> r == Err(NonPointerUnmarshal)
  {
    match reply
    case TransportError(e) => Err(e)
    case Response(_, _, body) =>
      match body
      case Undecodable(e) => Err(e)
      case Decoded(_) => Err(NonPointerUnmarshal)
  }

  /** GetLibraryLabels as intended, decoding into `&result`: no status
      check, so any reply whose body decodes gives its labels. */
  function GetLibraryLabels<L>(reply: Reply<L>): (r: Result<L>)
    ensures r.Ok? <==> reply.Response? && reply.body.Decoded?
    ensures r.Ok? ==> r.value == reply.body.value
    ensures reply.TransportError? ==> r == Err(reply.error)
    ensures reply.Response? && reply.body.Undecodable? ==> r == Err(reply.body.error)
  {
    match reply
    case TransportError(e) => Err(e)
    case Response(_, _, body) =>
      match body
      case Undecodable(e) => Err(e)
      case Decoded(v) => Ok(v)
  }

  /** The discrepancy: a 200 reply whose body decodes to labels `v` gives
      `v` as intended but the non-pointer error as written. */
  lemma LabelsAsWrittenDropsDecodedReply<L>(v: L)
    ensures var reply: Reply<L> := Response(200, "200 OK", Decoded(v));
      && GetLibraryLabelsAsWritten(reply) == Err(NonPointerUnmarshal)
      && GetLibraryLabels(reply) == Ok(v)
  {
  }
}
