# go-plex-client, modelled in Dafny

This project models the decision-making core of the Go client for Plex Media
Server and plex.tv. Each part below is covered.

- **Session monitor.** The watch-list of monitored users and the evaluator
  that walks each snapshot of playing video sessions. The evaluator skips
  three kinds of entry: unwatched users, items already seen, and users whose
  kill is already under way. For any other entry it either marks a direct
  play, or marks a transcode and queues its transcode key. The kill actor
  then drains the queue in order, calling `KillTranscodeSession` once per
  key. The poll tick and the `Start` defaults are modelled too.
- **Server client wrappers.** The argument guards, status-code
  classification and error texts of `New`, `Search`, `SearchPlex`,
  `Test`, `KillTranscodeSession`, `RemoveFriend`, `UpdateFriendAccess`,
  `GetServers` and `GetLibraryLabels`, whose query and section-index
  default are modelled along with its reply handling as written and as
  intended. Each wrapper takes the already decoded reply as a
  parameter.
- **plex.tv wrappers.** PIN request and check, account linking, and the
  webhook list: get, add and set.
- **Webhook dispatcher.** Its table of six event names, callback
  registration, and request dispatch.
- **Stored accounts.** The credential list of the command-line tool:
  lookup by email, the exclusive in-place "set active", and the list step
  of `SaveAuth`.
- **String helpers.** The rating-key and thumbnail URL slicing, the
  media-type id table, the season lookup of the search example, and the
  `boolOrInt` JSON decoder.

The project is organised in these modules:
- `Results` (results.dfy) holds `Option`, `Result` and the decoded `Reply`
  of an HTTP call.
- `GoStrconv` (strconv.dfy) holds Go's `strconv.Itoa` and `strconv.Atoi`.
- `PlexClient` (plex.dfy), `PlexTV` (plextv.dfy), `Monitor`
  (monitor.dfy), `Webhooks` (webhook.dfy), `Authorizations`
  (authorizations.dfy), `Search` (search.dfy), `Helpers` (helpers.dfy),
  `FindSeason` (season.dfy) and `BoolOrInt` (boolorint.dfy) model their
  Go files.

The parts of the source that update state in place are modelled as
classes:
- the monitor is `Monitor.SessionMonitor`;
- the webhook table is `Webhooks.WebhookEvents`;
- the `boolOrInt` field is `BoolOrInt.BoolOrIntField`;
- the account list is an `array<Authorization>`, updated in place.

Every loop in the source is a Dafny loop with its invariants. Its method is
proved against a specification function, for example `Monitor.Evaluate`,
`PlexClient.Servers`, `Search.KeyFromRatingKey` or
`Authorizations.Activated`. The lemmas are then proved about that function.

## Model

| member | source | states |
|---|---|---|
| GoStrconv.Atoi | examples/search/find_season.go:94 | a parsed value is always in the 64-bit range and comes from an optionally signed run of digits |
| GoStrconv.AtoiItoa | plex.go:98-99 | `Atoi(Itoa(n)) == n` for every 64-bit `n`: the decimal text written for a status code or id reads back as the same number |
| PlexClient.New | plex.go:35-46 | fails with "url is required" exactly when the base URL is empty; otherwise keeps URL and token |
| PlexClient.Search | plex.go:49-81 | empty title fails before any request; a 401 gives the "that server" message; any other status with a decodable body succeeds with that body |
| PlexClient.SearchPlex | search.go:6-16 | fails exactly when Search fails, with the same error; on success gives the first four of Search's results |
| PlexClient.ClassifyStatus | plex.go:95-100 | succeeds exactly on 200; 401 gives the "this server" message; any other code gives "Server replied with N status code" |
| PlexClient.ServerRepliedCarriesCode | plex.go:98-99 | the status code can be read back from between the prefix and suffix of the "Server replied with" message |
| PlexClient.Test | plex.go:84-103 | a transport error is passed on; success exactly when the reply's status is 200 |
| PlexClient.StopURL | plex.go:113 | the stop URL starts with the base URL followed by the stop path and ends with the session key |
| PlexClient.KillRequest | plex.go:109-113 | no request is made exactly when the session key is empty; otherwise the request goes to the stop URL |
| PlexClient.KillTranscodeSession | plex.go:106-131 | empty key gives "Missing sessionKey"; success exactly on a 200 reply to a non-empty key; 401 and other codes give their messages |
| PlexClient.RemoveFriend | plex.go:259-283 | any status other than 200 or 400 fails with the status line; otherwise success means the decoded result code is 0 |
| PlexClient.Servers | plex.go:464-472 | definition: the listed devices whose `Provides` is "server", in listed order; GetServers' loop is proved to compute it |
| PlexClient.ServersMembership | plex.go:464-472 | a device is among the servers exactly when it is listed and provides "server" |
| PlexClient.ServersConcat | plex.go:464-472 | filtering distributes over concatenation, so servers keep their relative order |
| PlexClient.GetServers | plex.go:443-475 | transport and decode errors are passed on; the result is the server devices of the reply, in order, each providing "server" |
| PlexClient.FriendAccessValues | plex.go:345-373 | seven name/value pairs in the source's order; the three allow-flags default to "0" when empty and are never empty; the filters are passed through |
| PlexClient.UpdateFriendAccess | plex.go:343-392 | success exactly on a 200 reply; any other status fails with the status line |
| PlexClient.LabelsQuery | plex.go:533-537 | the labels URL starts with the base URL and ends with the section index, which is "1" when none is given |
| PlexClient.GetLibraryLabelsAsWritten | plex.go:539-555 | as written, every reply fails: a transport error is passed on, and a body that reads as JSON fails with the non-pointer decode error |
| PlexClient.GetLibraryLabels | plex.go:539-555 | as intended: no status check; success exactly when the body decodes, with the decoded labels; transport and decode errors are passed on |
| PlexClient.LabelsAsWrittenDropsDecodedReply | plex.go:547-549 | a 200 reply whose body decodes to some labels gives those labels as intended but the non-pointer error as written |
| PlexTV.RequestPinHeaders | plextv.go:56-58 | the default headers replace the given ones exactly when no client identifier is given |
| PlexTV.RequestPIN | plextv.go:41-77 | success exactly on a 201 reply with a decodable body, returning that PIN; another status fails with the status line |
| PlexTV.CheckPinHeaders | plextv.go:87-91 | the default headers, with the client identifier replaced when one is given and nothing else changed |
| PlexTV.CheckPinURLCarriesId | plextv.go:83-85 | the PIN id can be read back from the PIN URL between the path and ".json" |
| PlexTV.CheckPIN | plextv.go:82-119 | a listed error wins with its message; then an empty token gives "pin is not authorized yet"; success exactly when the body decodes with no errors and a token; the status code is not consulted |
| PlexTV.LinkAccountRequest | plextv.go:125-131 | the client's headers with a form content type, and the code as the only form value |
| PlexTV.LinkAccount | plextv.go:122-156 | success exactly on a 204 reply; any other status gives "failed to link account: " and the status |
| PlexTV.GetWebhooks | plextv.go:159-187 | transport and decode errors are passed on; otherwise the hook URLs in response order |
| PlexTV.AddWebhookList | plextv.go:190-201 | a failed fetch is passed on; otherwise the current list followed by the new hook |
| PlexTV.SetWebhooksForm | plextv.go:208-216 | an empty list sends a single empty `urls[]` value; otherwise one `urls[]` value per hook, in order |
| PlexTV.SetWebhooks | plextv.go:222-234 | success exactly on a 201 reply; any other status gives "setting webhook failed" |
| Monitor.SetFlag | monitor.go:158-169 | setting a field raises exactly that flag; id, duration, rating key and the killed flag are untouched |
| Monitor.NoticeNamesUser | monitor.go:146-153 | the printed notice begins with the username and " is watching a forbidden piece of media" |
| Monitor.NoticeNamesShow | monitor.go:148-149 | for an episodic entry, " - " and the show's title follow that text |
| Monitor.Judge | monitor.go:127-171 | definition: the evaluator's decision for one entry, with the checks in the source's order: unwatched user, same item, kill under way, transcode key present, otherwise direct play |
| Monitor.Step | monitor.go:139-171 | definition: one entry's effect on the watch-list and the queue, by Judge's decision |
| Monitor.Evaluate | monitor.go:118-175 | definition: the entries taken in order through Step; CheckVideoSessions' loop is proved to compute it |
| Monitor.StepCases | monitor.go:127-171 | each skip case changes nothing; a new item with a transcode key raises IsTranscode and KillingSession and queues that key; a new item without one raises IsDirectPlay only |
| Monitor.StepFrame | monitor.go:155-171 | one entry keeps the user frame and queues nothing or one non-empty transcode key |
| Monitor.EvaluateFrame | monitor.go:118-175 | a pass keeps the user set, ids, durations, rating keys and killed flags, only raises flags, only appends to the queue, at most one key per entry, each a non-empty transcode key of the snapshot |
| Monitor.EvaluateConcat | monitor.go:121 | evaluating two snapshots one after the other equals evaluating their concatenation, so keys are queued in entry order |
| Monitor.EvaluateIgnoresQueue | monitor.go:118-175 | what a pass decides and queues does not depend on keys already waiting in the queue |
| Monitor.SameItemsAreIgnored | monitor.go:135-137 | a snapshot whose watched users are all on their stored item changes nothing |
| Monitor.StepSettles | monitor.go:139-171 | right after an entry is processed, processing it again leaves the watch-list and the queue unchanged |
| Monitor.StaysSettled | monitor.go:139-171 | once processing an entry leaves the watch-list and the queue unchanged, that stays so after any further entry |
| Monitor.EvaluateSettles | monitor.go:118-175 | after a pass, every entry of the snapshot is settled |
| Monitor.SettledPassIsNoop | monitor.go:118-175 | a pass over settled entries leaves the watch-list and the queue unchanged |
| Monitor.ReEvaluationIsNoop | monitor.go:90-114 | delivering the same snapshot on a later tick leaves the watch-list and the queue unchanged, so no second kill is queued |
| Monitor.DirectPlayRepeats | monitor.go:139-171 | a direct-play entry, once processed, is judged direct play again on the next tick and queues nothing, so its notice and its IsDirectPlay write repeat every tick |
| Monitor.EndToEndScenario | monitor.go:155-163 | a watched user starting a new transcoded item gets one kill queued for its key, both flags raised and the stored rating key kept |
| Monitor.PollTick | monitor.go:90-114 | no fetch exactly when the watch-list is empty; a failed fetch delivers nothing; otherwise the same snapshot goes to both evaluators |
| Monitor.EffectiveInterval | monitor.go:43-45 | an interval of zero becomes 1500 ms; any other is kept |
| Monitor.StartAsWrittenLosesInit | monitor.go:42-62 | on a freshly constructed monitor with Interval 0, after Start the caller still has Init false and Interval 0, while Start's own receiver copy ends with Init and 1500 ms (the goroutines it starts copy it before Init is set) |
| Monitor.SessionMonitor.constructor | monitor.go:9-18 | a monitor with its connection, interval and watch-list, not initialised, with an empty queue |
| Monitor.SessionMonitor.Start | monitor.go:42-62 | the interval becomes the effective interval and the monitor is marked initialised; nothing else changes |
| Monitor.SessionMonitor.StartAsWritten | monitor.go:42-62 | Start on a value receiver runs on a fresh copy: the copy gets the defaulted interval, Init and an empty kill queue, and the caller's monitor is unchanged |
| Monitor.SessionMonitor.Count | monitor.go:21-27 | the count is zero exactly when the watch-list is empty |
| Monitor.SessionMonitor.User | monitor.go:21-27 | a user is returned exactly when watched, and it is the stored one |
| Monitor.SessionMonitor.SetUserField | monitor.go:21-27 | the stored user gets the flag raised; an unknown id changes nothing |
| Monitor.SessionMonitor.CheckVideoSessions | monitor.go:118-175 | the new watch-list and queue are the evaluator's result over the snapshot's video entries, and queued keys stay non-empty |
| Monitor.SessionMonitor.CheckAudioSessions | monitor.go:177-241 | the audio evaluator changes nothing |
| Monitor.SessionMonitor.PollSessions | monitor.go:90-114 | the tick outcome follows the watch-list count and the fetch; without delivery nothing changes; with delivery the state is the evaluator's result |
| Monitor.SessionMonitor.ListenForPlexActions | monitor.go:64-74 | every queued key is consumed in queue order with exactly one KillTranscodeSession call each and no retry; the queue ends empty |
| Monitor.QueuedKeysReachServer | monitor.go:155-163 | every key the evaluator queues is non-empty, so the actor's kill call never stops at the "Missing sessionKey" guard |
| Webhooks.InitialEvents | webhook.go:111-122 | the table holds exactly the six event names, each with a do-nothing callback |
| Webhooks.Register | webhook.go:92-108 | an unknown name fails with "invalid event name"; a known one is set to the callback, other entries untouched |
| Webhooks.RegisterAll | webhook.go:92-108 | definition: a sequence of NewWebhookEvent calls in order, a refused one leaving the table as it was |
| Webhooks.RegisterAllKeepsKeys | webhook.go:92-108 | any sequence of registrations keeps the table's names exactly the six |
| Webhooks.RegisterAllLastWins | webhook.go:105 | for every name, the callback of its last registration is the one stored; a name never registered keeps its callback |
| Webhooks.Dispatch | webhook.go:64-89 | a callback runs exactly when the form parses, carries a payload that decodes, and names a registered event; that callback gets the decoded webhook |
| Webhooks.WebhookEvents.constructor | webhook.go:111-122 | the table is the initial six-event table and no callback has been invoked |
| Webhooks.WebhookEvents.NewWebhookEvent | webhook.go:92-108 | fails and changes nothing for an unknown name; otherwise the table is updated as Register says |
| Webhooks.WebhookEvents.OnPlay | webhook.go:125-127 | never fails and sets "media.play" to the callback |
| Webhooks.WebhookEvents.OnPause | webhook.go:130-132 | never fails and sets "media.pause" to the callback |
| Webhooks.WebhookEvents.OnResume | webhook.go:135-137 | never fails and sets "media.resume" to the callback |
| Webhooks.WebhookEvents.OnStop | webhook.go:140-142 | never fails and sets "media.stop" to the callback |
| Webhooks.WebhookEvents.OnScrobble | webhook.go:145-147 | never fails and sets "media.scrobble" to the callback |
| Webhooks.WebhookEvents.OnRate | webhook.go:150-152 | never fails and sets "media.rate" to the callback |
| Webhooks.WebhookEvents.Handler | webhook.go:64-89 | records exactly the dispatched callback and webhook, or nothing |
| Authorizations.FirstIndex | cmd/db/authorizations.go:108-118 | the first index holding the email, or -1 exactly when none does |
| Authorizations.LastIndex | cmd/db/authorizations.go:71-85 | the last index holding the email, or -1 exactly when none does |
| Authorizations.FindIndexByEmail | cmd/db/authorizations.go:108-118 | the scan returns the first index holding the email, or -1 |
| Authorizations.IsExists | cmd/db/authorizations.go:120-122 | true exactly when some entry holds the email |
| Authorizations.MarkActive | cmd/db/authorizations.go:71-85 | marks every entry holding the email active, nothing else, and returns the last such index, or -1 |
| Authorizations.MarkInactiveExcept | cmd/db/authorizations.go:87-95 | every entry but the kept index becomes inactive, the kept one is unchanged |
| Authorizations.SetActive | cmd/db/authorizations.go:70-106 | the list becomes the activated list; the email-not-found error is reported exactly when no entry holds the email |
| Authorizations.SaveAuthList | cmd/db/authorizations.go:27-36 | the saved list is the upsert followed by SetActive, and SetActive never fails there |
| Authorizations.FirstIndexFound | cmd/db/authorizations.go:120-122 | the first index is found exactly when some entry holds the email, and exactly when a last index is found |
| Authorizations.Activated | cmd/db/authorizations.go:70-106 | definition: the list SetActive leaves, with only the last entry holding the email active, or the list unchanged when none does |
| Authorizations.Upsert | cmd/db/authorizations.go:27-33 | definition: SaveAuth's list update, new token at the first entry holding the email, or the account appended |
| Authorizations.ActivatedSpec | cmd/db/authorizations.go:70-106 | activation keeps length, emails and tokens; on success an entry is active exactly when it is the last one holding the email |
| Authorizations.UpsertHoldsEmail | cmd/db/authorizations.go:27-35 | after the upsert the saved email is always present |
| Authorizations.UpsertSpec | cmd/db/authorizations.go:27-33 | with the email present, only that first entry's token changes; otherwise the account is appended |
| Authorizations.SaveAuthOneActive | cmd/db/authorizations.go:27-36 | after saving, exactly one entry is active and it holds the saved email |
| Authorizations.UpsertKeepsUnique | cmd/db/authorizations.go:27-33 | with distinct emails, the upsert keeps them distinct and the email ends where it was found or at the end |
| Authorizations.SaveAuthUniqueEmails | cmd/db/authorizations.go:27-36 | with distinct emails, saving keeps them distinct and the active entry carries the saved token |
| Authorizations.DuplicateEmailActivatesStaleToken | cmd/db/authorizations.go:27-36 | when the stored list already holds the email twice, the new token goes to the first entry but the last one is made the only active entry and keeps its old token |
| Search.FirstSlash | search.go:54-59 | the index of the first '/', or -1 exactly when there is none |
| Search.KeyFromRatingKey | search.go:46-66 | definition: a key of at most 18 characters whole, else the remainder after the 18-character prefix, cut at its first '/' when longer than 9 |
| Search.KeyAndThumb | search.go:19-43 | definition: the key before the first '/' of the remainder after the prefix and the thumb 7 characters after it, or two empty strings |
| Search.ExtractKeyFromRatingKey | search.go:46-66 | the scan returns the specified key: all of a short key, the remainder after the prefix, or the remainder cut at its first '/' |
| Search.ExtractKeyAndThumbFromURL | search.go:19-43 | the scan returns the key before the first '/' of the remainder and the thumb 7 characters after it, or two empty strings |
| Search.KeyIsSubstring | search.go:46-66 | the key is the whole input or a piece starting right after the 18-character prefix |
| Search.KeyFromRatingKeyCases | search.go:46-66 | a long remainder is cut at its first '/' and contains none before the cut |
| Search.RatingKeyRoundTrip | search.go:46-66 | a metadata URL with no further '/' reads back its id |
| Search.ChildrenRoundTrip | search.go:46-66 | a show's children URL reads back the show's id |
| Search.ThumbRoundTrip | search.go:19-43 | a thumbnail URL is safe to slice and reads back its id and thumb |
| Search.ThumbEmptyCases | search.go:19-43 | short inputs and remainders without '/' give two empty strings |
| Search.ShowVector | search_test.go:8 | "/library/metadata/18/children" gives "18" |
| Search.ShortShowVector | search_test.go:9 | "/library/metadata/1/children" gives "1" |
| Search.MovieVectors | search_test.go:11-14 | "/library/metadata/797" gives "797" and "/library/metadata/7" gives "7" |
| Helpers.GetMediaTypeID | helpers.go:4-39 | an unknown name is returned unchanged |
| Helpers.MediaTypeIDTable | helpers.go:4-39 | the i-th known name maps to the decimal text of i + 1 |
| Helpers.IDIsNotAName | helpers.go:4-39 | no id is itself a known name |
| Helpers.MediaTypeIDsDistinct | helpers.go:4-39 | distinct known names get distinct ids, and a name is mapped to something else exactly when it is known |
| Helpers.MediaTypeIDIdempotent | helpers.go:4-39 | applying the table twice is the same as applying it once |
| Helpers.GetMediaType | helpers.go:42-52 | the directory's type when set, otherwise the video's type; empty exactly when both are empty |
| FindSeason.SeasonExists | examples/search/find_season.go:93-111 | true exactly when the target parses as a number of at least 1 and some season entry has that index |
| FindSeason.NonSeasonsIgnored | examples/search/find_season.go:102-104 | entries that are not seasons never affect the answer, and an empty list has no season |
| BoolOrInt.Unmarshal | models.go:99-124 | 0 and 1 decode to false and true, JSON booleans to themselves and null to false; any other value is an error |
| BoolOrInt.UnmarshalIntRoundTrip | models.go:99-124 | encoding a flag as 0/1 or as a boolean decodes back to the flag |
| BoolOrInt.BoolOrIntField.constructor | models.go:95-97 | a new field holds false |
| BoolOrInt.BoolOrIntField.UnmarshalJSON | models.go:99-124 | on success the field holds the decoded flag; on error the field is unchanged and the error is returned |

## Left out

- Goroutines, channels, `time.Sleep` and the endless loops of the monitor
  are left out. Each tick, each evaluator pass and each drain of the kill
  queue is one sequential call. The channel is the `killQueue` field.
  Concurrency between the actor and the evaluators is not modelled.
- HTTP transport, URL escaping and JSON decoding are left out. Every
  wrapper takes the decoded reply: a transport error, or a status with a
  body that did or did not decode. The exact error texts of the standard
  library are left out.
- PlexClient.New: does not model `url.ParseRequestURI`, only the
  empty-URL guard and the stored fields, because URL parsing is in Go's
  standard library.
- PlexClient.FriendAccessValues: gives the values in the order the source
  adds them. `url.Values.Encode` then sorts the names, and that encoding
  is not modelled.
- `defaultHeaders()` is not part of this model. It is a parameter of
  `RequestPinHeaders` and `CheckPinHeaders`.
- `Search`, `Test` and `KillTranscodeSession` copy the client's token
  into the package-level request headers before their request
  (plex.go:54, 85, 107). Request headers are not modelled, because the
  request itself is made outside the model.
- PlexClient.GetLibraryLabelsAsWritten: a body that is well-formed JSON
  but of the wrong shape gives Go's non-pointer error, while the model
  gives the decode error it is handed; either way the call fails. The
  error is printed before it is returned, and printing is output only.
- PlexClient.UpdateFriendAccess: an error from `url.Parse` of the friend
  URL (plex.go:359-363) reaches the model as a `TransportError` reply,
  because URL parsing is in Go's standard library.
- PlexTV.RequestPIN: on a decode error, the partly decoded PIN Go returns
  is given as the empty PIN, because partial decoding is the JSON
  library's.
- PlexTV.CheckPIN: on a decode error, the partly decoded PIN Go returns
  is given as the empty PIN, for the same reason.
- Monitor.SessionMonitor.SetUserField: the watch-list implementation
  behind `ListInterface` is not part of this model. Setting a field
  assumes that "isTranscoding" raises `IsTranscode`, "killingSession"
  raises `KillingSession` and "isDirectPlay" raises `IsDirectPlay`.
  `AddUser` and `RemoveUser` are left out: the monitor never calls them.
- Helpers.GetMediaType: reads `info.Directory.Type` and
  `info.Video.Type` (helpers.go:43, 47), fields the `MediaMetadata` type
  shown in models.go:163-165 does not declare. The model assumes a
  metadata value that carries those two type strings.
- Monitor.SessionMonitor.StartAsWritten: the copy a Go value receiver
  makes shares `Userlist` (an interface) and `PlexConn` (a pointer) with
  the caller, so later field writes by the copy's goroutines reach the
  caller's list. The model copies the watch-list by value, so this
  sharing is not captured; the claim about `Init` and `Interval` does
  not depend on it.
- Monitor.SessionMonitor.CheckAudioSessions: its Go body is commented
  out, so it does nothing. The snapshot still carries a track list for
  it, as the commented-out `currentSessions.Track` (monitor.go:178)
  would read.
- Monitor.SessionMonitor.CheckVideoSessions: Go reads `currentSessions.Video`
  (monitor.go:119), a field the exported `CurrentSessions` type
  (models.go:910-915) lacks while the unexported `currentSessions` type
  (types.go:393-395) has it, and `pollSessions` sends the sessions
  `GetSessions` returns (plex.go:628). The model takes the snapshot's
  video entries to be that `Video` list.
- User ids are integers, as `MonitoredUser.UserID` is. Durations are
  plain integers; time values are not modelled.
- Printed notices and log lines are output only and change no state.
  `NoticeNamesUser` and `NoticeNamesShow` state the notice's text.
- Search.ExtractKeyAndThumbFromURL: Go panics when the first '/' of the
  remainder lies fewer than 7 characters before its end. The model
  requires `ThumbSafe`, which excludes exactly those inputs.
- Search.ThumbRoundTrip: stands in for the thumbnail test vectors of
  search_test.go. These are not stated literally, because comparing the
  long literal strings is too costly for the solver.
- `ExtractKeyFromRatingKeyRegex` is left out, because regular
  expressions are not modelled.
- PlexClient.SearchPlex: keeps the first four results (search.go:13).
  With fewer than four, Go's slice expression reaches up to the slice's
  capacity: it pads the results with zero-valued entries when the
  capacity `encoding/json` chose allows it, and panics otherwise (always
  for an empty or absent list). That capacity is the decoder's choice,
  so the model requires `SearchPlexSafe`, which excludes exactly the
  successful replies with fewer than four results.
- Other `Plex` methods that only build a request and decode the reply are
  left out, for example `GetFriends`, `InviteFriend` and
  `GetTranscodeSessions`.
- The key-value store, its JSON encoding, the command-line tool and the
  `auth` command are left out. `SaveAuthList` models only the list step
  of `SaveAuth`.
- Strings are sequences of characters. The source slices bytes, and the
  two coincide for the ASCII URLs and keys used here.
- Floating point fields of the decoded models are not modelled.

## Findings

| source | as written | input that shows it | evidently intended | confidence | as-written member | corrected member |
|---|---|---|---|---|---|---|
| monitor.go:42-62 | `Start` has a value receiver, so `m.Interval = 1500` and `m.Init = true` change a copy and the caller's monitor is never initialised | a monitor with `Interval` 0 and `Init` false: after `Start` the caller still sees `Interval` 0 and `Init` false | the caller's monitor gets the 1500 ms default and is marked initialised | not executed | Monitor.StartAsWrittenLosesInit | Monitor.SessionMonitor.Start |
| plex.go:547-549 | `GetLibraryLabels` decodes into `result` rather than `&result`, so the JSON decoder refuses the target and every reply fails | a 200 reply whose body is a valid labels document: the call returns `json: Unmarshal(non-pointer plex.libraryLabels)` | the decoded labels are returned | not executed | PlexClient.LabelsAsWrittenDropsDecodedReply | PlexClient.GetLibraryLabels |
