/** The session monitor of monitor.go: one poll tick, the video-session
    evaluator over a watch-list, and the kill actor that drains the queue
    of transcode keys. Goroutines and channels become sequential steps: the
    evaluator appends to the kill queue, the actor consumes it in order. */
module Monitor {
  import opened Results
  import PlexClient

  /** A tracked user, as the watch-list stores it. */
  datatype MonitoredUser = MonitoredUser(
    userID: int, duration: int,
    killingSession: bool, killedSession: bool,
    ratingKey: string, isTranscode: bool, isDirectPlay: bool)

  /** One playing video entry of a session snapshot. */
  datatype SessionEntry = SessionEntry(
    userID: int, username: string, ratingKey: string,
    title: string, grandparentTitle: string, transcodeKey: string)

  /** A fetched snapshot: the video entries and the audio (track) entries. */
  datatype Snapshot = Snapshot(video: seq<SessionEntry>, track: seq<SessionEntry>)

  /** The fields the evaluator sets to "1" through SetField, named
      "isTranscoding", "killingSession" and "isDirectPlay" in the source. */
  datatype UserField = IsTranscoding | KillingSession | IsDirectPlay

  /** SetField(id, name, "1") on the stored user. The watch-list's
      implementation is not part of this model; this is the assumed meaning
      of each name: "isTranscoding" sets the flag stored as IsTranscode. */
  function SetFlag(u: MonitoredUser, f: UserField): (r: MonitoredUser)
    ensures r.userID == u.userID && r.duration == u.duration
    ensures r.ratingKey == u.ratingKey && r.killedSession == u.killedSession
    ensures r.isTranscode == (u.isTranscode || f == IsTranscoding)
    ensures r.killingSession == (u.killingSession || f == KillingSession)
    ensures r.isDirectPlay == (u.isDirectPlay || f == IsDirectPlay)
  {
    match f
    case IsTranscoding => u.(isTranscode := true)
    case KillingSession => u.(killingSession := true)
    case IsDirectPlay => u.(isDirectPlay := true)
  }

  /** What the evaluator decides for one entry. */
  datatype Verdict =
    | Unmonitored
    | SameItem
    | KillInFlight
    | KillTranscode(key: string)
    | MarkDirectPlay

  /** The decision for one entry against the current watch-list. The skip
      test is `KilledSession || (KillingSession && IsTranscode)`. */
  function Judge(users: map<int, MonitoredUser>, e: SessionEntry): Verdict {
    if e.userID !in users then Unmonitored
    else
      var u := users[e.userID];
      if e.ratingKey == u.ratingKey then SameItem
      else if u.killedSession || (u.killingSession && u.isTranscode) then KillInFlight
      else if e.transcodeKey != "" then KillTranscode(e.transcodeKey)
      else MarkDirectPlay
  }

  /** The state the evaluator works on: the watch-list and the kill queue. */
  datatype Watch = Watch(users: map<int, MonitoredUser>, kills: seq<string>)

  /** SetField on a stored user; an unknown id changes nothing. */
  function SetField(users: map<int, MonitoredUser>, id: int, f: UserField): map<int, MonitoredUser> {
    if id in users then users[id := SetFlag(users[id], f)] else users
  }

  /** The evaluator's effect for one entry. */
  function Step(w: Watch, e: SessionEntry): Watch {
    match Judge(w.users, e)
    case KillTranscode(k) =>
      var u1 := SetField(w.users, e.userID, IsTranscoding);
      var u2 := SetField(u1, e.userID, KillingSession);
      Watch(u2, w.kills + [k])
    case MarkDirectPlay =>
      Watch(SetField(w.users, e.userID, IsDirectPlay), w.kills)
    case _ => w
  }

  /** The evaluator's effect for a sequence of entries, taken in order. */
  function Evaluate(w: Watch, entries: seq<SessionEntry>): Watch
  {
    if entries == [] then w
    else Step(Evaluate(w, entries[..|entries| - 1]), entries[|entries| - 1])
  }

  const Watching: string := " is watching a forbidden piece of media"

  /** The notice printed for a new forbidden item: the username, then the
      show's title first when the entry is episodic. */
  function Notice(e: SessionEntry): string
  {
    var tail := if e.grandparentTitle != "" then " - " + e.grandparentTitle + ": " else ": ";
    e.username + Watching + tail + e.title + " (" + e.ratingKey + ")"
  }

  /** The notice starts with the username and the fixed text. */
  lemma NoticeNamesUser(e: SessionEntry)
    ensures var s := Notice(e);
      && |s| > |e.username| + |Watching|
      && s[..|e.username|] == e.username
      && s[|e.username|..|e.username| + |Watching|] == Watching
  {
    var head := e.username + Watching;
    var tail := if e.grandparentTitle != "" then " - " + e.grandparentTitle + ": " else ": ";
    var rest := tail + e.title + " (" + e.ratingKey + ")";
    assert Notice(e) == head + rest;
    Split(head, rest);
    Split(e.username, Watching);
  }

  /** For an episodic entry, the show's title follows the fixed text. */
  lemma NoticeNamesShow(e: SessionEntry)
    requires e.grandparentTitle != ""
    ensures var s := Notice(e);
      var at := |e.username| + |Watching|;
      && |s| > at + 3 + |e.grandparentTitle|
      && s[at..at + 3 + |e.grandparentTitle|] == " - " + e.grandparentTitle
  {
    var head := e.username + Watching;
    var show := " - " + e.grandparentTitle;
    var rest := ": " + e.title + " (" + e.ratingKey + ")";
    assert Notice(e) == head + (show + rest);
    Split(head, show + rest);
    Split(show, rest);
  }

  /** The two halves of a concatenation. */
  lemma Split(a: string, b: string)
    ensures (a + b)[..|a|] == a && (a + b)[|a|..] == b
  {
  }

  // ---------------------------------------------------------------------
  // Properties of one step

  /** Each skip case leaves the watch-list and the queue untouched; a new
      item with a transcode key marks the user and queues that key once; a
      new item without one marks direct play and queues nothing. */
  lemma StepCases(w: Watch, e: SessionEntry)
    ensures e.userID !in w.users ==> Step(w, e) == w
    ensures e.userID in w.users && e.ratingKey == w.users[e.userID].ratingKey ==> Step(w, e) == w
    ensures e.userID in w.users &&
      (w.users[e.userID].killedSession || (w.users[e.userID].killingSession && w.users[e.userID].isTranscode))
      ==> Step(w, e) == w
    ensures Judge(w.users, e).KillTranscode? ==>
      var u := w.users[e.userID];
      && Step(w, e).kills == w.kills + [e.transcodeKey]
      && Step(w, e).users == w.users[e.userID := u.(isTranscode := true, killingSession := true)]
    ensures Judge(w.users, e) == MarkDirectPlay ==>
      && Step(w, e).kills == w.kills
      && Step(w, e).users == w.users[e.userID := w.users[e.userID].(isDirectPlay := true)]
  {
  }

  /** A step never adds or removes users, never writes a rating key, id,
      duration or the killed flag, and only raises the other flags. */
  predicate Preserves(before: map<int, MonitoredUser>, after: map<int, MonitoredUser>) {
    && after.Keys == before.Keys
    && forall id :: id in before ==>
      var b := before[id];
      var a := after[id];
      && a.userID == b.userID && a.duration == b.duration
      && a.ratingKey == b.ratingKey && a.killedSession == b.killedSession
      && (b.killingSession ==> a.killingSession)
      && (b.isTranscode ==> a.isTranscode)
      && (b.isDirectPlay ==> a.isDirectPlay)
  }

  /** Every queued key is non-empty. */
  predicate KeysNonEmpty(kills: seq<string>) {
    forall i :: 0 <= i < |kills| ==> kills[i] != ""
  }

  // ---------------------------------------------------------------------
  // Properties of a whole pass

  /** One step keeps the frame and queues nothing or one non-empty key. */
  lemma StepFrame(w: Watch, e: SessionEntry)
    ensures Preserves(w.users, Step(w, e).users)
    ensures Step(w, e).kills == w.kills ||
      (e.transcodeKey != "" && Step(w, e).kills == w.kills + [e.transcodeKey])
  {
  }

  lemma PreservesTransitive(a: map<int, MonitoredUser>, b: map<int, MonitoredUser>, c: map<int, MonitoredUser>)
    requires Preserves(a, b) && Preserves(b, c)
    ensures Preserves(a, c)
  {
  }

  /** A pass keeps the user set and stored rating keys, only appends to
      the queue, appends at most one key per entry, and appends only
      non-empty transcode keys of the snapshot. */
  lemma {:induction false} EvaluateFrame(w: Watch, entries: seq<SessionEntry>)
    ensures Preserves(w.users, Evaluate(w, entries).users)
    ensures var k := Evaluate(w, entries).kills;
      && |w.kills| <= |k| <= |w.kills| + |entries|
      && k[..|w.kills|] == w.kills
      && forall i :: |w.kills| <= i < |k| ==> k[i] != "" && exists e :: e in entries && e.transcodeKey == k[i]
  {
    if entries == [] {
      assert w.kills[..|w.kills|] == w.kills;
    } else {
      var init := entries[..|entries| - 1];
      var last := entries[|entries| - 1];
      EvaluateFrame(w, init);
      var mid := Evaluate(w, init);
      var k := Evaluate(w, entries).kills;
      StepFrame(mid, last);
      PreservesTransitive(w.users, mid.users, Evaluate(w, entries).users);
      assert k[..|mid.kills|] == mid.kills;
      assert k[..|w.kills|] == mid.kills[..|w.kills|];
      forall i | |w.kills| <= i < |k|
        ensures k[i] != "" && exists e :: e in entries && e.transcodeKey == k[i]
      {
        if i < |mid.kills| {
          assert k[i] == mid.kills[i];
          var e :| e in init && e.transcodeKey == k[i];
          assert e in entries;
        } else {
          assert k[i] == last.transcodeKey;
          assert last in entries;
        }
      }
    }
  }

  /** Passes compose: evaluating s1 then s2 is evaluating s1 + s2, so keys
      are queued in snapshot order. */
  lemma {:induction false} EvaluateConcat(w: Watch, s1: seq<SessionEntry>, s2: seq<SessionEntry>)
    ensures Evaluate(w, s1 + s2) == Evaluate(Evaluate(w, s1), s2)
    decreases |s2|
  {
    if s2 == [] {
      assert s1 + s2 == s1;
    } else {
      var s2' := s2[..|s2| - 1];
      EvaluateConcat(w, s1, s2');
      assert (s1 + s2)[..|s1 + s2| - 1] == s1 + s2';
    }
  }

  /** What a pass decides does not depend on keys already in the queue. */
  lemma {:induction false} EvaluateIgnoresQueue(users: map<int, MonitoredUser>, q: seq<string>, entries: seq<SessionEntry>)
    ensures Evaluate(Watch(users, q), entries).users == Evaluate(Watch(users, []), entries).users
    ensures Evaluate(Watch(users, q), entries).kills == q + Evaluate(Watch(users, []), entries).kills
  {
    if entries != [] {
      EvaluateIgnoresQueue(users, q, entries[..|entries| - 1]);
    }
  }

  /** Re-evaluating a snapshot whose entries are all unmonitored or on the
      stored item writes nothing and queues nothing. */
  lemma {:induction false} SameItemsAreIgnored(w: Watch, entries: seq<SessionEntry>)
    requires forall i :: 0 <= i < |entries| ==>
      entries[i].userID in w.users ==> entries[i].ratingKey == w.users[entries[i].userID].ratingKey
    ensures Evaluate(w, entries) == w
  {
    if entries != [] {
      SameItemsAreIgnored(w, entries[..|entries| - 1]);
    }
  }

  /** An entry is settled in a state when processing it again changes nothing. */
  predicate Settled(w: Watch, e: SessionEntry) {
    Step(w, e) == w
  }

  /** Right after an entry is processed, it is settled. */
  lemma StepSettles(w: Watch, e: SessionEntry)
    ensures Settled(Step(w, e), e)
  {
    var w' := Step(w, e);
    match Judge(w.users, e)
    case KillTranscode(k) =>
      assert Judge(w'.users, e) == KillInFlight;
    case MarkDirectPlay =>
      var u := w.users[e.userID].(isDirectPlay := true);
      assert w'.users[e.userID] == u;
      assert Judge(w'.users, e) == MarkDirectPlay;
      assert w'.users[e.userID := SetFlag(u, IsDirectPlay)] == w'.users;
    case _ =>
  }

  /** A direct-play entry is judged direct play again after it is
      processed: IsDirectPlay is not part of the skip test, so every later
      delivery of the entry prints the notice and sets the flag again, even
      though the watch-list and the queue stay the same. */
  lemma DirectPlayRepeats(w: Watch, e: SessionEntry)
    requires Judge(w.users, e) == MarkDirectPlay
    ensures Judge(Step(w, e).users, e) == MarkDirectPlay
    ensures Step(w, e).kills == w.kills
  {
    var u := w.users[e.userID];
    assert Step(w, e).users[e.userID] == u.(isDirectPlay := true);
  }

  /** A settled entry stays settled whatever entry is processed next. */
  lemma StaysSettled(w: Watch, e: SessionEntry, next: SessionEntry)
    requires Settled(w, e)
    ensures Settled(Step(w, next), e)
  {
    var w' := Step(w, next);
    StepFrame(w, next);
    if Judge(w.users, e) == MarkDirectPlay {
      DirectPlayStaysSettled(w, w', e);
    }
  }

  /** The direct-play case of StaysSettled: the flag, once set, stays set,
      so setting it again changes nothing. */
  lemma DirectPlayStaysSettled(w: Watch, w': Watch, e: SessionEntry)
    requires Settled(w, e) && Judge(w.users, e) == MarkDirectPlay
    requires Preserves(w.users, w'.users)
    ensures Settled(w', e)
  {
    var u := w.users[e.userID];
    var u' := w'.users[e.userID];
    assert w.users[e.userID := SetFlag(u, IsDirectPlay)] == w.users;
    assert u.isDirectPlay by {
      assert w.users[e.userID].isDirectPlay == SetFlag(u, IsDirectPlay).isDirectPlay;
    }
    if Judge(w'.users, e) == MarkDirectPlay {
      assert SetFlag(u', IsDirectPlay) == u';
      assert w'.users[e.userID := u'] == w'.users;
    }
  }

  /** After a pass, every entry of the snapshot is settled. */
  lemma {:induction false} EvaluateSettles(w: Watch, entries: seq<SessionEntry>)
    ensures forall i :: 0 <= i < |entries| ==> Settled(Evaluate(w, entries), entries[i])
  {
    if entries != [] {
      var init := entries[..|entries| - 1];
      var last := entries[|entries| - 1];
      EvaluateSettles(w, init);
      var mid := Evaluate(w, init);
      forall i | 0 <= i < |entries|
        ensures Settled(Evaluate(w, entries), entries[i])
      {
        if i == |entries| - 1 {
          StepSettles(mid, last);
        } else {
          assert entries[i] == init[i];
          StaysSettled(mid, entries[i], last);
        }
      }
    }
  }

  /** A pass over entries that are all settled changes nothing. */
  lemma {:induction false} SettledPassIsNoop(w: Watch, entries: seq<SessionEntry>)
    requires forall i :: 0 <= i < |entries| ==> Settled(w, entries[i])
    ensures Evaluate(w, entries) == w
  {
    if entries != [] {
      SettledPassIsNoop(w, entries[..|entries| - 1]);
    }
  }

  /** Idempotent re-evaluation: feeding the same snapshot again, on any
      later tick, leaves the watch-list and the queue unchanged, so no
      second kill is queued. */
  lemma ReEvaluationIsNoop(w: Watch, entries: seq<SessionEntry>)
    ensures Evaluate(Evaluate(w, entries), entries) == Evaluate(w, entries)
  {
    EvaluateSettles(w, entries);
    SettledPassIsNoop(Evaluate(w, entries), entries);
  }

  /** The end-to-end scenario: user 42 on item "100" starts episode "Ep5"
      of "ShowX" as item "200" with transcode key "tc-9". */
  lemma EndToEndScenario()
    ensures var u := MonitoredUser(42, 0, false, false, "100", false, false);
      var e := SessionEntry(42, "alice", "200", "Ep5", "ShowX", "tc-9");
      var w' := Evaluate(Watch(map[42 := u], []), [e]);
      && w'.kills == ["tc-9"]
      && w'.users[42].isTranscode && w'.users[42].killingSession
      && w'.users[42].ratingKey == "100"
  {
    var u := MonitoredUser(42, 0, false, false, "100", false, false);
    var e := SessionEntry(42, "alice", "200", "Ep5", "ShowX", "tc-9");
    assert [e][..0] == [];
  }

  // ---------------------------------------------------------------------
  // The poll tick

  /** What one tick of the poller does. */
  datatype Tick =
    | Idle                                   // watch-list empty: no fetch
    | FetchFailed(error: string)             // fetch failed: nothing delivered
    | Delivered(video: Snapshot, audio: Snapshot)

  /** One tick: skip when the watch-list is empty, otherwise fetch and hand
      the same snapshot to both evaluators. */
  function PollTick(count: nat, fetch: Result<Snapshot>): (t: Tick)
    ensures t.Idle? <==> count == 0
    ensures t.FetchFailed? <==> count != 0 && fetch.Err?
    ensures t.Delivered? ==> fetch.Ok? && t.video == fetch.value && t.audio == fetch.value
  {
    if count == 0 then Idle
    else match fetch
      case Err(e) => FetchFailed(e)
      case Ok(s) => Delivered(s, s)
  }

  /** The interval Start runs with: zero means 1500 milliseconds. */
  function EffectiveInterval(interval: int): (r: int)
    ensures interval == 0 ==> r == 1500
    ensures interval != 0 ==> r == interval
  {
    if interval == 0 then 1500 else interval
  }

  /** One attempt of the kill actor: the key and what KillTranscodeSession gave. */
  datatype KillAttempt = KillAttempt(key: string, outcome: Result<bool>)

  /** The monitor: its server connection, its interval, the watch-list
      (the store behind ListInterface, keyed by user id), the pending kill
      queue and the log of kill attempts made. */
  class SessionMonitor {
    var plexConn: PlexClient.Plex
    var init: bool
    var interval: int
    var userlist: map<int, MonitoredUser>
    var killQueue: seq<string>
    var attempts: seq<KillAttempt>

    /** Only non-empty transcode keys are ever queued. */
    ghost predicate Valid()
      reads this
    {
      KeysNonEmpty(killQueue)
    }

    constructor (conn: PlexClient.Plex, interval: int, users: map<int, MonitoredUser>)
      ensures Valid()
      ensures plexConn == conn && this.interval == interval && !init
      ensures userlist == users && killQueue == [] && attempts == []
    {
      plexConn := conn;
      init := false;
      this.interval := interval;
      userlist := users;
      killQueue := [];
      attempts := [];
    }

    /** Start with the receiver the initialisation evidently means to
        reach: the interval defaults to 1500 and the monitor is marked
        initialised; nothing else changes. */
    method Start()
      modifies this`interval, this`init
      ensures interval == EffectiveInterval(old(interval))
      ensures init
    {
      if interval == 0 {
        interval := 1500;
      }
      init := true;
    }

    /** Start as written: Go's value receiver makes the method run on a
        copy of the monitor. That copy gets fresh channels (an empty kill
        queue), the defaulted interval and, last of all, Init. The
        goroutines it starts take copies of their own before Init is set,
        so they run with Init false; nothing reads Init. The caller's
        monitor is not touched. */
    method StartAsWritten() returns (running: SessionMonitor)
      ensures fresh(running)
      ensures running.plexConn == plexConn && running.userlist == userlist
      ensures running.killQueue == [] && running.attempts == []
      ensures running.interval == EffectiveInterval(interval) && running.init
      ensures unchanged(this)
    {
      running := new SessionMonitor(plexConn, interval, userlist);
      running.Start();
    }

    /** ListInterface.Count. */
    function Count(): (n: nat)
      reads this
      ensures n == 0 <==> userlist == map[]
    {
      |userlist|
    }

    /** ListInterface.User: the stored user, or an error when not watched. */
    method User(id: int) returns (r: Result<MonitoredUser>)
      ensures r.Ok? <==> id in userlist
      ensures r.Ok? ==> r.value == userlist[id]
    {
      if id in userlist {
        r := Ok(userlist[id]);
      } else {
        r := Err("user not found");
      }
    }

    /** ListInterface.SetField(id, name, "1") for the field's name. */
    method SetUserField(id: int, f: UserField)
      modifies this`userlist
      ensures userlist == SetField(old(userlist), id, f)
    {
      if id in userlist {
        userlist := userlist[id := SetFlag(userlist[id], f)];
      }
    }

    /** checkVideoSessions: walks the video entries in order, skipping or
        marking users and queueing transcode keys. */
    method CheckVideoSessions(currentSessions: Snapshot)
      requires Valid()
      modifies this`userlist, this`killQueue
      ensures Valid()
      ensures Watch(userlist, killQueue) == Evaluate(Watch(old(userlist), old(killQueue)), currentSessions.video)
    {
      var sessions := currentSessions.video;
      ghost var w0 := Watch(userlist, killQueue);
      for i := 0 to |sessions|
        invariant Watch(userlist, killQueue) == Evaluate(w0, sessions[..i])
        invariant KeysNonEmpty(killQueue)
      {
        assert sessions[..i + 1][..i] == sessions[..i];
        var s := sessions[i];
        var userID := s.userID;
        var key := s.ratingKey;
        var user := User(userID);
        if user.Err? {
          continue;
        }
        if key == user.value.ratingKey {
          continue;
        }
        if user.value.killedSession || (user.value.killingSession && user.value.isTranscode) {
          continue;
        }
        var transcodeKey := s.transcodeKey;
        if transcodeKey != "" {
          SetUserField(userID, IsTranscoding);
          SetUserField(userID, KillingSession);
          killQueue := killQueue + [transcodeKey];
        } else {
          SetUserField(userID, IsDirectPlay);
        }
      }
      assert sessions[..|sessions|] == sessions;
    }

    /** checkAudioSessions: its body is commented out, so it does nothing. */
    method CheckAudioSessions(currentSessions: Snapshot)
      ensures unchanged(this)
    {
    }

    /** One tick of pollSessions: with an empty watch-list nothing is
        fetched or changed; a failed fetch changes nothing; otherwise the
        snapshot goes to both evaluators. */
    method PollSessions(fetch: Result<Snapshot>) returns (t: Tick)
      requires Valid()
      modifies this`userlist, this`killQueue
      ensures Valid()
      ensures t == PollTick(old(Count()), fetch)
      ensures !t.Delivered? ==> userlist == old(userlist) && killQueue == old(killQueue)
      ensures t.Delivered? ==>
        Watch(userlist, killQueue) == Evaluate(Watch(old(userlist), old(killQueue)), fetch.value.video)
    {
      t := PollTick(Count(), fetch);
      if t.Delivered? {
        CheckVideoSessions(t.video);
        CheckAudioSessions(t.audio);
      }
    }

    /** listenForPlexActions: consumes every queued key in queue order and
        calls KillTranscodeSession exactly once for each, with no retry.
        `replies` are the server's answers, one per call. */
    method ListenForPlexActions(replies: seq<Reply<()>>)
      requires Valid()
      requires |replies| >= |killQueue|
      modifies this`killQueue, this`attempts
      ensures Valid()
      ensures killQueue == []
      ensures |attempts| == |old(attempts)| + |old(killQueue)|
      ensures attempts[..|old(attempts)|] == old(attempts)
      ensures forall i :: 0 <= i < |old(killQueue)| ==>
        attempts[|old(attempts)| + i] ==
          KillAttempt(old(killQueue)[i], PlexClient.KillTranscodeSession(plexConn, old(killQueue)[i], replies[i]))
      ensures forall i :: |old(attempts)| <= i < |attempts| ==> attempts[i].key != ""
    {
      ghost var q0 := killQueue;
      ghost var a0 := attempts;
      var n := 0;
      while killQueue != []
        invariant 0 <= n <= |q0|
        invariant killQueue == q0[n..]
        invariant |attempts| == |a0| + n
        invariant attempts[..|a0|] == a0
        invariant forall i :: 0 <= i < n ==>
          attempts[|a0| + i] == KillAttempt(q0[i], PlexClient.KillTranscodeSession(plexConn, q0[i], replies[i]))
        invariant forall i :: |a0| <= i < |attempts| ==> attempts[i].key != ""
        invariant KeysNonEmpty(q0)
        decreases |killQueue|
      {
        var transcodeKey := killQueue[0];
        killQueue := killQueue[1..];
        var killedSession := PlexClient.KillTranscodeSession(plexConn, transcodeKey, replies[n]);
        attempts := attempts + [KillAttempt(transcodeKey, killedSession)];
        n := n + 1;
      }
    }
  }

  /** On a freshly constructed monitor, Start as written leaves the
      caller's Init false and its Interval zero: only the running copy is
      initialised. */
  method StartAsWrittenLosesInit(conn: PlexClient.Plex, users: map<int, MonitoredUser>)
    returns (caller: SessionMonitor, running: SessionMonitor)
    ensures running != caller
    ensures !caller.init && caller.interval == 0
    ensures running.init && running.interval == 1500
  {
    caller := new SessionMonitor(conn, 0, users);
    running := caller.StartAsWritten();
  }

  /** A queued key always reaches the server: the actor never hits the
      "Missing sessionKey" guard for keys the evaluator queued. */
  lemma QueuedKeysReachServer(w: Watch, entries: seq<SessionEntry>, p: PlexClient.Plex)
    requires KeysNonEmpty(w.kills)
    ensures var k := Evaluate(w, entries).kills;
      forall i :: 0 <= i < |k| ==> PlexClient.KillRequest(p, k[i]).Some?
  {
    EvaluateFrame(w, entries);
    var k := Evaluate(w, entries).kills;
    forall i | 0 <= i < |k| ensures k[i] != "" {
      if i < |w.kills| {
        assert k[i] == k[..|w.kills|][i];
      }
    }
  }
}
