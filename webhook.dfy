/** The webhook event table of webhook.go: a fixed set of six event names,
    registration that refuses any other name, and dispatch of a received
    payload to the callback registered under its event name. Callbacks are
    identified by value; calling one is recorded in an invocation log. */
module Webhooks {
  import opened Results

  /** The fields of a webhook payload the model keeps. */
  datatype Webhook = Webhook(event: string, user: bool, owner: bool,
                             accountTitle: string, serverTitle: string,
                             ratingKey: string, title: string)

  /** A callback: the table's initial do-nothing function, or one a caller
      registered, told apart by an identifier. */
  datatype Callback = Noop | Registered(id: nat)

  const InvalidEventName: string := "invalid event name"

  const EventNames: set<string> :=
    {"media.play", "media.pause", "media.resume", "media.stop", "media.scrobble", "media.rate"}

  /** NewWebhook's table: every event name mapped to a no-op. */
  function InitialEvents(): (m: map<string, Callback>)
    ensures m.Keys == EventNames
    ensures forall name :: name in m ==> m[name] == Noop
  {
    map["media.play" := Noop, "media.pause" := Noop, "media.resume" := Noop,
        "media.stop" := Noop, "media.scrobble" := Noop, "media.rate" := Noop]
  }

  /** newWebhookEvent on the table as a value: refuse an unknown name,
      otherwise replace that one entry. */
  function Register(events: map<string, Callback>, eventName: string, onEvent: Callback)
    : (r: Result<map<string, Callback>>)
    ensures r.Err? <==> eventName !in EventNames
    ensures r.Err? ==> r.error == InvalidEventName
    ensures r.Ok? ==> r.value.Keys == events.Keys + {eventName} && r.value[eventName] == onEvent
    ensures r.Ok? ==> forall name :: name in events && name != eventName ==> r.value[name] == events[name]
  {
    if eventName !in EventNames then Err(InvalidEventName)
    else Ok(events[eventName := onEvent])
  }

  /** A sequence of registrations; a refused one leaves the table as it was. */
  function RegisterAll(events: map<string, Callback>, regs: seq<(string, Callback)>): map<string, Callback>
  {
    if regs == [] then events
    else
      var prev := RegisterAll(events, regs[..|regs| - 1]);
      var last := regs[|regs| - 1];
      match Register(prev, last.0, last.1)
      case Ok(m) => m
      case Err(_) => prev
  }

  /** The key set is the six event names after any registrations. */
  lemma {:induction false} RegisterAllKeepsKeys(events: map<string, Callback>, regs: seq<(string, Callback)>)
    requires events.Keys == EventNames
    ensures RegisterAll(events, regs).Keys == EventNames
  {
    if regs != [] {
      RegisterAllKeepsKeys(events, regs[..|regs| - 1]);
    }
  }

  /** The last registration of a name decides its callback, whatever other
      names are registered after it; a name never registered keeps its
      callback. */
  lemma {:induction false} RegisterAllLastWins(events: map<string, Callback>, regs: seq<(string, Callback)>, name: string)
    requires events.Keys == EventNames && name in EventNames
    ensures name in RegisterAll(events, regs)
    ensures (forall i :: 0 <= i < |regs| ==> regs[i].0 != name) ==> RegisterAll(events, regs)[name] == events[name]
    ensures forall i :: 0 <= i < |regs| && regs[i].0 == name && (forall j :: i < j < |regs| ==> regs[j].0 != name) ==>
      RegisterAll(events, regs)[name] == regs[i].1
  {
    RegisterAllKeepsKeys(events, regs);
    if regs != [] {
      var init := regs[..|regs| - 1];
      var last := regs[|regs| - 1];
      RegisterAllLastWins(events, init, name);
      RegisterAllKeepsKeys(events, init);
      var prev := RegisterAll(events, init);
      if last.0 != name {
        assert RegisterAll(events, regs)[name] == prev[name];
      }
      forall i | 0 <= i < |regs| && regs[i].0 == name && (forall j :: i < j < |regs| ==> regs[j].0 != name)
        ensures RegisterAll(events, regs)[name] == regs[i].1
      {
        if i < |regs| - 1 {
          assert init[i] == regs[i];
          assert forall j :: i < j < |init| ==> init[j] == regs[j];
        }
      }
    }
  }

  /** A webhook request as the handler sees it once the form is parsed. */
  datatype Payload = BadJson(error: string) | Decoded(hook: Webhook)
  datatype Request = FormError(error: string) | Form(payload: Option<Payload>)

  /** The callback the handler calls, and with what, if any. */
  function Dispatch(events: map<string, Callback>, r: Request): (d: Option<(Callback, Webhook)>)
    ensures d.Some? <==> r.Form? && r.payload.Some? && r.payload.value.Decoded? && r.payload.value.hook.event in events
    ensures d.Some? ==> d.value == (events[r.payload.value.hook.event], r.payload.value.hook)
  {
    match r
    case FormError(_) => None
    case Form(None) => None
    case Form(Some(BadJson(_))) => None
    case Form(Some(Decoded(hook))) =>
      if hook.event in events then Some((events[hook.event], hook)) else None
  }

  /** The table and the log of callbacks called, in order. */
  class WebhookEvents {
    var events: map<string, Callback>
    var invocations: seq<(Callback, Webhook)>

    ghost predicate Valid()
      reads this
    {
      events.Keys == EventNames
    }

    /** NewWebhook. */
    constructor ()
      ensures Valid()
      ensures events == InitialEvents() && invocations == []
    {
      events := InitialEvents();
      invocations := [];
    }

    /** newWebhookEvent. */
    method NewWebhookEvent(eventName: string, onEvent: Callback) returns (err: Option<string>)
      requires Valid()
      modifies this`events
      ensures Valid()
      ensures err.Some? <==> Register(old(events), eventName, onEvent).Err?
      ensures err.Some? ==> err.value == InvalidEventName && events == old(events)
      ensures err.None? ==> events == Register(old(events), eventName, onEvent).value
    {
      if eventName !in {"media.play", "media.pause", "media.resume", "media.stop", "media.scrobble", "media.rate"} {
        return Some(InvalidEventName);
      }
      events := events[eventName := onEvent];
      return None;
    }

    method OnPlay(fn: Callback) returns (err: Option<string>)
      requires Valid()
      modifies this`events
      ensures Valid() && err.None? && events == old(events)["media.play" := fn]
    {
      err := NewWebhookEvent("media.play", fn);
    }

    method OnPause(fn: Callback) returns (err: Option<string>)
      requires Valid()
      modifies this`events
      ensures Valid() && err.None? && events == old(events)["media.pause" := fn]
    {
      err := NewWebhookEvent("media.pause", fn);
    }

    method OnResume(fn: Callback) returns (err: Option<string>)
      requires Valid()
      modifies this`events
      ensures Valid() && err.None? && events == old(events)["media.resume" := fn]
    {
      err := NewWebhookEvent("media.resume", fn);
    }

    method OnStop(fn: Callback) returns (err: Option<string>)
      requires Valid()
      modifies this`events
      ensures Valid() && err.None? && events == old(events)["media.stop" := fn]
    {
      err := NewWebhookEvent("media.stop", fn);
    }

    method OnScrobble(fn: Callback) returns (err: Option<string>)
      requires Valid()
      modifies this`events
      ensures Valid() && err.None? && events == old(events)["media.scrobble" := fn]
    {
      err := NewWebhookEvent("media.scrobble", fn);
    }

    method OnRate(fn: Callback) returns (err: Option<string>)
      requires Valid()
      modifies this`events
      ensures Valid() && err.None? && events == old(events)["media.rate" := fn]
    {
      err := NewWebhookEvent("media.rate", fn);
    }

    /** Handler: calls the callback registered under the payload's event
      name once, and nothing when the form, the payload or the name is
      missing or unreadable. The table is not changed. */
    method Handler(r: Request)
      modifies this`invocations
      ensures Dispatch(events, r).None? ==> invocations == old(invocations)
      ensures Dispatch(events, r).Some? ==> invocations == old(invocations) + [Dispatch(events, r).value]
    {
      if r.FormError? {
        return;
      }
      if r.payload.Some? {
        if r.payload.value.BadJson? {
          return;
        }
        var hookEvent := r.payload.value.hook;
        if hookEvent.event !in events {
          return;
        }
        var fn := events[hookEvent.event];
        invocations := invocations + [(fn, hookEvent)];
      }
    }
  }
}
