/** src/services/webhook-handler.ts and src/services/africastalking/webhook-parser.ts:
    what a voice webhook of the provider means, and what is done about it. */
module WebhookModel {
  import opened Types
  import opened StoreModel
  import opened RoutingModel

  // ----------------------------------------------------------------- parsing

  datatype EventType = IncomingCall | Progress(status: CallStatus) | Dtmf | Unknown

  /** The fields of a voice webhook that tell its type. A duration that is not a
      finite number counts as none. */
  datatype Body = Body(
    direction: string,
    isActive: string,
    dtmfDigits: string,
    duration: Option<real>,
    hangupCause: string,
    status: string,
    callSessionState: string)

  /** String.toLowerCase on ASCII. */
  function Lower(s: string): (r: string)
    ensures |r| == |s|
  {
    seq(|s|, i requires 0 <= i < |s| => if 'A' <= s[i] <= 'Z' then (s[i] as int + 32) as char else s[i])
  }

  lemma LowerExactly(s: string, i: nat)
    requires i < |s|
    ensures 'A' <= s[i] <= 'Z' ==> Lower(s)[i] as int - 'a' as int == s[i] as int - 'A' as int
    ensures !('A' <= s[i] <= 'Z') ==> Lower(s)[i] == s[i]
  {
  }

  predicate IsActive(b: Body) {
    b.isActive == "1" || Lower(b.isActive) == "true"
  }

  /** The call is over: time has elapsed, there is a cause, or it is inactive. */
  predicate IsOver(b: Body) {
    b.duration.GetOr(0.0) > 0.0 || b.hangupCause != "" || b.isActive == "0"
  }

  function ParseEventType(b: Body): EventType {
    if b.dtmfDigits != "" then Dtmf
    else if IsOver(b) then
      var status := Lower(b.status);
      if status == "noanswer" || status == "no answer" then Progress(Missed)
      else if status == "failed" || status == "busy" || status == "aborted" then Progress(Failed)
      else Progress(Completed)
    else
      var state := Lower(b.callSessionState);
      if Lower(b.direction) == "inbound" && IsActive(b) then
        if state == "answered" || state == "inprogress" || state == "in-progress" then Progress(Answered)
        else IncomingCall
      else if Lower(b.direction) == "outbound" && IsActive(b) then
        if state == "answered" || state == "inprogress" then Progress(Answered) else Progress(Ringing)
      else Unknown
  }

  /** The provider sends a duration of zero with the very first webhook of a call,
      which must be routed all the same. */
  lemma OnlyUnansweredInboundCallsAreRouted(b: Body)
    ensures ParseEventType(b) == IncomingCall <==>
              && Lower(b.direction) == "inbound" && IsActive(b)
              && b.dtmfDigits == "" && b.hangupCause == "" && (b.duration.Some? ==> b.duration.value <= 0.0)
              && Lower(b.callSessionState) !in {"answered", "inprogress", "in-progress"}
  {
    if b.isActive == "0" {
      assert Lower(b.isActive)[0] == '0' && !IsActive(b);
    }
  }

  /** What every other webhook says of its call. */
  lemma ProgressIsReadExactly(b: Body)
    ensures var t, status, state := ParseEventType(b), Lower(b.status), Lower(b.callSessionState);
            var silent := b.dtmfDigits == "";
            var over := (b.duration.Some? && b.duration.value > 0.0) || b.hangupCause != "" || b.isActive == "0";
            var active := b.isActive == "1" || Lower(b.isActive) == "true";
            var inbound, outbound := Lower(b.direction) == "inbound", Lower(b.direction) == "outbound";
            && (t == Dtmf <==> !silent)
            && (t == Progress(Missed) <==> silent && over && status in {"noanswer", "no answer"})
            && (t == Progress(Failed) <==> silent && over && status in {"failed", "busy", "aborted"})
            && (t == Progress(Completed) <==>
                  silent && over && status !in {"noanswer", "no answer", "failed", "busy", "aborted"})
            && (t == Progress(Answered) <==>
                  && silent && !over && active
                  && (|| (inbound && state in {"answered", "inprogress", "in-progress"})
                      || (outbound && state in {"answered", "inprogress"})))
            && (t == Progress(Ringing) <==>
                  silent && !over && active && outbound && state !in {"answered", "inprogress"})
            && (t == Unknown <==> silent && !over && !(active && (inbound || outbound)))
  {
  }

  /** The last part of an event id. */
  function EventName(t: EventType): string {
    match t
    case IncomingCall => "incoming_call"
    case Progress(Ringing) => "ringing"
    case Progress(Answered) => "answered"
    case Progress(Completed) => "completed"
    case Progress(Missed) => "missed"
    case Progress(Failed) => "failed"
    case Dtmf => "dtmf"
    case Unknown => "unknown"
  }

  /** The event id of a webhook about the provider's call `call`. */
  function EventIdOf(call: string, t: EventType): EventId {
    call + (":" + EventName(t))
  }

  /** A parsed webhook: the provider's id of the call, and the event id. */
  datatype Webhook = Webhook(call: string, event: EventId, eventType: EventType)

  /** What an event id says of the call: `stamp`, the clock, stands in for an id
      that is missing. */
  function CallKey(call: string, stamp: string): string {
    if call != "" then call else "unknown:" + stamp
  }

  function Parse(call: string, b: Body, stamp: string): Webhook {
    var t := ParseEventType(b);
    Webhook(call, EventIdOf(CallKey(call, stamp), t), t)
  }

  /** Some body is parsed to this webhook. */
  ghost predicate Sent(w: Webhook) {
    exists call, b, stamp :: w == Parse(call, b, stamp)
  }

  /** The id of an event: that of the call, or the clock's, and what happened. */
  lemma EventIdsAreSpelledOut(call: string, b: Body, stamp: string)
    ensures var t, key := ParseEventType(b), if call != "" then call else "unknown:" + stamp;
            Parse(call, b, stamp) == Webhook(call, key + (":" + (
              if t == IncomingCall then "incoming_call"
              else if t == Progress(Ringing) then "ringing"
              else if t == Progress(Answered) then "answered"
              else if t == Progress(Completed) then "completed"
              else if t == Progress(Missed) then "missed"
              else if t == Progress(Failed) then "failed"
              else if t == Dtmf then "dtmf"
              else "unknown")), t)
  {
  }

  lemma NamesHaveNoColon(t: EventType)
    ensures ':' !in EventName(t)
  {
  }

  lemma NamesDiffer(t: EventType, u: EventType)
    requires EventName(t) == EventName(u)
    ensures t == u
  {
    assert EventName(t)[0] == EventName(u)[0] && |EventName(t)| == |EventName(u)|;
  }

  lemma LastColon(a: string, m: string)
    requires ':' !in m
    ensures var s := a + (":" + m); s[|a|] == ':' && forall i :: |a| < i < |s| ==> s[i] != ':'
  {
    var s := a + (":" + m);
    forall i | |a| < i < |s| ensures s[i] != ':' {
      assert s[i] == m[i - |a| - 1];
    }
  }

  /** The split at the last colon is unique. */
  lemma LastColonSplits(a: string, m: string, b: string, n: string)
    requires a + (":" + m) == b + (":" + n) && ':' !in m && ':' !in n
    ensures a == b && m == n
  {
    var s := a + (":" + m);
    LastColon(a, m);
    LastColon(b, n);
    assert a == s[..|a|] && b == s[..|b|];
    assert m == s[|a| + 1..] && n == s[|b| + 1..];
  }

  /** Webhooks share an event id exactly when they are of one type and about one
      call. */
  lemma EventIdsIdentify(a: string, t: EventType, b: string, u: EventType)
    ensures EventIdOf(a, t) == EventIdOf(b, u) <==> a == b && t == u
  {
    if EventIdOf(a, t) == EventIdOf(b, u) {
      NamesHaveNoColon(t);
      NamesHaveNoColon(u);
      LastColonSplits(a, EventName(t), b, EventName(u));
      NamesDiffer(t, u);
    }
  }

  /** So a retry of a webhook with a session id is recognised and no other webhook
      is taken for one; without an id, only a retry in the same millisecond is. */
  lemma RetriesAreRecognisedExactly(call: string, b: Body, stamp: string, other: string, c: Body, later: string)
    ensures Parse(call, b, stamp).event == Parse(other, c, later).event <==>
              CallKey(call, stamp) == CallKey(other, later) && ParseEventType(b) == ParseEventType(c)
    ensures call != "" ==> Parse(call, b, stamp).event == Parse(call, b, later).event
    ensures call == "" && stamp != later ==> Parse(call, b, stamp).event != Parse(call, b, later).event
  {
    EventIdsIdentify(CallKey(call, stamp), ParseEventType(b), CallKey(other, later), ParseEventType(c));
    EventIdsIdentify(CallKey(call, stamp), ParseEventType(b), CallKey(call, later), ParseEventType(b));
    if call == "" && CallKey(call, stamp) == CallKey(call, later) {
      assert stamp == CallKey(call, stamp)[8..] == later;
    }
  }

  // ----------------------------------------------------------- status events

  /** UPDATE call_records WHERE cpaas_call_id = call. */
  function Restamped(calls: seq<CallRecord>, call: string, status: CallStatus): (r: seq<CallRecord>)
    ensures |r| == |calls|
  {
    seq(|calls|, i requires 0 <= i < |calls| =>
      if calls[i].event == call then calls[i].(status := status) else calls[i])
  }

  /** A webhook about the progress of a call: it is handled once a minute. */
  function TakeNote(s: State, w: Webhook, now: int): State {
    if Deduplicated(s.traffic.dedup, w.event, now) then s
    else
      var noted :=
        if w.eventType.Progress?
        then s.(traffic := s.traffic.(calls := Restamped(s.traffic.calls, w.call, w.eventType.status)))
        else s;
      Remember(noted, w.event, StatusCached(now + DEDUP_TTL_MS))
  }

  /** A status event touches nothing but the statuses of records and the cache, and
      one that says nothing of progress only the cache. */
  lemma NotesTouchStatusesOnly(s: State, w: Webhook, now: int, i: nat)
    ensures var t := TakeNote(s, w, now);
            && t == s.(traffic := s.traffic.(calls := t.traffic.calls, dedup := t.traffic.dedup))
            && |t.traffic.calls| == |s.traffic.calls|
            && (i < |t.traffic.calls| ==>
                  t.traffic.calls[i] == s.traffic.calls[i].(status := t.traffic.calls[i].status))
            && (!w.eventType.Progress? ==> t.traffic.calls == s.traffic.calls)
  {
  }

  datatype WebhookReply = Routed(reply: Reply) | CachedDecision(entry: Cached) | StatusUpdate

  class WebhookHandler {
    const store: Store
    const router: CallRouter

    constructor (store: Store, router: CallRouter)
      requires router.store == store
      ensures this.store == store && this.router == router
    {
      this.store, this.router := store, router;
    }

    /** A repeated event changes nothing; an incoming call goes to the router,
        without a tenant hint; anything else updates the call's records. */
    method HandleVoiceWebhook(w: Webhook, number: Number, caller: Phone, config: Option<TenantRow>, now: int)
      returns (reply: WebhookReply)
      requires router.store == store
      modifies store
      ensures Deduplicated(old(store.traffic).dedup, w.event, now) ==>
                && store.Snapshot() == old(store.Snapshot())
                && reply == CachedDecision(old(store.traffic).dedup[w.event])
      ensures !Deduplicated(old(store.traffic).dedup, w.event, now) && w.eventType.IncomingCall? ==>
                var args := CallArgs(number, caller, None, w.event, config, now);
                exists m: Option<Match>, fallback: Option<Tenant> ::
                  && MayMatch(old(store.Snapshot()), number, caller, None, m)
                  && FallbackTenant(old(store.Snapshot()), number, None, fallback)
                  && store.Snapshot() == Call(old(store.Snapshot()), args, m, fallback)
                  && reply == Routed(Fresh(DecideCall(old(store.Snapshot()), args, m, fallback).decision))
      ensures !Deduplicated(old(store.traffic).dedup, w.event, now) && !w.eventType.IncomingCall? ==>
                store.Snapshot() == TakeNote(old(store.Snapshot()), w, now) && reply == StatusUpdate
    {
      if w.event in store.traffic.dedup && now < store.traffic.dedup[w.event].until {
        return CachedDecision(store.traffic.dedup[w.event]);
      }
      if w.eventType.IncomingCall? {
        var routed := router.RouteIncomingCall(CallArgs(number, caller, None, w.event, config, now));
        return Routed(routed);
      }
      if w.eventType.Progress? {
        store.traffic := store.traffic.(calls := Restamped(store.traffic.calls, w.call, w.eventType.status));
      }
      store.traffic := store.traffic.(dedup := store.traffic.dedup[w.event := StatusCached(now + DEDUP_TTL_MS)]);
      return StatusUpdate;
    }
  }
}
