/** What routed calls leave behind over whole runs: how often one webhook event
    can be processed, and that the counters count the records. */
module TrafficModel {
  import opened Types
  import opened StoreModel
  import opened NumberPoolModel
  import opened SessionManagerModel
  import opened RoutingModel
  import opened WebhookModel
  import opened LifecycleModel
  import opened MaskingModel

  // -------------------------------------------------------- deduplication

  /** Records of one event are at least the dedup TTL apart, and the cache still
      remembers an event for that long after each of its records. */
  predicate Spaced(traffic: Traffic) {
    && (forall i, j :: 0 <= i < j < |traffic.calls| && traffic.calls[i].event == traffic.calls[j].event ==>
          traffic.calls[i].at + DEDUP_TTL_MS <= traffic.calls[j].at)
    && (forall i :: 0 <= i < |traffic.calls| ==>
          && traffic.calls[i].event in traffic.dedup
          && traffic.calls[i].at + DEDUP_TTL_MS <= traffic.dedup[traffic.calls[i].event].until)
  }

  /** A fresh decision about an event, logged or not, keeps the spacing. */
  lemma FreshEntryKeepsSpacing(traffic: Traffic, event: EventId, entry: Cached, now: int)
    requires Spaced(traffic) && !Deduplicated(traffic.dedup, event, now) && entry.until == now + DEDUP_TTL_MS
    ensures Spaced(traffic.(dedup := traffic.dedup[event := entry]))
    ensures forall record: CallRecord :: record.event == event && record.at == now ==>
              Spaced(traffic.(dedup := traffic.dedup[event := entry], calls := traffic.calls + [record]))
  {
  }

  lemma CreateKeepsTraffic(s: State, args: CreateArgs, sid: Sid, c: Choice, graceMin: int, maxMin: int, now: int,
                           failAt: Option<Stage>)
    ensures Create(s, args, sid, c, graceMin, maxMin, now, failAt).traffic == s.traffic
  {
  }

  /** What one call does to the traffic: the decision is cached, and a record,
      stamped with the event and the time, is appended when there is one. */
  lemma CallTraffic(s: State, args: CallArgs, m: Option<Match>, fallback: Option<Tenant>)
    requires MayMatch(s, args.number, args.caller, args.hint, m)
    ensures var t, ruling := Call(s, args, m, fallback), DecideCall(s, args, m, fallback);
            if Deduplicated(s.traffic.dedup, args.event, args.now) then t.traffic == s.traffic
            else
              var cached := s.traffic.dedup[args.event := CallCached(ruling.decision, args.now + DEDUP_TTL_MS)];
              if ruling.record.None? then t.traffic == s.traffic.(dedup := cached)
              else
                && t.traffic == s.traffic.(dedup := cached, calls := s.traffic.calls + [ruling.record.value])
                && ruling.record.value.event == args.event && ruling.record.value.at == args.now
  {
    var ruling := DecideCall(s, args, m, fallback);
    assert ruling.record.Some? ==> ruling.record.value.event == args.event && ruling.record.value.at == args.now;
  }

  lemma CallKeepsSpacing(s: State, args: CallArgs, m: Option<Match>, fallback: Option<Tenant>)
    requires Spaced(s.traffic) && MayMatch(s, args.number, args.caller, args.hint, m)
    ensures Spaced(Call(s, args, m, fallback).traffic)
  {
    CallTraffic(s, args, m, fallback);
    if !Deduplicated(s.traffic.dedup, args.event, args.now) {
      var ruling := DecideCall(s, args, m, fallback);
      FreshEntryKeepsSpacing(s.traffic, args.event, CallCached(ruling.decision, args.now + DEDUP_TTL_MS), args.now);
    }
  }

  lemma SmsKeepsSpacing(s: State, args: SmsArgs, m: Option<Match>)
    requires Spaced(s.traffic) && MayMatch(s, args.number, args.from, args.hint, m)
    ensures Spaced(Sms(s, args, m).traffic)
  {
    if !Deduplicated(s.traffic.dedup, args.event, args.now) {
      var entry := SmsCached(DecideSms(s, args, m), args.now + DEDUP_TTL_MS);
      FreshEntryKeepsSpacing(s.traffic, args.event, entry, args.now);
    }
  }

  lemma StatusKeepsSpacing(s: State, w: Webhook, now: int)
    requires Spaced(s.traffic)
    ensures Spaced(TakeNote(s, w, now).traffic)
  {
    if !Deduplicated(s.traffic.dedup, w.event, now) {
      var calls :=
        if w.eventType.Progress? then Restamped(s.traffic.calls, w.call, w.eventType.status) else s.traffic.calls;
      assert Spaced(s.traffic.(calls := calls));
      FreshEntryKeepsSpacing(s.traffic.(calls := calls), w.event, StatusCached(now + DEDUP_TTL_MS), now);
    }
  }

  lemma StepKeepsSpacing(s: State, op: Op)
    requires Spaced(s.traffic) && Enabled(s, op)
    ensures Spaced(Apply(s, op).traffic)
  {
    match op
    case OpCall(call, m, fallback) => CallKeepsSpacing(s, call, m, fallback);
    case OpSms(sms, m) => SmsKeepsSpacing(s, sms, m);
    case OpStatus(w, now) => StatusKeepsSpacing(s, w, now);
    case OpCreate(args, sid, c, graceMin, maxMin, now, failAt) =>
      CreateKeepsTraffic(s, args, sid, c, graceMin, maxMin, now, failAt);
    case _ => assert Apply(s, op).traffic == s.traffic;
  }

  lemma {:induction false} RunsKeepSpacing(s: State, ops: seq<Op>)
    requires Spaced(s.traffic) && Runs(s, ops)
    ensures Spaced(After(s, ops).traffic)
    decreases |ops|
  {
    if ops != [] {
      StepKeepsSpacing(s, ops[0]);
      RunsKeepSpacing(Apply(s, ops[0]), ops[1..]);
    }
  }

  /** However often and in whatever order the provider repeats a webhook, no two
      call records of one event are less than a minute apart. */
  lemma OneCallRecordPerEventAndMinute(boot: State, ops: seq<Op>, i: nat, j: nat)
    requires Boots(boot) && Runs(boot, ops)
    requires i < j < |After(boot, ops).traffic.calls|
    requires After(boot, ops).traffic.calls[i].event == After(boot, ops).traffic.calls[j].event
    ensures After(boot, ops).traffic.calls[i].at + 60_000 <= After(boot, ops).traffic.calls[j].at
  {
    RunsKeepSpacing(boot, ops);
  }

  /** An event is remembered for a minute, to the millisecond, and then handled
      afresh: a call, a text and a status event alike. */
  lemma CallIsRememberedForAMinute(s: State, args: CallArgs, m: Option<Match>, fallback: Option<Tenant>, at: int)
    requires MayMatch(s, args.number, args.caller, args.hint, m)
    requires args.event in s.traffic.dedup ==> s.traffic.dedup[args.event].until <= args.now
    ensures var dedup := Call(s, args, m, fallback).traffic.dedup;
            && (Deduplicated(dedup, args.event, at) <==> at < args.now + 60_000)
            && dedup == s.traffic.dedup[args.event := CallCached(DecideCall(s, args, m, fallback).decision,
                                                                 args.now + 60_000)]
  {
    CallTraffic(s, args, m, fallback);
  }

  lemma SmsIsRememberedForAMinute(s: State, args: SmsArgs, m: Option<Match>, at: int)
    requires MayMatch(s, args.number, args.from, args.hint, m)
    requires args.event in s.traffic.dedup ==> s.traffic.dedup[args.event].until <= args.now
    ensures var dedup := Sms(s, args, m).traffic.dedup;
            && (Deduplicated(dedup, args.event, at) <==> at < args.now + 60_000)
            && dedup == s.traffic.dedup[args.event := SmsCached(DecideSms(s, args, m), args.now + 60_000)]
  {
  }

  lemma StatusIsRememberedForAMinute(s: State, w: Webhook, now: int, at: int)
    requires w.event in s.traffic.dedup ==> s.traffic.dedup[w.event].until <= now
    ensures var dedup := TakeNote(s, w, now).traffic.dedup;
            && (Deduplicated(dedup, w.event, at) <==> at < now + 60_000)
            && dedup == s.traffic.dedup[w.event := StatusCached(now + 60_000)]
  {
  }

  // ------------------------------------------------------------- counting

  function RecordsOf(calls: seq<CallRecord>, sid: Sid): nat {
    if calls == [] then 0
    else RecordsOf(calls[..|calls| - 1], sid) + if calls[|calls| - 1].session == sid then 1 else 0
  }

  /** When the session was called last, by the records. */
  function LastOf(calls: seq<CallRecord>, sid: Sid): Option<int> {
    if calls == [] then None
    else if calls[|calls| - 1].session == sid then Some(calls[|calls| - 1].at)
    else LastOf(calls[..|calls| - 1], sid)
  }

  /** The call counter of a row counts the session's call records, and the time of
      its last call is that of the last of them. */
  ghost predicate Counted(s: State) {
    && (forall sid :: sid in s.sessions ==>
          && s.sessions[sid].callCount == RecordsOf(s.traffic.calls, sid)
          && s.sessions[sid].lastCallAt == LastOf(s.traffic.calls, sid))
    && (forall sid :: sid !in s.sessions ==>
          RecordsOf(s.traffic.calls, sid) == 0 && LastOf(s.traffic.calls, sid) == None)
  }

  lemma OneMoreRecord(calls: seq<CallRecord>, record: CallRecord, sid: Sid)
    ensures RecordsOf(calls + [record], sid) == RecordsOf(calls, sid) + if record.session == sid then 1 else 0
    ensures LastOf(calls + [record], sid) == if record.session == sid then Some(record.at) else LastOf(calls, sid)
  {
    assert (calls + [record])[..|calls|] == calls;
  }

  lemma RecordCounts(s: State, t: State, record: CallRecord)
    requires Counted(s) && record.session in s.sessions && t.sessions.Keys == s.sessions.Keys
    requires t.traffic.calls == s.traffic.calls + [record]
    requires forall sid :: sid in s.sessions ==>
      && t.sessions[sid].callCount == s.sessions[sid].callCount + (if record.session == sid then 1 else 0)
      && t.sessions[sid].lastCallAt == if record.session == sid then Some(record.at) else s.sessions[sid].lastCallAt
    ensures Counted(t)
  {
    forall sid
      ensures RecordsOf(t.traffic.calls, sid) ==
              RecordsOf(s.traffic.calls, sid) + if record.session == sid then 1 else 0
      ensures LastOf(t.traffic.calls, sid) ==
              if record.session == sid then Some(record.at) else LastOf(s.traffic.calls, sid)
    {
      OneMoreRecord(s.traffic.calls, record, sid);
    }
  }

  /** The record follows from the hash alone. */
  lemma RecordOfMatch(s: State, n: Number, h: SessionHash, callerIsA: bool, config: Option<TenantRow>,
                      event: EventId, now: int)
    requires h.id.Some? && h.tenant.Some?
    requires DecideMatched(s, n, h, callerIsA, config, event, now).record.Some?
    ensures DecideMatched(s, n, h, callerIsA, config, event, now).record ==
            Some(CallRecord(h.id.value, event, if callerIsA then A_TO_B else B_TO_A, h.partyB,
                            h.mode == Some(Live) && h.recording == Some(true), h.mode != Some(Live), now, Ringing))
  {
  }

  lemma RecordIsOfTheMatch(s: State, args: CallArgs, m: Option<Match>, fallback: Option<Tenant>)
    requires Inv(s) && MayMatch(s, args.number, args.caller, args.hint, m)
    requires DecideCall(s, args, m, fallback).record.Some?
    ensures m.Some? && DecideCall(s, args, m, fallback).record.value.session == m.value.sid && m.value.sid in s.sessions
  {
    RoutableIsConsidered(s, args.number, m.value.sid, args.hint);
    RecordOfMatch(s, args.number, s.hashes[m.value.sid], m.value.callerIsA, args.config, args.event, args.now);
  }

  lemma UnrecordedCall(s: State, args: CallArgs, m: Option<Match>, fallback: Option<Tenant>)
    requires MayMatch(s, args.number, args.caller, args.hint, m)
    requires Deduplicated(s.traffic.dedup, args.event, args.now) || DecideCall(s, args, m, fallback).record.None?
    ensures Call(s, args, m, fallback).sessions == s.sessions
  {
  }

  lemma BumpedRow(s: State, args: CallArgs, m: Option<Match>, fallback: Option<Tenant>)
    requires MayMatch(s, args.number, args.caller, args.hint, m)
    requires !Deduplicated(s.traffic.dedup, args.event, args.now) && DecideCall(s, args, m, fallback).record.Some?
    requires DecideCall(s, args, m, fallback).record.value.session in s.sessions
    ensures var t, sid := Call(s, args, m, fallback), DecideCall(s, args, m, fallback).record.value.session;
            && t.sessions.Keys == s.sessions.Keys
            && t.sessions[sid].callCount == s.sessions[sid].callCount + 1
            && t.sessions[sid].lastCallAt == Some(DecideCall(s, args, m, fallback).record.value.at)
            && forall other :: other in s.sessions && other != sid ==> t.sessions[other] == s.sessions[other]
  {
  }

  lemma BumpedRows(s: State, args: CallArgs, m: Option<Match>, fallback: Option<Tenant>)
    requires MayMatch(s, args.number, args.caller, args.hint, m)
    requires !Deduplicated(s.traffic.dedup, args.event, args.now) && DecideCall(s, args, m, fallback).record.Some?
    requires DecideCall(s, args, m, fallback).record.value.session in s.sessions
    ensures var t, record := Call(s, args, m, fallback), DecideCall(s, args, m, fallback).record.value;
            && t.sessions.Keys == s.sessions.Keys
            && forall sid :: sid in s.sessions ==>
                 && t.sessions[sid].callCount == s.sessions[sid].callCount + (if record.session == sid then 1 else 0)
                 && t.sessions[sid].lastCallAt ==
                      if record.session == sid then Some(record.at) else s.sessions[sid].lastCallAt
  {
    BumpedRow(s, args, m, fallback);
  }

  lemma CallCounts(s: State, args: CallArgs, m: Option<Match>, fallback: Option<Tenant>)
    requires Inv(s) && Counted(s) && MayMatch(s, args.number, args.caller, args.hint, m)
    ensures Counted(Call(s, args, m, fallback))
  {
    CallTraffic(s, args, m, fallback);
    if !Deduplicated(s.traffic.dedup, args.event, args.now) && DecideCall(s, args, m, fallback).record.Some? {
      RecordIsOfTheMatch(s, args, m, fallback);
      BumpedRows(s, args, m, fallback);
      RecordCounts(s, Call(s, args, m, fallback), DecideCall(s, args, m, fallback).record.value);
    } else {
      UnrecordedCall(s, args, m, fallback);
    }
  }

  lemma OtherStepsCount(s: State, op: Op)
    requires Counted(s) && Enabled(s, op)
    requires op.OpEvict? || op.OpReap? || op.OpLoad? || op.OpQuarantine? || op.OpReinstate? || op.OpSms?
    ensures Counted(Apply(s, op))
  {
    assert Apply(s, op).sessions == s.sessions;
    assert Apply(s, op).traffic.calls == s.traffic.calls;
  }

  lemma {:induction false} RestampingKeepsSessions(calls: seq<CallRecord>, call: string, status: CallStatus, sid: Sid)
    ensures RecordsOf(Restamped(calls, call, status), sid) == RecordsOf(calls, sid)
    ensures LastOf(Restamped(calls, call, status), sid) == LastOf(calls, sid)
  {
    if calls != [] {
      var rest, last := calls[..|calls| - 1], |calls| - 1;
      RestampingKeepsSessions(rest, call, status, sid);
      assert Restamped(calls, call, status)[..last] == Restamped(rest, call, status);
    }
  }

  lemma StatusCounts(s: State, w: Webhook, now: int)
    requires Counted(s)
    ensures Counted(TakeNote(s, w, now))
  {
    if w.eventType.Progress? {
      forall sid
        ensures RecordsOf(Restamped(s.traffic.calls, w.call, w.eventType.status), sid) ==
                RecordsOf(s.traffic.calls, sid)
        ensures LastOf(Restamped(s.traffic.calls, w.call, w.eventType.status), sid) == LastOf(s.traffic.calls, sid)
      {
        RestampingKeepsSessions(s.traffic.calls, w.call, w.eventType.status, sid);
      }
    }
  }

  lemma SwapCounts(s: State, sid: Sid, tenant: Tenant, target: Phone)
    requires Counted(s)
    ensures Counted(Swap(s, sid, tenant, target))
  {
  }

  lemma EndCounts(s: State, sid: Sid, tenant: Tenant, now: int)
    requires Counted(s)
    ensures Counted(End(s, sid, tenant, now))
  {
  }

  lemma ExpireCounts(s: State, sid: Sid, now: int, cooldownMin: int)
    requires Counted(s)
    ensures Counted(Expire(s, sid, now, cooldownMin))
  {
  }

  lemma StepCounts(s: State, op: Op)
    requires Inv(s) && Counted(s) && Enabled(s, op)
    ensures Counted(Apply(s, op))
  {
    match op
    case OpCall(call, m, fallback) => CallCounts(s, call, m, fallback);
    case OpCreate(args, sid, c, graceMin, maxMin, now, failAt) =>
      CreateKeepsTraffic(s, args, sid, c, graceMin, maxMin, now, failAt);
      CreatedRow(s, args, sid, c, graceMin, maxMin, now, failAt);
    case OpExpire(sid, now, cooldownMin) => ExpireCounts(s, sid, now, cooldownMin);
    case OpSwap(sid, tenant, target) => SwapCounts(s, sid, tenant, target);
    case OpEnd(sid, tenant, now) => EndCounts(s, sid, tenant, now);
    case OpStatus(w, now) => StatusCounts(s, w, now);
    case _ => OtherStepsCount(s, op);
  }

  /** Over every run, call_count is the number of the session's call_records, and
      last_call_at the time of the last. */
  lemma {:induction false} CallCountIsTheNumberOfRecords(s: State, ops: seq<Op>)
    requires Inv(s) && Counted(s) && Runs(s, ops)
    ensures Counted(After(s, ops))
    decreases |ops|
  {
    if ops != [] {
      StepCounts(s, ops[0]);
      StepKeeps(s, ops[0]);
      CallCountIsTheNumberOfRecords(Apply(s, ops[0]), ops[1..]);
    }
  }

  predicate SameParties(row: SessionRow, later: SessionRow) {
    later.tenant == row.tenant && later.partyAHash == row.partyAHash && later.partyBHash == row.partyBHash
  }

  lemma CallLeavesLastCall(s: State, args: CallArgs, m: Match, fallback: Option<Tenant>)
    requires Inv(s) && MayMatch(s, args.number, args.caller, args.hint, Some(m))
    requires !Deduplicated(s.traffic.dedup, args.event, args.now)
    requires DecideCall(s, args, Some(m), fallback).record.Some?
    ensures var t := Call(s, args, Some(m), fallback);
            && m.sid in s.sessions && m.sid in t.sessions && Full(t.hashes, m.sid)
            && SameParties(s.sessions[m.sid], t.sessions[m.sid])
            && t.sessions[m.sid].lastCallAt == Some(args.now)
  {
    RecordIsOfTheMatch(s, args, Some(m), fallback);
    RoutableIsConsidered(s, args.number, m.sid, args.hint);
    CallTraffic(s, args, Some(m), fallback);
    BumpedRow(s, args, Some(m), fallback);
    CallTouchesCountersOnly(s, args, Some(m), fallback);
  }

  /** A call that was just recorded verifies both parties for a minute. */
  lemma RecordedCallIsVerified(s: State, args: CallArgs, m: Match, fallback: Option<Tenant>, who: PhoneHash, now: int)
    requires Inv(s) && MayMatch(s, args.number, args.caller, args.hint, Some(m))
    requires !Deduplicated(s.traffic.dedup, args.event, args.now)
    requires DecideCall(s, args, Some(m), fallback).record.Some? && m.sid in s.sessions
    requires who == s.sessions[m.sid].partyAHash || who == s.sessions[m.sid].partyBHash
    ensures var t, tenant := Call(s, args, Some(m), fallback), s.sessions[m.sid].tenant;
            (who, m.sid) in t.phones && CalledRecently(t.hashes, m.sid, tenant, now) <==> now - args.now <= 60_000
  {
    var t := Call(s, args, Some(m), fallback);
    CallLeavesLastCall(s, args, m, fallback);
    CallKeeps(s, args, Some(m), fallback);
    VerifiedExactly(t, who, s.sessions[m.sid].tenant, now, m.sid);
  }

  /** What a routable session's hash says is what was agreed. */
  lemma HashFollowsContract(s: State, k: map<Sid, Contract>, n: Number, sid: Sid)
    requires Inv(s) && Kept(s, k) && Routable(s, n, sid)
    ensures sid in k
    ensures var h, agreed := s.hashes[sid], k[sid];
            && h.id == Some(sid) && h.tenant == Some(agreed.tenant)
            && h.partyB == Some(HashPhone(agreed.customer, agreed.tenant))
            && h.mode == Some(agreed.mode) && h.recording == Some(agreed.recording)
  {
    RoutableIsConsidered(s, n, sid, None);
  }

  /** A call record names the customer in force when the call was routed. */
  lemma RecordNamesTheTargetInForce(s: State, k: map<Sid, Contract>, args: CallArgs, m: Match, fallback: Option<Tenant>)
    requires Inv(s) && Kept(s, k) && MayMatch(s, args.number, args.caller, args.hint, Some(m))
    requires DecideCall(s, args, Some(m), fallback).record.Some?
    ensures m.sid in k
    ensures var record := DecideCall(s, args, Some(m), fallback).record.value;
            && record.session == m.sid
            && record.partyB == Some(HashPhone(k[m.sid].customer, k[m.sid].tenant))
            && record.direction == (if m.callerIsA then A_TO_B else B_TO_A)
            && record.simulated == (k[m.sid].mode == Sandbox)
            && record.consentPlayed == (k[m.sid].recording && k[m.sid].mode == Live)
  {
    HashFollowsContract(s, k, args.number, m.sid);
    assert DecideCall(s, args, Some(m), fallback) ==
           DecideMatched(s, args.number, s.hashes[m.sid], m.callerIsA, args.config, args.event, args.now);
    RecordOfMatch(s, args.number, s.hashes[m.sid], m.callerIsA, args.config, args.event, args.now);
  }

  // -------------------------------------------------------- status webhooks

  /** The event under which the webhook of an incoming call is routed. */
  ghost predicate IsIncoming(event: EventId) {
    exists call: string :: event == EventIdOf(call, IncomingCall)
  }

  /** Every call came in through the webhook handler, with a parsed webhook. */
  ghost predicate ThroughTheHandler(op: Op) {
    op.OpCall? ==> exists w :: Sent(w) && w.eventType.IncomingCall? && op.call.event == w.event
  }

  lemma HandledCallsAreIncoming(op: Op)
    requires op.OpCall? && ThroughTheHandler(op)
    ensures IsIncoming(op.call.event)
  {
    var w :| Sent(w) && w.eventType.IncomingCall? && op.call.event == w.event;
    var call, b, stamp :| w == Parse(call, b, stamp);
    assert w.event == EventIdOf(CallKey(call, stamp), IncomingCall);
  }

  /** A webhook never changes the record that an earlier webhook of the same call
      led to: the record carries the event id, the update looks for the provider's
      call id. */
  lemma StatusMissesItsOwnCall(s: State, call: string, first: Body, stamp: string, later: Body, again: string, now: int,
                               i: nat)
    requires i < |s.traffic.calls| && s.traffic.calls[i].event == Parse(call, first, stamp).event
    ensures TakeNote(s, Parse(call, later, again), now).traffic.calls[i] == s.traffic.calls[i]
  {
    assert |Parse(call, first, stamp).event| > |call|;
  }

  /** The records a fresh status webhook does change are exactly those of another
      call whose event id the provider reuses as a call id. */
  lemma StatusReachesExactlyNamesakes(s: State, w: Webhook, now: int, i: nat)
    requires i < |s.traffic.calls| && w.eventType.Progress? && s.traffic.calls[i].status != w.eventType.status
    requires !Deduplicated(s.traffic.dedup, w.event, now)
    ensures TakeNote(s, w, now).traffic.calls[i].status == w.eventType.status <==> s.traffic.calls[i].event == w.call
  {
  }

  ghost predicate AllRinging(s: State) {
    forall i :: 0 <= i < |s.traffic.calls| ==>
      s.traffic.calls[i].status == Ringing && IsIncoming(s.traffic.calls[i].event)
  }

  /** A status webhook whose call id is no event id of an incoming call. */
  ghost predicate OrdinaryId(op: Op) {
    op.OpStatus? ==> !IsIncoming(op.webhook.call)
  }

  lemma RecordedRinging(s: State, args: CallArgs, m: Option<Match>, fallback: Option<Tenant>)
    requires MayMatch(s, args.number, args.caller, args.hint, m)
    ensures var record := DecideCall(s, args, m, fallback).record; record.Some? ==> record.value.status == Ringing
  {
  }

  lemma CallKeepsRinging(s: State, args: CallArgs, m: Option<Match>, fallback: Option<Tenant>)
    requires AllRinging(s) && IsIncoming(args.event) && MayMatch(s, args.number, args.caller, args.hint, m)
    ensures AllRinging(Call(s, args, m, fallback))
  {
    CallTraffic(s, args, m, fallback);
    RecordedRinging(s, args, m, fallback);
  }

  lemma StatusKeepsRinging(s: State, w: Webhook, now: int)
    requires AllRinging(s) && !IsIncoming(w.call)
    ensures AllRinging(TakeNote(s, w, now))
  {
  }

  lemma StepKeepsRinging(s: State, op: Op)
    requires AllRinging(s) && Enabled(s, op) && ThroughTheHandler(op) && OrdinaryId(op)
    ensures AllRinging(Apply(s, op))
  {
    match op
    case OpCall(call, m, fallback) =>
      HandledCallsAreIncoming(op);
      CallKeepsRinging(s, call, m, fallback);
    case OpCreate(args, sid, c, graceMin, maxMin, now, failAt) =>
      CreateKeepsTraffic(s, args, sid, c, graceMin, maxMin, now, failAt);
    case OpStatus(w, now) => StatusKeepsRinging(s, w, now);
    case _ => assert Apply(s, op).traffic.calls == s.traffic.calls;
  }

  /** Over every run in which calls come in through the handler and no provider id
      is such a namesake, no call record ever leaves RINGING, whatever the status
      webhooks say. */
  lemma {:induction false} CallRecordsRingForever(s: State, ops: seq<Op>)
    requires AllRinging(s) && Runs(s, ops)
    requires forall i :: 0 <= i < |ops| ==> ThroughTheHandler(ops[i]) && OrdinaryId(ops[i])
    ensures AllRinging(After(s, ops))
    decreases |ops|
  {
    if ops != [] {
      StepKeepsRinging(s, ops[0]);
      CallRecordsRingForever(Apply(s, ops[0]), ops[1..]);
    }
  }

  /** A namesake contains a colon; so call ids without one are all ordinary, and
      so is the empty id of a webhook that carries none. */
  lemma NamesakesHaveColons(call: string)
    requires IsIncoming(call)
    ensures ':' in call
  {
    var c: string :| call == EventIdOf(c, IncomingCall);
    assert call[|c|] == ':';
  }
}
