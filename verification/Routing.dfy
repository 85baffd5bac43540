/** src/services/call-router.ts and src/services/sms-router.ts: who is connected
    to whom, the dedup cache, and the records a routed call or message leaves. */
module RoutingModel {
  import opened Types
  import opened StoreModel

  const DEDUP_TTL_MS := 60_000
  const DEFAULT_CONSENT_AUDIO_URL := "https://cdn.relavoi.com/audio/consent_default_en.mp3"
  const OUT_OF_SERVICE := "This number is no longer in service"

  // -------------------------------------------------------------- matching

  /** The session a caller was matched to, and the side the caller is on. */
  datatype Match = Match(sid: Sid, callerIsA: bool)

  /** The tests the match loops apply to one session before its participants. */
  predicate Considered(hashes: map<Sid, SessionHash>, sid: Sid, hint: Option<Tenant>) {
    && sid in hashes
    && var h := hashes[sid];
    && h.id.Some?
    && h.state.Some? && IsLive(h.state.value)
    && h.tenant.Some?
    && (hint.Some? ==> h.tenant == hint)
  }

  /** The caller's side in a session, side A being tested first. */
  function SideOf(h: SessionHash, caller: Phone): Option<bool>
    requires h.tenant.Some?
  {
    var who := Some(HashPhone(caller, h.tenant.value));
    if h.partyA == who then Some(true) else if h.partyB == who then Some(false) else None
  }

  predicate MatchesIn(hashes: map<Sid, SessionHash>, m: Match, caller: Phone, hint: Option<Tenant>) {
    && Considered(hashes, m.sid, hint)
    && SideOf(hashes[m.sid], caller) == Some(m.callerIsA)
  }

  /** An outcome of the match loop under some order of SMEMBERS. */
  ghost predicate MayMatch(s: State, n: Number, caller: Phone, hint: Option<Tenant>, m: Option<Match>) {
    match m
    case Some(found) => (n, found.sid) in s.hosted && MatchesIn(s.hashes, found, caller, hint)
    case None => forall sid, side :: (n, sid) in s.hosted ==> !MatchesIn(s.hashes, Match(sid, side), caller, hint)
  }

  // ----------------------------------------------------------------- calls

  function DeadLine(message: string, tenant: Option<Tenant>): RouteDecision {
    RouteDecision(DEAD, None, None, None, Some(message), None, tenant)
  }

  /** The tenant's default for a call no session answers. */
  function NoSessionDecision(tenant: Option<Tenant>, config: Option<TenantRow>): RouteDecision {
    if tenant.None? || config.None? then DeadLine(OUT_OF_SERVICE, tenant)
    else
      var cfg := config.value;
      if cfg.expiredBehavior == REDIRECT_SUPPORT && cfg.supportPhone.Some? && cfg.supportPhone.value != ""
      then RouteDecision(REDIRECT, cfg.supportPhone, None, None, None, None, tenant)
      else if cfg.expiredBehavior == PLAY_MESSAGE && cfg.expiredAudio.Some? && cfg.expiredAudio.value != ""
      then RouteDecision(PLAY, None, None, cfg.expiredAudio, None, None, tenant)
      else DeadLine(OUT_OF_SERVICE, tenant)
  }

  predicate DirectionForbids(h: SessionHash, callerIsA: bool) {
    || (h.direction == Some(A_TO_B_ONLY) && !callerIsA)
    || (h.direction == Some(B_TO_A_ONLY) && callerIsA)
  }

  /** The other party's phone, decrypted from the database row. */
  function OtherPhone(sessions: map<Sid, SessionRow>, sid: Sid, callerIsA: bool, tenant: Tenant): Option<Phone> {
    if sid !in sessions then None
    else
      var phone := Decrypt(if callerIsA then sessions[sid].partyBEnc else sessions[sid].partyAEnc, tenant);
      if phone == Some("") then None else phone
  }

  /** A decision, and whether the attempt is recorded against a session. */
  datatype Ruling = Ruling(decision: RouteDecision, record: Option<CallRecord>)

  /** The decision for a matched call, reading the tenant row when it needs one. */
  function DecideMatched(s: State, n: Number, h: SessionHash, callerIsA: bool, config: Option<TenantRow>,
                         event: EventId, now: int): Ruling
    requires h.id.Some? && h.tenant.Some?
  {
    var tenant := h.tenant.value;
    var side := if callerIsA then A_TO_B else B_TO_A;
    if h.mode != Some(Live) then
      Ruling(RouteDecision(PLAY, None, None, None, Some("This is a Relavoi sandbox session. No call was connected."),
                           h.id, h.tenant),
             Some(CallRecord(h.id.value, event, side, h.partyB, false, true, now, Ringing)))
    else if DirectionForbids(h, callerIsA) then
      Ruling(DeadLine("This number is not authorized to call this destination", h.tenant), None)
    else
      var destination := OtherPhone(s.sessions, h.id.value, callerIsA, tenant);
      if destination.None? then Ruling(DeadLine("Destination unavailable", h.tenant), None)
      else if h.recording == Some(true) && h.consent.GetOr(NO_PROMPT) == NO_PROMPT then
        Ruling(DeadLine("Configuration error", h.tenant), None)
      else
        var recorded := h.recording == Some(true);
        var audio :=
          if !recorded then None
          else if h.consent == Some(CUSTOM) && config.Some? && config.value.consentAudio.Some?
          then config.value.consentAudio
          else Some(DEFAULT_CONSENT_AUDIO_URL);
        Ruling(RouteDecision(if recorded then CONSENT_THEN_FORWARD else FORWARD, destination, Some(n), audio, None,
                             h.id, h.tenant),
               Some(CallRecord(h.id.value, event, side, h.partyB, recorded, false, now, Ringing)))
  }

  /** Everything about an incoming call besides the state it finds. */
  datatype CallArgs = CallArgs(
    number: Number, caller: Phone, hint: Option<Tenant>, event: EventId,
    config: Option<TenantRow>, // the tenant row the router reads
    now: int)

  ghost predicate NewestOn(sessions: map<Sid, SessionRow>, n: Number, sid: Sid) {
    && sid in sessions && sessions[sid].proxy == n
    && forall other :: other in sessions && sessions[other].proxy == n ==>
      sessions[other].createdAt <= sessions[sid].createdAt
  }

  /** Without a match the tenant is the hint, or that of a newest session row on the number. */
  ghost predicate FallbackTenant(s: State, n: Number, hint: Option<Tenant>, tenant: Option<Tenant>) {
    if hint.Some? then tenant == hint
    else if forall sid :: sid in s.sessions ==> s.sessions[sid].proxy != n then tenant == None
    else exists sid :: NewestOn(s.sessions, n, sid) && tenant == Some(s.sessions[sid].tenant)
  }

  function DecideCall(s: State, args: CallArgs, m: Option<Match>, fallback: Option<Tenant>): Ruling
    requires m.Some? ==> Considered(s.hashes, m.value.sid, args.hint)
  {
    match m
    case None => Ruling(NoSessionDecision(fallback, args.config), None)
    case Some(found) =>
      DecideMatched(s, args.number, s.hashes[found.sid], found.callerIsA, args.config, args.event, args.now)
  }

  predicate Deduplicated(dedup: map<EventId, Cached>, event: EventId, now: int) {
    event in dedup && now < dedup[event].until
  }

  /** last_call_at and call_count, in Redis and in Postgres. */
  function Bump(s: State, sid: Sid, now: int): State {
    var h := HashAt(s.hashes, sid);
    s.(hashes := s.hashes[sid := h.(lastCallAt := Some(now), callCount := h.callCount + 1)],
       sessions := if sid !in s.sessions then s.sessions
                   else
                     var row := s.sessions[sid];
                     s.sessions[sid := row.(lastCallAt := Some(now), callCount := row.callCount + 1)])
  }

  function Remember(s: State, event: EventId, entry: Cached): State {
    s.(traffic := s.traffic.(dedup := s.traffic.dedup[event := entry]))
  }

  function RecordCall(s: State, record: CallRecord): State {
    Bump(s.(traffic := s.traffic.(calls := s.traffic.calls + [record])), record.session, record.at)
  }

  /** The writes that carry out a ruling. */
  function Enact(s: State, event: EventId, now: int, ruling: Ruling): State {
    var cached := Remember(s, event, CallCached(ruling.decision, now + DEDUP_TTL_MS));
    if ruling.record.None? then cached else RecordCall(cached, ruling.record.value)
  }

  /** The writes of one routed call. */
  function Call(s: State, args: CallArgs, m: Option<Match>, fallback: Option<Tenant>): State
    requires m.Some? ==> Considered(s.hashes, m.value.sid, args.hint)
  {
    if Deduplicated(s.traffic.dedup, args.event, args.now) then s
    else Enact(s, args.event, args.now, DecideCall(s, args, m, fallback))
  }

  datatype Reply = Fresh(call: RouteDecision) | FreshSms(sms: SmsDecision) | Replayed(entry: Cached)

  // ------------------------------------------------------------------- SMS

  datatype SmsArgs = SmsArgs(
    number: Number, from: Phone, hint: Option<Tenant>, body: string, event: EventId, now: int)

  function DecideSms(s: State, args: SmsArgs, m: Option<Match>): SmsDecision
    requires m.Some? ==> Considered(s.hashes, m.value.sid, args.hint)
  {
    match m
    case None => Drop(NO_SESSION, None)
    case Some(found) =>
      var h := s.hashes[found.sid];
      var origin := Some((found.sid, h.tenant.value));
      if DirectionForbids(h, found.callerIsA) then Drop(DIRECTION_REJECTED, origin)
      else
        var destination := OtherPhone(s.sessions, found.sid, found.callerIsA, h.tenant.value);
        if destination.None? then Drop(DESTINATION_UNAVAILABLE, origin)
        else Forward(destination.value, args.body, found.sid, h.tenant.value)
  }

  function Sms(s: State, args: SmsArgs, m: Option<Match>): State
    requires m.Some? ==> Considered(s.hashes, m.value.sid, args.hint)
  {
    if Deduplicated(s.traffic.dedup, args.event, args.now) then s
    else
      var decision := DecideSms(s, args, m);
      var cached := Remember(s, args.event, SmsCached(decision, args.now + DEDUP_TTL_MS));
      if decision.Drop? then cached
      else
        var record := SmsRecord(decision.session, if m.value.callerIsA then A_TO_B else B_TO_A,
                                Encrypt(args.body, decision.tenant), args.now);
        cached.(traffic := cached.traffic.(messages := cached.traffic.messages + [record]))
  }

  // ----------------------------------------------------------- the services

  /** The match loop that both routers run. */
  method FindMatch(store: Store, n: Number, caller: Phone, hint: Option<Tenant>) returns (matched: Option<Match>)
    ensures MayMatch(store.Snapshot(), n, caller, hint, matched)
  {
    var sessionIds := MembersOf(store.hosted, n);
    var rest := sessionIds;
    matched := None;
    while rest != {}
      invariant rest <= sessionIds
      invariant forall sid, side :: sid in sessionIds - rest ==>
                  !MatchesIn(store.hashes, Match(sid, side), caller, hint)
      decreases rest
    {
      var sid :| sid in rest;
      rest := rest - {sid};
      if Considered(store.hashes, sid, hint) {
        var h := store.hashes[sid];
        var callerHash := HashPhone(caller, h.tenant.value);
        if h.partyA == Some(callerHash) {
          matched := Some(Match(sid, true));
          break;
        }
        if h.partyB == Some(callerHash) {
          matched := Some(Match(sid, false));
          break;
        }
      }
    }
  }

  class CallRouter {
    const store: Store

    constructor (store: Store)
      ensures this.store == store
    {
      this.store := store;
    }

    /** The tenant of the most recent session row on the number. */
    method ResolveTenantForProxy(n: Number) returns (tenant: Option<Tenant>)
      ensures FallbackTenant(store.Snapshot(), n, None, tenant)
    {
      var rows := set sid | sid in store.sessions && store.sessions[sid].proxy == n;
      if rows == {} {
        assert forall sid :: sid in store.sessions && store.sessions[sid].proxy == n ==> sid in rows;
        return None;
      }
      var newest :| newest in rows;
      var rest := rows - {newest};
      while rest != {}
        invariant rest <= rows && newest in rows
        invariant forall sid :: sid in rows - rest ==> store.sessions[sid].createdAt <= store.sessions[newest].createdAt
        decreases rest
      {
        var sid :| sid in rest;
        rest := rest - {sid};
        if store.sessions[newest].createdAt < store.sessions[sid].createdAt {
          newest := sid;
        }
      }
      assert NewestOn(store.sessions, n, newest);
      return Some(store.sessions[newest].tenant);
    }

    method WriteCallRecord(record: CallRecord)
      modifies store
      ensures store.Snapshot() == RecordCall(old(store.Snapshot()), record)
    {
      var sid := record.session;
      store.traffic := store.traffic.(calls := store.traffic.calls + [record]);
      var h := HashAt(store.hashes, sid);
      store.hashes := store.hashes[sid := h.(lastCallAt := Some(record.at))];
      store.hashes := store.hashes[sid := store.hashes[sid].(callCount := h.callCount + 1)];
      if sid in store.sessions {
        var row := store.sessions[sid];
        store.sessions := store.sessions[sid := row.(lastCallAt := Some(record.at), callCount := row.callCount + 1)];
      }
      assert store.hashes == old(store.hashes)[sid := h.(lastCallAt := Some(record.at), callCount := h.callCount + 1)];
    }

    /** cacheDecision, then the call record and the counters. */
    method CarryOut(event: EventId, now: int, ruling: Ruling)
      modifies store
      ensures store.Snapshot() == Enact(old(store.Snapshot()), event, now, ruling)
    {
      store.traffic := store.traffic.(
        dedup := store.traffic.dedup[event := CallCached(ruling.decision, now + DEDUP_TTL_MS)]);
      if ruling.record.Some? {
        WriteCallRecord(ruling.record.value);
      }
    }

    method RouteIncomingCall(args: CallArgs) returns (reply: Reply)
      modifies store
      ensures Deduplicated(old(store.traffic).dedup, args.event, args.now) ==>
                && store.Snapshot() == old(store.Snapshot())
                && reply == Replayed(old(store.traffic).dedup[args.event])
      ensures !Deduplicated(old(store.traffic).dedup, args.event, args.now) ==>
                exists m: Option<Match>, fallback: Option<Tenant> ::
                  && MayMatch(old(store.Snapshot()), args.number, args.caller, args.hint, m)
                  && FallbackTenant(old(store.Snapshot()), args.number, args.hint, fallback)
                  && store.Snapshot() == Call(old(store.Snapshot()), args, m, fallback)
                  && reply == Fresh(DecideCall(old(store.Snapshot()), args, m, fallback).decision)
    {
      if args.event in store.traffic.dedup && args.now < store.traffic.dedup[args.event].until {
        return Replayed(store.traffic.dedup[args.event]);
      }
      var matched := FindMatch(store, args.number, args.caller, args.hint);
      var fallback := args.hint;
      if args.hint.None? {
        fallback := ResolveTenantForProxy(args.number);
      }
      var ruling := DecideCall(store.Snapshot(), args, matched, fallback);
      CarryOut(args.event, args.now, ruling);
      return Fresh(ruling.decision);
    }
  }

  class SmsRouter {
    const store: Store

    constructor (store: Store)
      ensures this.store == store
    {
      this.store := store;
    }

    method RouteIncomingSms(args: SmsArgs) returns (reply: Reply)
      modifies store
      ensures Deduplicated(old(store.traffic).dedup, args.event, args.now) ==>
                && store.Snapshot() == old(store.Snapshot())
                && reply == Replayed(old(store.traffic).dedup[args.event])
      ensures !Deduplicated(old(store.traffic).dedup, args.event, args.now) ==>
                exists m: Option<Match> ::
                  && MayMatch(old(store.Snapshot()), args.number, args.from, args.hint, m)
                  && store.Snapshot() == Sms(old(store.Snapshot()), args, m)
                  && reply == FreshSms(DecideSms(old(store.Snapshot()), args, m))
    {
      if args.event in store.traffic.dedup && args.now < store.traffic.dedup[args.event].until {
        return Replayed(store.traffic.dedup[args.event]);
      }
      var matched := FindMatch(store, args.number, args.from, args.hint);
      var decision := DecideSms(store.Snapshot(), args, matched);
      store.traffic := store.traffic.(
        dedup := store.traffic.dedup[args.event := SmsCached(decision, args.now + DEDUP_TTL_MS)]);
      if decision.Forward? {
        var record := SmsRecord(decision.session, if matched.value.callerIsA then A_TO_B else B_TO_A,
                                Encrypt(args.body, decision.tenant), args.now);
        store.traffic := store.traffic.(messages := store.traffic.messages + [record]);
      }
      return FreshSms(decision);
    }
  }
}
