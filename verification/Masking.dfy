/** What callers get over whole runs: who reaches whom, when the choice of the
    session is forced, and what the participant index is worth. */
module MaskingModel {
  import opened Types
  import opened StoreModel
  import opened NumberPoolModel
  import opened SessionManagerModel
  import opened RoutingModel
  import opened LifecycleModel

  // ------------------------------------------------ what tenants asked for

  /** A masking agreement, as the accepted requests alone define it. */
  datatype Contract = Contract(
    tenant: Tenant, agent: Phone, customer: Phone,
    direction: DirectionMode, recording: bool, consent: ConsentPrompt, mode: Mode)

  /** Contracts begin with a creation that reached the database and change only
      with an accepted swap, which replaces the customer. */
  ghost function Agreed(k: map<Sid, Contract>, s: State, op: Op): map<Sid, Contract> {
    match op
    case OpCreate(args, sid, _, _, _, _, failAt) =>
      if failAt == Some(InsertFails) then k
      else k[sid := Contract(args.tenant, args.agent, args.customer, args.direction, args.recording, args.consent,
                             args.mode)]
    case OpSwap(sid, tenant, target) =>
      if JudgeSwap(s, sid, tenant, target) == Swapped && sid in k then k[sid := k[sid].(customer := target)] else k
    case _ => k
  }

  ghost function ContractsAfter(k: map<Sid, Contract>, s: State, ops: seq<Op>): map<Sid, Contract>
    requires Runs(s, ops)
    decreases |ops|
  {
    if ops == [] then k else ContractsAfter(Agreed(k, s, ops[0]), Apply(s, ops[0]), ops[1..])
  }

  predicate RowKeeps(row: SessionRow, c: Contract) {
    && row.tenant == c.tenant
    && row.partyAEnc == Encrypt(c.agent, c.tenant)
    && row.partyBEnc == Encrypt(c.customer, c.tenant)
    && row.direction == c.direction
    && row.recording == c.recording
    && row.consent == c.consent
    && row.mode == c.mode
  }

  predicate Kept(s: State, k: map<Sid, Contract>) {
    k.Keys == s.sessions.Keys && forall sid :: sid in k ==> RowKeeps(s.sessions[sid], k[sid])
  }

  lemma SameRowsKeepContracts(s: State, t: State, k: map<Sid, Contract>)
    requires Kept(s, k) && t.sessions.Keys == s.sessions.Keys
    requires forall sid :: sid in k && RowKeeps(s.sessions[sid], k[sid]) ==> RowKeeps(t.sessions[sid], k[sid])
    ensures Kept(t, k)
  {
  }

  lemma ExpireKeepsContracts(s: State, k: map<Sid, Contract>, sid: Sid, now: int, cooldownMin: int)
    requires Kept(s, k)
    ensures Kept(Expire(s, sid, now, cooldownMin), k)
  {
    if Expires(s, sid) {
      var row := s.sessions[sid];
      var marked := s.(sessions := s.sessions[sid := row.(state := EXPIRED)]);
      SameRowsKeepContracts(s, marked, k);
      ReleaseLedgers(marked, ReleaseRegion(s.pool, None, row.proxy), row.proxy, sid, CooldownUntil(now, cooldownMin));
      SameRowsKeepContracts(marked, Expire(s, sid, now, cooldownMin), k);
    }
  }

  lemma CreateKeepsContracts(s: State, k: map<Sid, Contract>, op: Op)
    requires Kept(s, k) && op.OpCreate? && Enabled(s, op)
    ensures Kept(Apply(s, op), Agreed(k, s, op))
  {
    CreatedRow(s, op.args, op.sid, op.choice, op.graceMin, op.maxMin, op.now, op.failAt);
  }

  lemma EndKeepsContracts(s: State, k: map<Sid, Contract>, sid: Sid, tenant: Tenant, now: int)
    requires Kept(s, k)
    ensures Kept(End(s, sid, tenant, now), k)
  {
  }

  lemma CallKeepsContracts(s: State, k: map<Sid, Contract>, args: CallArgs, m: Option<Match>, fallback: Option<Tenant>)
    requires Kept(s, k) && MayMatch(s, args.number, args.caller, args.hint, m)
    ensures Kept(Call(s, args, m, fallback), k)
  {
    CallTouchesCountersOnly(s, args, m, fallback);
    SameRowsKeepContracts(s, Call(s, args, m, fallback), k);
  }

  lemma SwapKeepsContracts(s: State, k: map<Sid, Contract>, sid: Sid, tenant: Tenant, target: Phone)
    requires Kept(s, k)
    ensures Kept(Swap(s, sid, tenant, target), Agreed(k, s, OpSwap(sid, tenant, target)))
  {
  }

  lemma StepKeepsContracts(s: State, k: map<Sid, Contract>, op: Op)
    requires Kept(s, k) && Enabled(s, op)
    ensures Kept(Apply(s, op), Agreed(k, s, op))
  {
    match op
    case OpCreate(_, _, _, _, _, _, _) => CreateKeepsContracts(s, k, op);
    case OpEnd(sid, tenant, now) => EndKeepsContracts(s, k, sid, tenant, now);
    case OpSwap(sid, tenant, target) => SwapKeepsContracts(s, k, sid, tenant, target);
    case OpExpire(sid, now, cooldownMin) => ExpireKeepsContracts(s, k, sid, now, cooldownMin);
    case OpCall(call, m, fallback) => CallKeepsContracts(s, k, call, m, fallback);
    case _ => assert Apply(s, op).sessions == s.sessions;
  }

  lemma {:induction false} RunsKeepContracts(s: State, k: map<Sid, Contract>, ops: seq<Op>)
    requires Kept(s, k) && Inv(s) && Runs(s, ops)
    ensures Kept(After(s, ops), ContractsAfter(k, s, ops)) && Inv(After(s, ops))
    decreases |ops|
  {
    if ops != [] {
      StepKeepsContracts(s, k, ops[0]);
      StepKeeps(s, ops[0]);
      RunsKeepContracts(Apply(s, ops[0]), Agreed(k, s, ops[0]), ops[1..]);
    }
  }

  // ---------------------------------------------------- the match is forced

  /** The number answers for the session. */
  predicate Routable(s: State, n: Number, sid: Sid) {
    (n, sid) in s.hosted && Full(s.hashes, sid)
  }

  /** The caller is one of the session's two participants. */
  predicate TakesPart(s: State, sid: Sid, caller: Phone) {
    && sid in s.hashes
    && s.hashes[sid].tenant.Some?
    && SideOf(s.hashes[sid], caller).Some?
  }

  /** The router looks at sessions of one tenant only, because it is told which
      or because the number hosts no other. */
  ghost predicate OneTenant(s: State, n: Number, hint: Option<Tenant>, tenant: Tenant) {
    hint == Some(tenant)
    || (hint == None && forall sid :: Routable(s, n, sid) ==> s.hashes[sid].tenant == Some(tenant))
  }

  /** A routable session is considered unless the hint is for another tenant. */
  lemma RoutableIsConsidered(s: State, n: Number, sid: Sid, hint: Option<Tenant>)
    requires Inv(s) && Routable(s, n, sid)
    ensures sid in s.sessions && HashAgrees(s.hashes[sid], sid, s.sessions[sid]) && RowOk(s.sessions[sid])
    ensures s.sessions[sid].proxy == n && IsLive(s.sessions[sid].state)
    ensures Considered(s.hashes, sid, hint) <==> hint == None || hint == Some(s.sessions[sid].tenant)
  {
    assert SessionOk(LedgersOf(s), sid);
  }

  /** Two matches of one caller within one tenant are the same match. */
  lemma SameTenantSameMatch(s: State, n: Number, caller: Phone, hint: Option<Tenant>, p: Match, q: Match)
    requires Inv(s)
    requires (n, p.sid) in s.hosted && MatchesIn(s.hashes, p, caller, hint)
    requires (n, q.sid) in s.hosted && MatchesIn(s.hashes, q, caller, hint)
    requires s.hashes[p.sid].tenant == s.hashes[q.sid].tenant
    ensures p == q
  {
    assert ApartFromOthers(LedgersOf(s), p.sid);
  }

  /** The loop cannot miss a session that matches. */
  lemma MatchIsFound(s: State, n: Number, caller: Phone, hint: Option<Tenant>, p: Match, q: Option<Match>)
    requires (n, p.sid) in s.hosted && MatchesIn(s.hashes, p, caller, hint)
    requires MayMatch(s, n, caller, hint, q)
    ensures q.Some?
  {
    assert MatchesIn(s.hashes, Match(p.sid, p.callerIsA), caller, hint);
  }

  /** Whatever the order of SMEMBERS, a participant is matched to its session. */
  lemma MatchIsForced(s: State, n: Number, sid: Sid, side: bool, caller: Phone, hint: Option<Tenant>, m: Option<Match>)
    requires Inv(s) && Routable(s, n, sid)
    requires TakesPart(s, sid, caller) && SideOf(s.hashes[sid], caller) == Some(side)
    requires OneTenant(s, n, hint, s.hashes[sid].tenant.value)
    requires MayMatch(s, n, caller, hint, m)
    ensures m == Some(Match(sid, side))
  {
    RoutableIsConsidered(s, n, sid, hint);
    var expected := Match(sid, side);
    MatchIsFound(s, n, caller, hint, expected, m);
    RoutableIsConsidered(s, n, m.value.sid, hint);
    SameTenantSameMatch(s, n, caller, hint, expected, m.value);
  }

  /** The caller takes part in sessions of two tenants on the number. */
  ghost predicate InTwoTenants(s: State, n: Number, caller: Phone) {
    exists sid, other ::
      && Routable(s, n, sid) && TakesPart(s, sid, caller)
      && Routable(s, n, other) && TakesPart(s, other, caller)
      && s.hashes[sid].tenant != s.hashes[other].tenant
  }

  /** Without a hint, the match of a caller is forced if and only if the caller
      does not take part in sessions of two tenants on the number. */
  lemma MatchIsForcedExactlyWithinATenant(s: State, n: Number, caller: Phone)
    requires Inv(s)
    ensures (forall p, q :: MayMatch(s, n, caller, None, p) && MayMatch(s, n, caller, None, q) ==> p == q)
            <==> !InTwoTenants(s, n, caller)
  {
    if sid, other :| && Routable(s, n, sid) && TakesPart(s, sid, caller)
                     && Routable(s, n, other) && TakesPart(s, other, caller)
                     && s.hashes[sid].tenant != s.hashes[other].tenant
    {
      RoutableIsConsidered(s, n, sid, None);
      RoutableIsConsidered(s, n, other, None);
      var p := Some(Match(sid, SideOf(s.hashes[sid], caller).value));
      var q := Some(Match(other, SideOf(s.hashes[other], caller).value));
      assert MayMatch(s, n, caller, None, p) && MayMatch(s, n, caller, None, q) && p != q;
    } else {
      forall p, q | MayMatch(s, n, caller, None, p) && MayMatch(s, n, caller, None, q) ensures p == q {
        if p.Some? { MatchIsFound(s, n, caller, None, p.value, q); }
        if q.Some? { MatchIsFound(s, n, caller, None, q.value, p); }
        if p.Some? && q.Some? {
          assert Routable(s, n, p.value.sid) && TakesPart(s, p.value.sid, caller);
          assert Routable(s, n, q.value.sid) && TakesPart(s, q.value.sid, caller);
          SameTenantSameMatch(s, n, caller, None, p.value, q.value);
        }
      }
    }
  }

  /** The allocator never prevents that: hashes of different tenants differ, so
      a number that hosts only other tenants overlaps with nobody. */
  lemma TenantsDoNotSeeEachOther(s: State, n: Number, args: CreateArgs)
    requires Inv(s)
    requires forall sid :: (n, sid) in s.hosted && sid in s.sessions ==> s.sessions[sid].tenant != args.tenant
    ensures !Overlap(s, n, AgentHash(args), CustomerHash(args))
  {
    forall sid | (n, sid) in s.hosted ensures !SessionTouches(s.hashes, sid, AgentHash(args), CustomerHash(args)) {
      assert SessionOk(LedgersOf(s), sid);
    }
  }

  // ------------------------------------------------------ who reaches whom

  predicate SideForbidden(c: Contract, callerIsA: bool) {
    (c.direction == A_TO_B_ONLY && !callerIsA) || (c.direction == B_TO_A_ONLY && callerIsA)
  }

  /** What announces a recording: the tenant's own audio if the session asks for it
      and there is one, else the platform's. */
  function ConsentAudio(c: Contract, config: Option<TenantRow>): string {
    if c.consent == CUSTOM && config.Some? && config.value.consentAudio.Some? then config.value.consentAudio.value
    else "https://cdn.relavoi.com/audio/consent_default_en.mp3"
  }

  /** What a participant's call must get, read off the contract alone; the attempt
      is on record unless the direction is forbidden. */
  predicate HonoursContract(r: Ruling, n: Number, sid: Sid, c: Contract, callerIsA: bool, config: Option<TenantRow>) {
    var d := r.decision;
    && d.tenant == Some(c.tenant)
    && (r.record.Some? <==> c.mode == Sandbox || !SideForbidden(c, callerIsA))
    && if c.mode == Sandbox then
         && d.action == PLAY && d.destination == None && d.callerId == None && d.audioUrl == None
         && d.session == Some(sid)
         && d.message == Some("This is a Relavoi sandbox session. No call was connected.")
       else if SideForbidden(c, callerIsA) then
         && d.action == DEAD && d.destination == None && d.callerId == None && d.audioUrl == None
         && d.session == None
         && d.message == Some("This number is not authorized to call this destination")
       else
         && d.action == (if c.recording then CONSENT_THEN_FORWARD else FORWARD)
         && d.destination == Some(if callerIsA then c.customer else c.agent)
         && d.callerId == Some(n)
         && d.session == Some(sid)
         && d.audioUrl == (if c.recording then Some(ConsentAudio(c, config)) else None)
         && d.message == None
  }

  /** The hash and the phones carry the contract's terms. */
  predicate HashKeeps(s: State, h: SessionHash, sid: Sid, c: Contract) {
    && h.id == Some(sid) && h.tenant == Some(c.tenant)
    && h.direction == Some(c.direction) && h.mode == Some(c.mode)
    && h.recording == Some(c.recording) && h.consent == Some(c.consent)
    && (c.recording ==> c.consent != NO_PROMPT)
    && OtherPhone(s.sessions, sid, true, c.tenant) == Some(c.customer)
    && OtherPhone(s.sessions, sid, false, c.tenant) == Some(c.agent)
  }

  lemma RoutableKeepsTerms(s: State, k: map<Sid, Contract>, n: Number, sid: Sid)
    requires Inv(s) && Kept(s, k) && Routable(s, n, sid) && sid in k
    ensures HashKeeps(s, s.hashes[sid], sid, k[sid])
  {
    RoutableIsConsidered(s, n, sid, None);
  }

  lemma DecisionHonoursTerms(s: State, n: Number, h: SessionHash, sid: Sid, c: Contract, callerIsA: bool,
                             config: Option<TenantRow>, event: EventId, now: int)
    requires HashKeeps(s, h, sid, c)
    ensures HonoursContract(DecideMatched(s, n, h, callerIsA, config, event, now), n, sid, c, callerIsA, config)
  {
    if c.mode == Live {
      assert DirectionForbids(h, callerIsA) <==> SideForbidden(c, callerIsA);
      assert OtherPhone(s.sessions, h.id.value, callerIsA, h.tenant.value).Some?;
    }
  }

  lemma ParticipantsSide(s: State, k: map<Sid, Contract>, n: Number, sid: Sid, callerIsA: bool, caller: Phone)
    requires Inv(s) && Kept(s, k) && sid in k && Routable(s, n, sid)
    requires caller == if callerIsA then k[sid].agent else k[sid].customer
    ensures s.hashes[sid].tenant == Some(k[sid].tenant)
    ensures TakesPart(s, sid, caller) && SideOf(s.hashes[sid], caller) == Some(callerIsA)
  {
    RoutableIsConsidered(s, n, sid, None);
  }

  /** Over every run: a call to a number by a party of a session it hosts is
      decided by that session's current contract, so the agent reaches the
      customer in force after the swaps so far and that customer the agent. */
  lemma CallsReachTheOtherParty(boot: State, ops: seq<Op>, args: CallArgs, sid: Sid, callerIsA: bool, m: Option<Match>,
                                fallback: Option<Tenant>)
    requires Boots(boot) && Runs(boot, ops)
    requires Routable(After(boot, ops), args.number, sid)
    requires var k := ContractsAfter(map[], boot, ops);
             && sid in k
             && OneTenant(After(boot, ops), args.number, args.hint, k[sid].tenant)
             && args.caller == if callerIsA then k[sid].agent else k[sid].customer
    requires MayMatch(After(boot, ops), args.number, args.caller, args.hint, m)
    ensures m == Some(Match(sid, callerIsA))
    ensures HonoursContract(DecideCall(After(boot, ops), args, m, fallback), args.number, sid,
                            ContractsAfter(map[], boot, ops)[sid], callerIsA, args.config)
  {
    var s, k := After(boot, ops), ContractsAfter(map[], boot, ops);
    RunsKeepContracts(boot, map[], ops);
    ParticipantsSide(s, k, args.number, sid, callerIsA, args.caller);
    MatchIsForced(s, args.number, sid, callerIsA, args.caller, args.hint, m);
    RoutableKeepsTerms(s, k, args.number, sid);
    DecisionHonoursTerms(s, args.number, s.hashes[sid], sid, k[sid], callerIsA, args.config, args.event, args.now);
  }

  /** Every session that calls are routed to is under contract. */
  lemma RoutableIsUnderContract(boot: State, ops: seq<Op>, n: Number, sid: Sid)
    requires Boots(boot) && Runs(boot, ops) && Routable(After(boot, ops), n, sid)
    ensures sid in ContractsAfter(map[], boot, ops)
  {
    RunsKeepContracts(boot, map[], ops);
    RoutableIsConsidered(After(boot, ops), n, sid, None);
  }

  /** The caller is a party to no contract the number serves within the hint. */
  ghost predicate Stranger(s: State, k: map<Sid, Contract>, n: Number, caller: Phone, hint: Option<Tenant>) {
    forall sid :: Routable(s, n, sid) && sid in k && (hint.Some? ==> hint.value == k[sid].tenant)
                  ==> caller != k[sid].agent && caller != k[sid].customer
  }

  lemma StrangersAreNotMatched(s: State, k: map<Sid, Contract>, n: Number, caller: Phone, hint: Option<Tenant>,
                               m: Option<Match>)
    requires Inv(s) && Kept(s, k) && Stranger(s, k, n, caller, hint) && MayMatch(s, n, caller, hint, m)
    ensures m == None
  {
    forall sid, side | (n, sid) in s.hosted ensures !MatchesIn(s.hashes, Match(sid, side), caller, hint) {
      if Full(s.hashes, sid) { RoutableIsConsidered(s, n, sid, hint); }
    }
  }

  /** A redirection is set up for calls that no session answers. */
  predicate Redirects(tenant: Option<Tenant>, config: Option<TenantRow>) {
    && tenant.Some? && config.Some? && config.value.expiredBehavior == REDIRECT_SUPPORT
    && config.value.supportPhone.Some? && config.value.supportPhone.value != ""
  }

  predicate PlaysAudio(tenant: Option<Tenant>, config: Option<TenantRow>) {
    && tenant.Some? && config.Some? && config.value.expiredBehavior == PLAY_MESSAGE
    && config.value.expiredAudio.Some? && config.value.expiredAudio.value != ""
  }

  /** A stranger reaches nobody but the tenant's support, if that is set up; hears
      the tenant's audio, if that is; and else that the number is out of service.
      Nothing is put on record. */
  lemma StrangersReachNobody(boot: State, ops: seq<Op>, args: CallArgs, m: Option<Match>, fallback: Option<Tenant>)
    requires Boots(boot) && Runs(boot, ops)
    requires Stranger(After(boot, ops), ContractsAfter(map[], boot, ops), args.number, args.caller, args.hint)
    requires MayMatch(After(boot, ops), args.number, args.caller, args.hint, m)
    ensures var r := DecideCall(After(boot, ops), args, m, fallback);
            var d := r.decision;
            && r.record == None && d.session == None && d.callerId == None && d.tenant == fallback
            && (d.action == REDIRECT <==> Redirects(fallback, args.config))
            && (d.action == PLAY <==> PlaysAudio(fallback, args.config))
            && (d.action == DEAD <==> !Redirects(fallback, args.config) && !PlaysAudio(fallback, args.config))
            && d.destination == (if d.action == REDIRECT then args.config.value.supportPhone else None)
            && d.audioUrl == (if d.action == PLAY then args.config.value.expiredAudio else None)
            && d.message == (if d.action == DEAD then Some("This number is no longer in service") else None)
  {
    RunsKeepContracts(boot, map[], ops);
    StrangersAreNotMatched(After(boot, ops), ContractsAfter(map[], boot, ops), args.number, args.caller, args.hint, m);
  }

  // ------------------------------------------------------------------- texts

  /** The messages on record grew by this one: who sent it in which session and
      when, and, for the tenant alone to read, what. */
  predicate AddsMessage(before: seq<SmsRecord>, after: seq<SmsRecord>, sid: Sid, callerIsA: bool, tenant: Tenant,
                        body: string, now: int) {
    && |after| == |before| + 1 && after[..|before|] == before
    && var record := after[|before|];
       && record.session == sid
       && record.direction == (if callerIsA then A_TO_B else B_TO_A)
       && record.at == now
       && Decrypt(record.text, tenant) == Some(body)
  }

  lemma TextHonoursTerms(s: State, args: SmsArgs, sid: Sid, callerIsA: bool, c: Contract)
    requires Considered(s.hashes, sid, args.hint) && HashKeeps(s, s.hashes[sid], sid, c)
    ensures var m := Some(Match(sid, callerIsA));
            var t := Sms(s, args, m);
            && DecideSms(s, args, m) == (
                 if SideForbidden(c, callerIsA) then Drop(DIRECTION_REJECTED, Some((sid, c.tenant)))
                 else Forward(if callerIsA then c.customer else c.agent, args.body, sid, c.tenant))
            && var repeated := args.event in s.traffic.dedup && args.now < s.traffic.dedup[args.event].until;
               if SideForbidden(c, callerIsA) || repeated
               then t.traffic.messages == s.traffic.messages
               else AddsMessage(s.traffic.messages, t.traffic.messages, sid, callerIsA, c.tenant, args.body, args.now)
  {
    assert DirectionForbids(s.hashes[sid], callerIsA) <==> SideForbidden(c, callerIsA);
  }

  /** The same of texts, after every run: direction permitting, a text by a party of
      a routable session is forwarded to the other party as it was written, in a
      sandbox session too, and put on record once; else it is dropped and nothing is
      put on record. */
  lemma TextsReachTheOtherParty(boot: State, ops: seq<Op>, args: SmsArgs, sid: Sid, callerIsA: bool, m: Option<Match>)
    requires Boots(boot) && Runs(boot, ops)
    requires Routable(After(boot, ops), args.number, sid)
    requires var k := ContractsAfter(map[], boot, ops);
             && sid in k
             && OneTenant(After(boot, ops), args.number, args.hint, k[sid].tenant)
             && args.from == if callerIsA then k[sid].agent else k[sid].customer
    requires MayMatch(After(boot, ops), args.number, args.from, args.hint, m)
    ensures m == Some(Match(sid, callerIsA))
    ensures var s, c := After(boot, ops), ContractsAfter(map[], boot, ops)[sid];
            var t := Sms(s, args, m);
            && DecideSms(s, args, m) == (
                 if SideForbidden(c, callerIsA) then Drop(DIRECTION_REJECTED, Some((sid, c.tenant)))
                 else Forward(if callerIsA then c.customer else c.agent, args.body, sid, c.tenant))
            && var repeated := args.event in s.traffic.dedup && args.now < s.traffic.dedup[args.event].until;
               if SideForbidden(c, callerIsA) || repeated
               then t.traffic.messages == s.traffic.messages
               else AddsMessage(s.traffic.messages, t.traffic.messages, sid, callerIsA, c.tenant, args.body, args.now)
  {
    var s, k := After(boot, ops), ContractsAfter(map[], boot, ops);
    RunsKeepContracts(boot, map[], ops);
    ParticipantsSide(s, k, args.number, sid, callerIsA, args.from);
    MatchIsForced(s, args.number, sid, callerIsA, args.from, args.hint, m);
    RoutableKeepsTerms(s, k, args.number, sid);
    TextHonoursTerms(s, args, sid, callerIsA, k[sid]);
  }

  /** A stranger's text is dropped and leaves no message. */
  lemma StrangersTextsAreDropped(boot: State, ops: seq<Op>, args: SmsArgs, m: Option<Match>)
    requires Boots(boot) && Runs(boot, ops)
    requires Stranger(After(boot, ops), ContractsAfter(map[], boot, ops), args.number, args.from, args.hint)
    requires MayMatch(After(boot, ops), args.number, args.from, args.hint, m)
    ensures DecideSms(After(boot, ops), args, m) == Drop(NO_SESSION, None)
    ensures Sms(After(boot, ops), args, m).traffic.messages == After(boot, ops).traffic.messages
  {
    RunsKeepContracts(boot, map[], ops);
    StrangersAreNotMatched(After(boot, ops), ContractsAfter(map[], boot, ops), args.number, args.from, args.hint, m);
  }

  // ------------------------------------------------------------------- swaps

  /** Some other session of the tenant that calls to the number are routed to has
      the phone, on either side. */
  ghost predicate TakenBesides(s: State, k: map<Sid, Contract>, sid: Sid, phone: Phone)
    requires sid in s.sessions && sid in k
  {
    exists other ::
      && other != sid && other in k && Routable(s, s.sessions[sid].proxy, other)
      && k[other].tenant == k[sid].tenant
      && (k[other].agent == phone || k[other].customer == phone)
  }

  lemma ConflictIsTakenBesides(s: State, k: map<Sid, Contract>, sid: Sid, target: Phone)
    requires Inv(s) && Kept(s, k) && sid in k
    ensures Conflict(s, s.sessions[sid].proxy, sid, HashPhone(target, k[sid].tenant)) <==>
              TakenBesides(s, k, sid, target)
  {
    var n, who := s.sessions[sid].proxy, HashPhone(target, k[sid].tenant);
    if other :| (n, other) in s.hosted && other != sid && other in s.hashes && NamesLive(s.hashes[other], who) {
      RoutableIsConsidered(s, n, other, None);
      assert other in k && k[other].tenant == k[sid].tenant;
    }
    if other :| && other != sid && other in k && Routable(s, n, other) && k[other].tenant == k[sid].tenant
                && (k[other].agent == target || k[other].customer == target)
    {
      RoutableIsConsidered(s, n, other, None);
      assert NamesLive(s.hashes[other], who);
    }
  }

  /** When a tenant's swap is accepted, and what is wrong with each that is not. */
  lemma SwapsAreJudgedExactly(s: State, k: map<Sid, Contract>, sid: Sid, target: Phone)
    requires Inv(s) && Kept(s, k) && sid in k
    ensures var c, verdict := k[sid], JudgeSwap(s, sid, k[sid].tenant, target);
            var live := s.sessions[sid].state == ACTIVE || s.sessions[sid].state == GRACE_PERIOD;
            && (verdict == Swapped <==>
                  && ProperPhone(target) && live
                  && target != c.agent && target != c.customer && !TakenBesides(s, k, sid, target))
            && (verdict == Refused(INVALID_PHONE) <==> !ProperPhone(target))
            && (verdict == Refused(SESSION_NOT_SWAPPABLE) <==> ProperPhone(target) && !live)
            && (verdict == Refused(SAME_AS_AGENT) <==> ProperPhone(target) && live && target == c.agent)
            && (verdict == AlreadyThere <==> ProperPhone(target) && live && target == c.customer)
            && (verdict == Refused(TARGET_CONFLICT) <==>
                  && ProperPhone(target) && live
                  && target != c.agent && target != c.customer && TakenBesides(s, k, sid, target))
  {
    E164Exactly(target);
    assert SessionOk(LedgersOf(s), sid);
    ConflictIsTakenBesides(s, k, sid, target);
  }

  /** Nobody but its tenant can swap a session. */
  lemma SwapsOfOthersAreNotFound(s: State, sid: Sid, tenant: Tenant, target: Phone)
    requires sid in s.sessions ==> s.sessions[sid].tenant != tenant
    ensures JudgeSwap(s, sid, tenant, target) == if IsE164(target) then NotFound else Refused(INVALID_PHONE)
    ensures Swap(s, sid, tenant, target) == s
  {
  }

  /** Another session of the tenant on the same number has the same customer as
      `sid`, on either side. */
  ghost predicate ServedBesides(s: State, k: map<Sid, Contract>, sid: Sid)
    requires sid in s.sessions && sid in k
  {
    exists other ::
      && other != sid && other in k && Routable(s, s.sessions[sid].proxy, other)
      && k[other].tenant == k[sid].tenant
      && (k[other].agent == k[sid].customer || k[other].customer == k[sid].customer)
  }

  lemma StillServed(s: State, k: map<Sid, Contract>, sid: Sid, target: Phone) returns (other: Sid)
    requires sid in s.sessions && sid in k && JudgeSwap(s, sid, k[sid].tenant, target) == Swapped
    requires ServedBesides(s, k, sid)
    ensures Routable(Swap(s, sid, k[sid].tenant, target), s.sessions[sid].proxy, other)
    ensures var j := Agreed(k, s, OpSwap(sid, k[sid].tenant, target));
            && other in j && j[other].tenant == k[sid].tenant
            && (j[other].agent == k[sid].customer || j[other].customer == k[sid].customer)
  {
    other :| other != sid && other in k && Routable(s, s.sessions[sid].proxy, other) && k[other].tenant == k[sid].tenant
             && (k[other].agent == k[sid].customer || k[other].customer == k[sid].customer);
  }

  lemma SwappedOutIsAStranger(s: State, k: map<Sid, Contract>, sid: Sid, target: Phone, hint: Option<Tenant>)
    requires Inv(s) && Kept(s, k) && sid in k
    requires JudgeSwap(s, sid, k[sid].tenant, target) == Swapped
    requires OneTenant(s, s.sessions[sid].proxy, hint, k[sid].tenant) && !ServedBesides(s, k, sid)
    ensures Stranger(Swap(s, sid, k[sid].tenant, target), Agreed(k, s, OpSwap(sid, k[sid].tenant, target)),
                     s.sessions[sid].proxy, k[sid].customer, hint)
  {
    var n, t := s.sessions[sid].proxy, Swap(s, sid, k[sid].tenant, target);
    assert SessionOk(LedgersOf(s), sid);
    forall other | Routable(t, n, other) && other in k && other != sid && (hint.Some? ==> hint.value == k[other].tenant)
      ensures k[sid].customer != k[other].agent && k[sid].customer != k[other].customer
    {
      assert Routable(s, n, other);
      RoutableIsConsidered(s, n, other, hint);
    }
  }

  lemma PartyIsMatched(t: State, k: map<Sid, Contract>, n: Number, sid: Sid, caller: Phone, hint: Option<Tenant>,
                       m: Option<Match>)
    requires Inv(t) && Kept(t, k) && sid in k && Routable(t, n, sid)
    requires caller == k[sid].agent || caller == k[sid].customer
    requires hint == None || hint == Some(k[sid].tenant)
    requires MayMatch(t, n, caller, hint, m)
    ensures m.Some?
  {
    ParticipantsSide(t, k, n, sid, caller == k[sid].agent, caller);
    RoutableIsConsidered(t, n, sid, hint);
    MatchIsFound(t, n, caller, hint, Match(sid, caller == k[sid].agent), m);
  }

  /** An accepted swap cuts the replaced customer off at once, if and only if no
      other session of the tenant on the number has that customer. */
  lemma SwapCutsOffTheReplacedTarget(s: State, k: map<Sid, Contract>, sid: Sid, target: Phone, hint: Option<Tenant>,
                                     m: Option<Match>)
    requires Inv(s) && Kept(s, k) && sid in k
    requires JudgeSwap(s, sid, k[sid].tenant, target) == Swapped
    requires OneTenant(s, s.sessions[sid].proxy, hint, k[sid].tenant)
    requires MayMatch(Swap(s, sid, k[sid].tenant, target), s.sessions[sid].proxy, k[sid].customer, hint, m)
    ensures m == None <==> !ServedBesides(s, k, sid)
  {
    var n, t := s.sessions[sid].proxy, Swap(s, sid, k[sid].tenant, target);
    var j := Agreed(k, s, OpSwap(sid, k[sid].tenant, target));
    SwapKeeps(s, sid, k[sid].tenant, target);
    SwapKeepsContracts(s, k, sid, k[sid].tenant, target);
    if ServedBesides(s, k, sid) {
      var other := StillServed(s, k, sid, target);
      PartyIsMatched(t, j, n, other, k[sid].customer, hint, m);
    } else {
      SwappedOutIsAStranger(s, k, sid, target, hint);
      StrangersAreNotMatched(t, j, n, k[sid].customer, hint, m);
    }
  }

  /** Without a hint and a match, the tenant is that of the session created last on
      the number, dead or alive; with a hint it is the hint. */
  lemma NewestSessionNamesTheTenant(s: State, args: CreateArgs, sid: Sid, c: Choice, graceMin: int, maxMin: int,
                                    now: int, hint: Option<Tenant>, tenant: Option<Tenant>)
    requires FreshSid(s, sid)
    requires forall other :: other in s.sessions && s.sessions[other].proxy == c.number ==>
               s.sessions[other].createdAt < now
    requires FallbackTenant(Create(s, args, sid, c, graceMin, maxMin, now, None), c.number, hint, tenant)
    ensures tenant == if hint.Some? then hint else Some(args.tenant)
  {
    var t := Create(s, args, sid, c, graceMin, maxMin, now, None);
    CreatedRow(s, args, sid, c, graceMin, maxMin, now, None);
    if hint.None? {
      assert t.sessions[sid].proxy == c.number && t.sessions[sid].createdAt == now;
    }
  }

  /** Recording without consent cannot have been stored, and the other party's
      phone always decrypts: neither fail-safe branch is ever taken. */
  lemma FailSafeBranchesAreDead(s: State, n: Number, caller: Phone, hint: Option<Tenant>, m: Match)
    requires Inv(s) && MayMatch(s, n, caller, hint, Some(m))
    ensures var h := s.hashes[m.sid];
            && !(h.recording == Some(true) && h.consent.GetOr(NO_PROMPT) == NO_PROMPT)
            && OtherPhone(s.sessions, h.id.value, m.callerIsA, h.tenant.value).Some?
  {
    RoutableIsConsidered(s, n, m.sid, hint);
  }

  /** The routers' two runs over SMEMBERS, each in an order of its own, end at
      the same match if a tenant is named or the caller is in one tenant only. */
  lemma RunsOfTheLoopAgree(s: State, n: Number, caller: Phone, hint: Option<Tenant>, p: Option<Match>, q: Option<Match>)
    requires Inv(s) && (hint.Some? || !InTwoTenants(s, n, caller))
    requires MayMatch(s, n, caller, hint, p) && MayMatch(s, n, caller, hint, q)
    ensures p == q
  {
    if hint == None {
      MatchIsForcedExactlyWithinATenant(s, n, caller);
    } else {
      if p.Some? { MatchIsFound(s, n, caller, hint, p.value, q); }
      if q.Some? { MatchIsFound(s, n, caller, hint, q.value, p); }
      if p.Some? && q.Some? { SameTenantSameMatch(s, n, caller, hint, p.value, q.value); }
    }
  }

  /** The two decisions about a live session connect the caller to the same phone
      through the same session, or both refuse. */
  predicate Agree(voice: RouteDecision, text: SmsDecision) {
    if text.Forward? then
      && voice.destination == Some(text.destination)
      && voice.session == Some(text.session)
      && voice.tenant == Some(text.tenant)
      && (voice.action == FORWARD || voice.action == CONSENT_THEN_FORWARD)
    else
      voice.destination == None && voice.action == DEAD
  }

  /** On one live hash, past the branches that are dead, both routers look only
      at the direction and at the other party. */
  lemma MatchedAlike(s: State, n: Number, h: SessionHash, callerIsA: bool, config: Option<TenantRow>, event: EventId,
                     now: int)
    requires h.id.Some? && h.tenant.Some? && h.mode == Some(Live)
    requires !(h.recording == Some(true) && h.consent.GetOr(NO_PROMPT) == NO_PROMPT)
    ensures var voice, to := DecideMatched(s, n, h, callerIsA, config, event, now).decision,
                             OtherPhone(s.sessions, h.id.value, callerIsA, h.tenant.value);
            if DirectionForbids(h, callerIsA) || to.None? then voice.destination == None && voice.action == DEAD
            else voice.destination == to && voice.session == h.id && voice.tenant == h.tenant
                 && (voice.action == FORWARD || voice.action == CONSENT_THEN_FORWARD)
  {
  }

  lemma OneMatchDecidesAlike(s: State, call: CallArgs, sms: SmsArgs, m: Option<Match>, fallback: Option<Tenant>)
    requires Inv(s)
    requires call.number == sms.number && call.caller == sms.from && call.hint == sms.hint
    requires MayMatch(s, call.number, call.caller, call.hint, m)
    ensures var voice, text := DecideCall(s, call, m, fallback).decision, DecideSms(s, sms, m);
            && (m.None? ==> text == Drop(NO_SESSION, None) && voice == NoSessionDecision(fallback, call.config))
            && (m.Some? && s.hashes[m.value.sid].mode == Some(Live) ==> Agree(voice, text))
  {
    if m.Some? && s.hashes[m.value.sid].mode == Some(Live) {
      FailSafeBranchesAreDead(s, call.number, call.caller, call.hint, m.value);
      assert s.hashes[m.value.sid].id == Some(m.value.sid) by {
        RoutableIsConsidered(s, call.number, m.value.sid, call.hint);
      }
      MatchedAlike(s, call.number, s.hashes[m.value.sid], m.value.callerIsA, call.config, call.event, call.now);
    }
  }

  /** For live sessions the two routers, each with a match of its own, connect
      the same two people through the same session; with no match both refuse. */
  lemma VoiceAndSmsAgree(s: State, call: CallArgs, sms: SmsArgs, p: Option<Match>, q: Option<Match>,
                         fallback: Option<Tenant>)
    requires Inv(s)
    requires call.number == sms.number && call.caller == sms.from && call.hint == sms.hint
    requires call.hint.Some? || !InTwoTenants(s, call.number, call.caller)
    requires MayMatch(s, call.number, call.caller, call.hint, p)
    requires MayMatch(s, sms.number, sms.from, sms.hint, q)
    ensures p == q
    ensures var voice, text := DecideCall(s, call, p, fallback).decision, DecideSms(s, sms, q);
            && (p.None? ==> text == Drop(NO_SESSION, None) && voice == NoSessionDecision(fallback, call.config))
            && (p.Some? && s.hashes[p.value.sid].mode == Some(Live) ==> Agree(voice, text))
  {
    RunsOfTheLoopAgree(s, call.number, call.caller, call.hint, p, q);
    OneMatchDecidesAlike(s, call, sms, p, fallback);
  }

  // ------------------------------------------------------ the phone index

  /** A session names the participant. */
  predicate Names(h: SessionHash, who: PhoneHash) {
    h.partyA == Some(who) || h.partyB == Some(who)
  }

  /** Looking only under the participant's own index key loses nothing:
      verifyCall finds a session exactly when a scan of all hashes would. */
  lemma VerifyingByIndexIsAFullScan(s: State, who: PhoneHash, tenant: Tenant, now: int)
    requires Inv(s)
    ensures (exists sid :: (who, sid) in s.phones && CalledRecently(s.hashes, sid, tenant, now))
            <==>
            (exists sid :: CalledRecently(s.hashes, sid, tenant, now) && Names(s.hashes[sid], who))
  {
    forall sid | CalledRecently(s.hashes, sid, tenant, now)
      ensures (who, sid) in s.phones <==> Names(s.hashes[sid], who)
    {
      assert SessionOk(LedgersOf(s), sid);
    }
  }

  /** The session has its hash, is the tenant's and the participant's by its row,
      and the last call on that row is at most a minute old. */
  predicate SawACall(s: State, sid: Sid, who: PhoneHash, tenant: Tenant, now: int) {
    && Full(s.hashes, sid) && sid in s.sessions
    && var row := s.sessions[sid];
       && row.tenant == tenant
       && (row.partyAHash == who || row.partyBHash == who)
       && row.lastCallAt.Some? && now - row.lastCallAt.value <= 60_000
  }

  /** Looking only under the participant's own index key, and only at hashes, loses
      nothing and finds nothing else: a session is found exactly when its row says
      so. */
  lemma VerifiedExactly(s: State, who: PhoneHash, tenant: Tenant, now: int, sid: Sid)
    requires Inv(s)
    ensures (who, sid) in s.phones && CalledRecently(s.hashes, sid, tenant, now) <==> SawACall(s, sid, who, tenant, now)
  {
    assert SessionOk(LedgersOf(s), sid);
  }

  /** The numbers that host at least one session. */
  function HostingNumbers(hosted: set<(Number, Sid)>): (numbers: set<Number>)
    ensures forall n :: n in numbers <==> exists sid :: (n, sid) in hosted
  {
    var numbers := set pair | pair in hosted :: pair.0;
    assert forall n, sid :: (n, sid) in hosted ==> (n, sid).0 in numbers;
    assert forall n :: n in numbers ==> exists pair :: pair in hosted && pair == (n, pair.1);
    numbers
  }

  lemma {:induction false} InjectiveImage(f: map<Sid, Number>, sids: set<Sid>, image: set<Number>)
    requires sids <= f.Keys && forall sid :: sid in sids ==> f[sid] in image
    requires forall p, q :: p in sids && q in sids && f[p] == f[q] ==> p == q
    ensures |sids| <= |image|
    decreases sids
  {
    if sids != {} {
      var sid :| sid in sids;
      InjectiveImage(f, sids - {sid}, image - {f[sid]});
    }
  }

  /** One participant's simultaneous sessions need a number each. */
  lemma ASessionPerNumber(s: State, who: PhoneHash, sids: set<Sid>)
    requires Inv(s)
    requires forall sid :: sid in sids ==>
               && Full(s.hashes, sid) && Names(s.hashes[sid], who)
               && sid in s.sessions && Routable(s, s.sessions[sid].proxy, sid)
    ensures |sids| <= |HostingNumbers(s.hosted)|
  {
    var f := map sid | sid in sids :: s.sessions[sid].proxy;
    forall p, q | p in sids && q in sids && f[p] == f[q] ensures p == q {
      assert ApartFromOthers(LedgersOf(s), p);
    }
    InjectiveImage(f, sids, HostingNumbers(s.hosted));
  }

  // ---------------------------------------------------- expired is the end

  /** No Redis key mentions the session any more, and no hash passes for one. */
  ghost predicate NoTrace(s: State, sid: Sid) {
    && (forall n :: (n, sid) !in s.hosted)
    && (forall h :: (h, sid) !in s.phones)
    && (forall t :: (t, sid) !in s.active)
    && !Full(s.hashes, sid)
  }

  predicate IsExpired(s: State, sid: Sid) {
    sid in s.sessions && s.sessions[sid].state == EXPIRED
  }

  lemma ExpiredLeavesNoTrace(s: State, sid: Sid)
    requires Inv(s) && IsExpired(s, sid)
    ensures NoTrace(s, sid)
  {
    assert SessionOk(LedgersOf(s), sid);
  }

  lemma ExpireKeepsExpired(s: State, other: Sid, now: int, cooldownMin: int, sid: Sid)
    requires IsExpired(s, sid)
    ensures IsExpired(Expire(s, other, now, cooldownMin), sid)
  {
  }

  lemma StepKeepsExpired(s: State, op: Op, sid: Sid)
    requires Enabled(s, op) && IsExpired(s, sid)
    ensures IsExpired(Apply(s, op), sid)
  {
    match op
    case OpCreate(args, other, c, graceMin, maxMin, now, failAt) =>
      CreatedRow(s, args, other, c, graceMin, maxMin, now, failAt);
    case OpCall(call, m, fallback) => CallTouchesCountersOnly(s, call, m, fallback);
    case OpExpire(other, now, cooldownMin) => ExpireKeepsExpired(s, other, now, cooldownMin, sid);
    case OpSwap(other, tenant, target) =>
    case OpEnd(other, tenant, now) =>
    case _ => assert Apply(s, op).sessions == s.sessions;
  }

  /** EXPIRED is absorbing in every run, and an expired session is never again
      listed on a number, under a participant or among the active ones. */
  lemma {:induction false} ExpiredForever(s: State, ops: seq<Op>, sid: Sid)
    requires Inv(s) && Runs(s, ops) && IsExpired(s, sid)
    ensures IsExpired(After(s, ops), sid) && NoTrace(After(s, ops), sid)
    decreases |ops|
  {
    if ops == [] {
      ExpiredLeavesNoTrace(s, sid);
    } else {
      StepKeepsExpired(s, ops[0], sid);
      StepKeeps(s, ops[0]);
      ExpiredForever(Apply(s, ops[0]), ops[1..], sid);
    }
  }
}
