/** Runs of the whole platform: every public operation as one step, and what
    each of them keeps. */
module LifecycleModel {
  import opened Types
  import opened StoreModel
  import opened NumberPoolModel
  import opened SessionManagerModel
  import opened AdminPoolModel
  import opened RoutingModel
  import opened WebhookModel

  /** One operation with its inputs and with the outcome of its free choices:
      the number SRANDMEMBER led to, the match SMEMBERS led to, the command that
      raised, the moment a TTL ran out. */
  datatype Op =
    | OpCreate(args: CreateArgs, sid: Sid, choice: Choice, graceMin: int, maxMin: int, now: int, failAt: Option<Stage>)
    | OpEnd(sid: Sid, tenant: Tenant, now: int)
    | OpSwap(sid: Sid, tenant: Tenant, target: Phone)
    | OpExpire(sid: Sid, now: int, cooldownMin: int)
    | OpEvict(sid: Sid)
    | OpReap(region: Region, now: int)
    | OpLoad(loaded: Pool, now: int)
    | OpQuarantine(number: Number)
    | OpReinstate(number: Number)
    | OpCall(call: CallArgs, matched: Option<Match>, fallback: Option<Tenant>)
    | OpSms(sms: SmsArgs, matched: Option<Match>)
    | OpStatus(webhook: Webhook, now: int)

  /** randomUUID: the identifier is nowhere in Redis or Postgres. */
  ghost predicate FreshSid(s: State, sid: Sid) {
    && sid !in s.sessions
    && sid !in s.hashes
    && (forall n :: (n, sid) !in s.hosted)
    && (forall h :: (h, sid) !in s.phones)
    && (forall t :: (t, sid) !in s.active)
  }

  /** The operation's choices are ones the code can make in this state. */
  ghost predicate Enabled(s: State, op: Op) {
    match op
    case OpCreate(args, sid, c, _, _, _, _) =>
      && CreateCheck(args).None?
      && FreshSid(s, sid)
      && MayAllocate(s, CreateRegion(args), AgentHash(args), CustomerHash(args), c)
    case OpLoad(loaded, now) => Reconciled(s.pool, loaded, BooksAt(s, now), s.numbers.Keys)
    case OpCall(call, m, fallback) =>
      MayMatch(s, call.number, call.caller, call.hint, m) && FallbackTenant(s, call.number, call.hint, fallback)
    case OpSms(sms, m) => MayMatch(s, sms.number, sms.from, sms.hint, m)
    case OpStatus(w, _) => Sent(w) && !w.eventType.IncomingCall?
    case _ => true
  }

  /** The TTL of a session hash runs out. */
  function Evict(s: State, sid: Sid): State {
    s.(hashes := s.hashes - {sid})
  }

  ghost function Apply(s: State, op: Op): State
    requires Enabled(s, op)
  {
    match op
    case OpCreate(args, sid, c, graceMin, maxMin, now, failAt) => Create(s, args, sid, c, graceMin, maxMin, now, failAt)
    case OpEnd(sid, tenant, now) => End(s, sid, tenant, now)
    case OpSwap(sid, tenant, target) => Swap(s, sid, tenant, target)
    case OpExpire(sid, now, cooldownMin) => Expire(s, sid, now, cooldownMin)
    case OpEvict(sid) => Evict(s, sid)
    case OpReap(r, now) => Reap(s, r, now)
    case OpLoad(loaded, _) => s.(pool := loaded)
    case OpQuarantine(n) => Quarantine(s, n)
    case OpReinstate(n) => Reinstate(s, n)
    case OpCall(call, m, fallback) => Call(s, call, m, fallback)
    case OpSms(sms, m) => Sms(s, sms, m)
    case OpStatus(w, now) => TakeNote(s, w, now)
  }

  // ------------------------------------------------------------------ runs

  /** The operations can be carried out one after the other from `s`. */
  ghost predicate Runs(s: State, ops: seq<Op>)
    decreases |ops|
  {
    ops == [] || (Enabled(s, ops[0]) && Runs(Apply(s, ops[0]), ops[1..]))
  }

  ghost function After(s: State, ops: seq<Op>): State
    requires Runs(s, ops)
    decreases |ops|
  {
    if ops == [] then s else After(Apply(s, ops[0]), ops[1..])
  }

  lemma {:induction false} RunsExtend(s: State, ops: seq<Op>, op: Op)
    requires Runs(s, ops) && Enabled(After(s, ops), op)
    ensures Runs(s, ops + [op]) && After(s, ops + [op]) == Apply(After(s, ops), op)
    decreases |ops|
  {
    if ops == [] {
      assert ops + [op] == [op];
      assert [op][1..] == [];
    } else {
      RunsExtend(Apply(s, ops[0]), ops[1..], op);
      assert (ops + [op])[1..] == ops[1..] + [op];
    }
  }

  // ------------------------------------------------------------ invariants

  /** Everything kept about sessions, apart from the pool and the traffic. */
  datatype Ledgers = Ledgers(
    hosted: set<(Number, Sid)>,
    phones: set<(PhoneHash, Sid)>,
    active: set<(Tenant, Sid)>,
    hashes: map<Sid, SessionHash>,
    sessions: map<Sid, SessionRow>)

  function LedgersOf(s: State): Ledgers {
    Ledgers(s.hosted, s.phones, s.active, s.hashes, s.sessions)
  }

  /** A row's hashes and ciphertexts are those of two phones of its tenant. */
  predicate RowOk(row: SessionRow) {
    && row.partyAEnc.tenant == row.tenant
    && row.partyBEnc.tenant == row.tenant
    && row.partyAHash == HashPhone(row.partyAEnc.phone, row.tenant)
    && row.partyBHash == HashPhone(row.partyBEnc.phone, row.tenant)
    && row.partyAEnc.phone != row.partyBEnc.phone
    && row.partyAEnc.phone != ""
    && row.partyBEnc.phone != ""
    && (row.recording ==> row.consent != NO_PROMPT)
  }

  /** A hash written whole, as opposed to one re-created after its TTL. */
  predicate Full(hashes: map<Sid, SessionHash>, sid: Sid) {
    sid in hashes && hashes[sid].id.Some?
  }

  predicate HashAgrees(h: SessionHash, sid: Sid, row: SessionRow) {
    && h.id == Some(sid)
    && h.tenant == Some(row.tenant)
    && h.partyA == Some(row.partyAHash)
    && h.partyB == Some(row.partyBHash)
    && h.proxy == Some(row.proxy)
    && h.state == Some(if row.state == FAILED then ACTIVE else row.state)
    && (row.state == ACTIVE || row.state == GRACE_PERIOD || row.state == FAILED)
    && h.direction == Some(row.direction)
    && h.mode == Some(row.mode)
    && h.recording == Some(row.recording)
    && h.consent == Some(row.consent)
    && h.lastCallAt == row.lastCallAt
    && h.callCount == row.callCount
  }

  /** What a hash re-created after its TTL names, if anything, are the row's
      current participants: a swap still writes the new customer into it. */
  predicate NamesAtMost(h: SessionHash, row: SessionRow) {
    && (h.partyA == None || h.partyA == Some(row.partyAHash))
    && (h.partyB == None || h.partyB == Some(row.partyBHash))
  }

  /** The cache never disagrees with the database about a session it holds whole,
      and about no participant of any session. */
  predicate HashOk(b: Ledgers, sid: Sid) {
    && (Full(b.hashes, sid) ==> sid in b.sessions && HashAgrees(b.hashes[sid], sid, b.sessions[sid]))
    && (sid in b.hashes ==> sid in b.sessions && NamesAtMost(b.hashes[sid], b.sessions[sid]))
  }

  /** A session is hosted only while live, only by the number allocated to it,
      and only while it counts among its tenant's active ones. */
  ghost predicate HostedOk(b: Ledgers, sid: Sid) {
    forall n :: (n, sid) in b.hosted ==>
      && sid in b.sessions
      && b.sessions[sid].proxy == n
      && IsLive(b.sessions[sid].state)
      && (b.sessions[sid].tenant, sid) in b.active
  }

  /** `phone:{h}:sessions` lists a session under exactly its two current hashes,
      until it expires and from then on under none. */
  ghost predicate PhonesOk(b: Ledgers, sid: Sid) {
    sid in b.sessions ==>
      forall h :: (h, sid) in b.phones <==>
        b.sessions[sid].state != EXPIRED && (h == b.sessions[sid].partyAHash || h == b.sessions[sid].partyBHash)
  }

  /** A session counts for its own tenant only, and no longer once expired. */
  ghost predicate ActiveOk(b: Ledgers, sid: Sid) {
    forall t :: (t, sid) in b.active ==>
      sid in b.sessions && b.sessions[sid].tenant == t && b.sessions[sid].state != EXPIRED
  }

  ghost predicate SessionOk(b: Ledgers, sid: Sid) {
    && (sid in b.sessions ==> RowOk(b.sessions[sid]))
    && HashOk(b, sid)
    && HostedOk(b, sid)
    && PhonesOk(b, sid)
    && ActiveOk(b, sid)
  }

  predicate ShareNobody(g: SessionHash, h: SessionHash) {
    && g.partyA != h.partyA
    && g.partyA != h.partyB
    && g.partyB != h.partyA
    && g.partyB != h.partyB
  }

  /** On no number does the session share a participant with another one. */
  ghost predicate ApartFromOthers(b: Ledgers, sid: Sid) {
    forall n, other ::
      (n, sid) in b.hosted && (n, other) in b.hosted && sid != other && Full(b.hashes, sid) && Full(b.hashes, other)
      ==> ShareNobody(b.hashes[sid], b.hashes[other])
  }

  /** Two sessions on one number never share a participant. */
  ghost predicate Disjoint(b: Ledgers) {
    forall sid :: ApartFromOthers(b, sid)
  }

  ghost predicate AllOk(b: Ledgers) {
    forall sid :: SessionOk(b, sid)
  }

  ghost predicate Inv(s: State) {
    AllOk(LedgersOf(s)) && Disjoint(LedgersOf(s))
  }

  // ------------------------------------------- steps that touch one session

  ghost predicate Untouched(b: Ledgers, c: Ledgers, sid: Sid) {
    && (sid in c.sessions <==> sid in b.sessions)
    && (sid in c.sessions ==> c.sessions[sid] == b.sessions[sid])
    && (sid in c.hashes <==> sid in b.hashes)
    && (sid in c.hashes ==> c.hashes[sid] == b.hashes[sid])
    && (forall n :: (n, sid) in c.hosted <==> (n, sid) in b.hosted)
    && (forall h :: (h, sid) in c.phones <==> (h, sid) in b.phones)
    && (forall t :: (t, sid) in c.active <==> (t, sid) in b.active)
  }

  ghost predicate OnlyTouches(b: Ledgers, c: Ledgers, sid: Sid) {
    forall other :: other != sid ==> Untouched(b, c, other)
  }

  lemma UntouchedKeeps(b: Ledgers, c: Ledgers, sid: Sid)
    requires Untouched(b, c, sid) && SessionOk(b, sid)
    ensures SessionOk(c, sid)
  {
  }

  lemma OneTouched(b: Ledgers, c: Ledgers, sid: Sid)
    requires AllOk(b) && Disjoint(b)
    requires OnlyTouches(b, c, sid)
    requires SessionOk(c, sid) && ApartFromOthers(c, sid)
    ensures AllOk(c) && Disjoint(c)
  {
    forall other ensures SessionOk(c, other) {
      if other != sid { UntouchedKeeps(b, c, other); }
    }
    forall one ensures ApartFromOthers(c, one) {
      forall n, other | (n, one) in c.hosted && (n, other) in c.hosted && one != other
                        && Full(c.hashes, one) && Full(c.hashes, other)
        ensures ShareNobody(c.hashes[one], c.hashes[other])
      {
        if one != sid && other != sid {
          assert Untouched(b, c, one) && Untouched(b, c, other);
          assert ApartFromOthers(b, one);
        }
      }
    }
  }

  /** A session that gained no number and no participant stays apart. */
  lemma StaysApart(b: Ledgers, c: Ledgers, sid: Sid)
    requires Disjoint(b) && OnlyTouches(b, c, sid)
    requires forall n :: (n, sid) in c.hosted ==> (n, sid) in b.hosted
    requires Full(c.hashes, sid) ==>
               && Full(b.hashes, sid)
               && c.hashes[sid].partyA == b.hashes[sid].partyA
               && c.hashes[sid].partyB == b.hashes[sid].partyB
    ensures ApartFromOthers(c, sid)
  {
    forall n, other | (n, sid) in c.hosted && (n, other) in c.hosted && sid != other
                      && Full(c.hashes, sid) && Full(c.hashes, other)
      ensures ShareNobody(c.hashes[sid], c.hashes[other])
    {
      assert Untouched(b, c, other);
      assert ApartFromOthers(b, sid);
    }
  }

  // ---------------------------------------------------- what each step keeps

  lemma NewSessionIsOk(s: State, args: CreateArgs, sid: Sid, c: Choice, graceMin: int, maxMin: int, now: int)
    requires FreshSid(s, sid) && CreateCheck(args).None?
    ensures var t := Create(s, args, sid, c, graceMin, maxMin, now, None);
            && OnlyTouches(LedgersOf(s), LedgersOf(t), sid)
            && SessionOk(LedgersOf(t), sid)
            && (forall n :: (n, sid) in t.hosted ==> n == c.number)
            && Full(t.hashes, sid)
            && t.hashes[sid].partyA == Some(AgentHash(args))
            && t.hashes[sid].partyB == Some(CustomerHash(args))
  {
    assert RowOk(NewRow(args, c.number, graceMin, maxMin, now));
  }

  /** What a rollback leaves behind, however far the writes had got. */
  ghost predicate LeftByRollback(b: Ledgers, t: Ledgers, sid: Sid, row: SessionRow) {
    && t.hosted == (b.hosted + {(row.proxy, sid)}) - {(row.proxy, sid)}
    && t.phones == b.phones + {(row.partyAHash, sid), (row.partyBHash, sid)}
    && (t.active == b.active || (sid in t.sessions && t.active == b.active + {(row.tenant, sid)}))
    && (t.sessions == b.sessions || t.sessions == b.sessions[sid := row.(state := FAILED)])
    && (t.hashes == b.hashes
        || (sid in t.sessions && t.hashes == b.hashes[sid := FillHash(HashAt(b.hashes, sid), sid, row)]))
  }

  lemma ReleaseLedgers(s: State, r: Region, n: Number, sid: Sid, until: int)
    ensures LedgersOf(Release(s, r, n, sid, until)) == LedgersOf(s).(hosted := s.hosted - {(n, sid)})
  {
  }

  lemma ReachedRow(p: State, sid: Sid, row: SessionRow, failAt: Option<Stage>)
    ensures Reached(p, sid, row, failAt).sessions ==
            if failAt == Some(InsertFails) then p.sessions
            else p.sessions[sid := row.(state := if failAt == Some(ActivateFails) then row.state else ACTIVE)]
  {
  }

  lemma FinishedRow(p: State, region: Option<Region>, sid: Sid, row: SessionRow, failAt: Option<Stage>)
    requires sid !in p.sessions
    ensures Finish(p, region, sid, row, failAt).sessions ==
            if failAt == Some(InsertFails) then p.sessions
            else p.sessions[sid := row.(state := if failAt.None? then ACTIVE else FAILED)]
  {
    var reached := Reached(p, sid, row, failAt);
    ReachedRow(p, sid, row, failAt);
    if failAt.Some? {
      ReleaseLedgers(reached, ReleaseRegion(reached.pool, region, row.proxy), row.proxy, sid, 0);
    }
  }

  /** The row a creation leaves: none if the insert failed, else live or FAILED. */
  lemma CreatedRow(s: State, args: CreateArgs, sid: Sid, c: Choice, graceMin: int, maxMin: int, now: int,
                   failAt: Option<Stage>)
    requires sid !in s.sessions
    ensures var row := NewRow(args, c.number, graceMin, maxMin, now);
            Create(s, args, sid, c, graceMin, maxMin, now, failAt).sessions ==
            if failAt == Some(InsertFails) then s.sessions
            else s.sessions[sid := row.(state := if failAt.None? then ACTIVE else FAILED)]
  {
    var placed := Place(s, CreateRegion(args), c, AgentHash(args), CustomerHash(args), sid);
    FinishedRow(placed, args.region, sid, NewRow(args, c.number, graceMin, maxMin, now), failAt);
  }

  lemma ReachedLedgers(p: State, sid: Sid, row: SessionRow, failAt: Stage)
    requires sid !in p.sessions
    ensures var t := MarkFailed(Reached(p, sid, row, Some(failAt)), sid);
            && t.hosted == p.hosted && t.phones == p.phones
            && (t.active == p.active || (sid in t.sessions && t.active == p.active + {(row.tenant, sid)}))
            && (t.sessions == p.sessions || t.sessions == p.sessions[sid := row.(state := FAILED)])
            && (t.hashes == p.hashes
                || (sid in t.sessions && t.hashes == p.hashes[sid := FillHash(HashAt(p.hashes, sid), sid, row)]))
  {
  }

  lemma RollbackLeaves(s: State, args: CreateArgs, sid: Sid, c: Choice, graceMin: int, maxMin: int, now: int,
                       failAt: Stage)
    requires FreshSid(s, sid)
    ensures LeftByRollback(LedgersOf(s), LedgersOf(Create(s, args, sid, c, graceMin, maxMin, now, Some(failAt))), sid,
                           NewRow(args, c.number, graceMin, maxMin, now))
  {
    var row := NewRow(args, c.number, graceMin, maxMin, now);
    var placed := Place(s, CreateRegion(args), c, AgentHash(args), CustomerHash(args), sid);
    assert sid !in placed.sessions && placed.hashes == s.hashes && placed.sessions == s.sessions;
    var reached := Reached(placed, sid, row, Some(failAt));
    ReachedLedgers(placed, sid, row, failAt);
    ReleaseLedgers(reached, ReleaseRegion(reached.pool, args.region, row.proxy), row.proxy, sid, 0);
  }

  /** A rolled back session is hosted nowhere, however far it had got. */
  /** How far each failing stage had got is what it leaves: no row only if the
      insert failed, a hash only if its write had happened, and a place among the
      tenant's active sessions only if the very last command raised. */
  lemma RollbackLeavesExactly(s: State, args: CreateArgs, sid: Sid, c: Choice, graceMin: int, maxMin: int, now: int,
                              failAt: Stage)
    requires FreshSid(s, sid)
    ensures var t := Create(s, args, sid, c, graceMin, maxMin, now, Some(failAt));
            && (sid in t.sessions <==> failAt != InsertFails)
            && (sid in t.sessions ==> t.sessions[sid].state == FAILED && t.sessions[sid].proxy == c.number)
            && (sid in t.hashes <==> failAt == TtlFails || failAt == TenantSetFails || failAt == RereadFails)
            && ((args.tenant, sid) in t.active <==> failAt == RereadFails)
            && (HashPhone(args.agent, args.tenant), sid) in t.phones
            && (HashPhone(args.customer, args.tenant), sid) in t.phones
            && forall n :: (n, sid) !in t.hosted
  {
    CreatedRow(s, args, sid, c, graceMin, maxMin, now, Some(failAt));
    RollbackLeaves(s, args, sid, c, graceMin, maxMin, now, failAt);
    var row := NewRow(args, c.number, graceMin, maxMin, now);
    var placed := Place(s, CreateRegion(args), c, AgentHash(args), CustomerHash(args), sid);
    var reached := Reached(placed, sid, row, Some(failAt));
    ReleaseLedgers(reached, ReleaseRegion(reached.pool, args.region, row.proxy), row.proxy, sid, 0);
  }

  /** The row of a new session carries the request, its number and its times. */
  lemma NewRowCarriesTheRequest(s: State, args: CreateArgs, sid: Sid, c: Choice, graceMin: int, maxMin: int, now: int)
    requires FreshSid(s, sid)
    ensures var t := Create(s, args, sid, c, graceMin, maxMin, now, None);
            && sid in t.sessions
            && var row := t.sessions[sid];
               && row.tenant == args.tenant && row.proxy == c.number && row.state == ACTIVE
               && Decrypt(row.partyAEnc, args.tenant) == Some(args.agent)
               && Decrypt(row.partyBEnc, args.tenant) == Some(args.customer)
               && row.direction == args.direction && row.mode == args.mode
               && row.recording == args.recording && row.consent == args.consent
               && row.createdAt == now && row.expiresAt == now + 60_000 * maxMin && row.graceMin == graceMin
               && row.lastCallAt == None && row.callCount == 0
  {
    CreatedRow(s, args, sid, c, graceMin, maxMin, now, None);
  }

  lemma RollbackIsOk(b: Ledgers, t: Ledgers, sid: Sid, row: SessionRow)
    requires RowOk(row) && row.lastCallAt == None && row.callCount == 0 && LeftByRollback(b, t, sid, row)
    requires sid !in b.sessions && sid !in b.hashes
    requires forall n :: (n, sid) !in b.hosted
    requires forall h :: (h, sid) !in b.phones
    requires forall q :: (q, sid) !in b.active
    ensures OnlyTouches(b, t, sid) && SessionOk(t, sid)
    ensures forall n :: (n, sid) !in t.hosted
  {
    assert sid in t.sessions ==> t.sessions[sid] == row.(state := FAILED);
    assert PhonesOk(t, sid);
  }

  lemma CreateKeeps(s: State, args: CreateArgs, sid: Sid, c: Choice, graceMin: int, maxMin: int, now: int,
                    failAt: Option<Stage>)
    requires Inv(s) && Enabled(s, OpCreate(args, sid, c, graceMin, maxMin, now, failAt))
    ensures Inv(Create(s, args, sid, c, graceMin, maxMin, now, failAt))
  {
    var b, t := LedgersOf(s), LedgersOf(Create(s, args, sid, c, graceMin, maxMin, now, failAt));
    if failAt.None? {
      NewSessionIsOk(s, args, sid, c, graceMin, maxMin, now);
    } else {
      RollbackLeaves(s, args, sid, c, graceMin, maxMin, now, failAt.value);
      RollbackIsOk(b, t, sid, NewRow(args, c.number, graceMin, maxMin, now));
    }
    forall n, other | (n, sid) in t.hosted && (n, other) in t.hosted && sid != other
                      && Full(t.hashes, sid) && Full(t.hashes, other)
      ensures ShareNobody(t.hashes[sid], t.hashes[other])
    {
      assert Untouched(b, t, other);
      assert (c.number, other) in s.hosted;
      assert !SessionTouches(s.hashes, other, AgentHash(args), CustomerHash(args));
    }
    OneTouched(b, t, sid);
  }

  lemma EndKeeps(s: State, sid: Sid, tenant: Tenant, now: int)
    requires Inv(s)
    ensures Inv(End(s, sid, tenant, now))
  {
    var b, t := LedgersOf(s), LedgersOf(End(s, sid, tenant, now));
    assert SessionOk(b, sid);
    StaysApart(b, t, sid);
    OneTouched(b, t, sid);
  }

  lemma RetargetTouchesOne(s: State, sid: Sid, target: Phone)
    requires SessionOk(LedgersOf(s), sid) && sid in s.sessions && s.sessions[sid].state != EXPIRED
    requires target != s.sessions[sid].partyAEnc.phone && target != s.sessions[sid].partyBEnc.phone && target != ""
    ensures OnlyTouches(LedgersOf(s), LedgersOf(Retarget(s, sid, target)), sid)
    ensures SessionOk(LedgersOf(Retarget(s, sid, target)), sid)
  {
  }

  lemma SwapKeeps(s: State, sid: Sid, tenant: Tenant, target: Phone)
    requires Inv(s)
    ensures Inv(Swap(s, sid, tenant, target))
  {
    if JudgeSwap(s, sid, tenant, target) == Swapped {
      RetargetTouchesOne(s, sid, target);
      var b, t := LedgersOf(s), LedgersOf(Retarget(s, sid, target));
      var who := HashPhone(target, tenant);
      forall n, other | (n, sid) in t.hosted && (n, other) in t.hosted && sid != other
                        && Full(t.hashes, sid) && Full(t.hashes, other)
        ensures ShareNobody(t.hashes[sid], t.hashes[other])
      {
        assert Untouched(b, t, other);
        assert SessionOk(b, sid) && SessionOk(b, other);
        assert ApartFromOthers(b, sid);
        assert n == s.sessions[sid].proxy;
        assert !NamesLive(s.hashes[other], who);
      }
      OneTouched(b, t, sid);
    }
  }

  lemma ExpireKeeps(s: State, sid: Sid, now: int, cooldownMin: int)
    requires Inv(s)
    ensures Inv(Expire(s, sid, now, cooldownMin))
  {
    if Expires(s, sid) {
      var b, t := LedgersOf(s), LedgersOf(Expire(s, sid, now, cooldownMin));
      assert SessionOk(b, sid);
      StaysApart(b, t, sid);
      OneTouched(b, t, sid);
    }
  }

  lemma EvictKeeps(s: State, sid: Sid)
    requires Inv(s)
    ensures Inv(Evict(s, sid))
  {
    var b, t := LedgersOf(s), LedgersOf(Evict(s, sid));
    assert SessionOk(b, sid);
    StaysApart(b, t, sid);
    OneTouched(b, t, sid);
  }

  lemma BumpKeeps(s: State, sid: Sid, now: int)
    requires Inv(s) && Full(s.hashes, sid)
    ensures Inv(Bump(s, sid, now))
  {
    var b, t := LedgersOf(s), LedgersOf(Bump(s, sid, now));
    assert SessionOk(b, sid);
    StaysApart(b, t, sid);
    OneTouched(b, t, sid);
  }

  /** The rows are the same but for their call counters. */
  ghost predicate SameButCounters(s: State, t: State) {
    && t.sessions.Keys == s.sessions.Keys
    && forall sid :: sid in s.sessions ==>
         t.sessions[sid].(lastCallAt := s.sessions[sid].lastCallAt, callCount := s.sessions[sid].callCount) ==
           s.sessions[sid]
  }

  lemma EnactTouchesCountersOnly(s: State, event: EventId, now: int, ruling: Ruling)
    ensures var t := Enact(s, event, now, ruling);
            && t.pool == s.pool && t.numbers == s.numbers && t.hosted == s.hosted && t.phones == s.phones
            && SameButCounters(s, t)
  {
  }

  lemma CallTouchesCountersOnly(s: State, args: CallArgs, m: Option<Match>, fallback: Option<Tenant>)
    requires MayMatch(s, args.number, args.caller, args.hint, m)
    ensures var t := Call(s, args, m, fallback);
            && t.pool == s.pool && t.numbers == s.numbers && t.hosted == s.hosted && t.phones == s.phones
            && SameButCounters(s, t)
  {
    if !Deduplicated(s.traffic.dedup, args.event, args.now) {
      EnactTouchesCountersOnly(s, args.event, args.now, DecideCall(s, args, m, fallback));
    }
  }

  lemma EnactKeeps(s: State, event: EventId, now: int, ruling: Ruling)
    requires Inv(s) && (ruling.record.Some? ==> Full(s.hashes, ruling.record.value.session))
    ensures Inv(Enact(s, event, now, ruling))
  {
    var cached := Remember(s, event, CallCached(ruling.decision, now + DEDUP_TTL_MS));
    assert LedgersOf(cached) == LedgersOf(s);
    if ruling.record.Some? {
      var record := ruling.record.value;
      var logged := cached.(traffic := cached.traffic.(calls := cached.traffic.calls + [record]));
      assert LedgersOf(logged) == LedgersOf(s);
      BumpKeeps(logged, record.session, record.at);
    }
  }

  lemma CallKeeps(s: State, args: CallArgs, m: Option<Match>, fallback: Option<Tenant>)
    requires Inv(s) && MayMatch(s, args.number, args.caller, args.hint, m)
    ensures Inv(Call(s, args, m, fallback))
  {
    if !Deduplicated(s.traffic.dedup, args.event, args.now) {
      if m.Some? { assert SessionOk(LedgersOf(s), m.value.sid); }
      EnactKeeps(s, args.event, args.now, DecideCall(s, args, m, fallback));
    }
  }

  lemma StepKeeps(s: State, op: Op)
    requires Inv(s) && Enabled(s, op)
    ensures Inv(Apply(s, op))
  {
    match op
    case OpCreate(args, sid, c, graceMin, maxMin, now, failAt) =>
      CreateKeeps(s, args, sid, c, graceMin, maxMin, now, failAt);
    case OpEnd(sid, tenant, now) => EndKeeps(s, sid, tenant, now);
    case OpSwap(sid, tenant, target) => SwapKeeps(s, sid, tenant, target);
    case OpExpire(sid, now, cooldownMin) => ExpireKeeps(s, sid, now, cooldownMin);
    case OpEvict(sid) => EvictKeeps(s, sid);
    case OpCall(call, m, fallback) => CallKeeps(s, call, m, fallback);
    case _ => assert LedgersOf(Apply(s, op)) == LedgersOf(s);
  }

  /** The platform boots on a provisioned database with no session. */
  ghost predicate Boots(s: State) {
    s == EmptyState(s.numbers).(pool := s.pool)
  }

  lemma {:induction false} EveryRunKeeps(s: State, ops: seq<Op>)
    requires Inv(s) && Runs(s, ops)
    ensures Inv(After(s, ops))
    decreases |ops|
  {
    if ops != [] {
      StepKeeps(s, ops[0]);
      EveryRunKeeps(Apply(s, ops[0]), ops[1..]);
    }
  }

  /** Whatever the operations, their order and the choices Redis makes, no two
      sessions held whole on one number ever share a participant. */
  lemma NoParticipantSharesANumber(s: State, ops: seq<Op>, n: Number, sid: Sid, other: Sid)
    requires Boots(s) && Runs(s, ops)
    requires sid != other
    requires (n, sid) in After(s, ops).hosted && (n, other) in After(s, ops).hosted
    requires Full(After(s, ops).hashes, sid) && Full(After(s, ops).hashes, other)
    ensures ShareNobody(After(s, ops).hashes[sid], After(s, ops).hashes[other])
  {
    assert Inv(s);
    EveryRunKeeps(s, ops);
    assert ApartFromOthers(LedgersOf(After(s, ops)), sid);
  }

  // -------------------------------------------------- what the allocator sees

  predicate RowTouches(row: SessionRow, a: PhoneHash, b: PhoneHash) {
    row.partyAHash == a || row.partyAHash == b || row.partyBHash == a || row.partyBHash == b
  }

  /** By the database, a session on the number has one of the two participants. */
  ghost predicate ParticipantThere(s: State, n: Number, a: PhoneHash, b: PhoneHash) {
    exists sid :: (n, sid) in s.hosted && sid in s.sessions && RowTouches(s.sessions[sid], a, b)
  }

  /** The allocator's test raises no false alarm, and misses a participant only
      for sessions that have lost their hash. */
  lemma OverlapIsExactForWholeHashes(s: State, n: Number, a: PhoneHash, b: PhoneHash)
    requires Inv(s)
    ensures Overlap(s, n, a, b) ==> ParticipantThere(s, n, a, b)
    ensures (forall sid :: (n, sid) in s.hosted ==> Full(s.hashes, sid)) ==>
              (Overlap(s, n, a, b) <==> ParticipantThere(s, n, a, b))
  {
    if sid :| (n, sid) in s.hosted && SessionTouches(s.hashes, sid, a, b) {
      assert SessionOk(LedgersOf(s), sid);
      assert RowTouches(s.sessions[sid], a, b);
    }
    if sid :| (n, sid) in s.hosted && sid in s.sessions && RowTouches(s.sessions[sid], a, b) && Full(s.hashes, sid) {
      assert SessionOk(LedgersOf(s), sid);
      assert SessionTouches(s.hashes, sid, a, b);
    }
  }

  /** The hash of some session on the number names the participant. */
  ghost predicate SeenOn(s: State, n: Number, who: PhoneHash) {
    exists sid :: (n, sid) in s.hosted && SessionTouches(s.hashes, sid, who, who)
  }

  lemma ThereIsSeen(s: State, n: Number, sid: Sid, who: PhoneHash)
    requires (n, sid) in s.hosted && sid in s.sessions && RowTouches(s.sessions[sid], who, who)
    requires Overlap(s, n, who, who) <==> ParticipantThere(s, n, who, who)
    ensures SeenOn(s, n, who)
  {
    assert ParticipantThere(s, n, who, who);
  }

  /** The test is right about a number, for every pair it could be asked about, if
      and only if each participant of a session there is named by the hash of some
      session there. */
  lemma OverlapIsExactWhereAllAreSeen(s: State, n: Number)
    requires Inv(s)
    ensures (forall a, b :: Overlap(s, n, a, b) <==> ParticipantThere(s, n, a, b))
            <==>
            (forall sid :: (n, sid) in s.hosted && sid in s.sessions ==>
              SeenOn(s, n, s.sessions[sid].partyAHash) && SeenOn(s, n, s.sessions[sid].partyBHash))
  {
    if forall a, b :: Overlap(s, n, a, b) <==> ParticipantThere(s, n, a, b) {
      forall sid | (n, sid) in s.hosted && sid in s.sessions
        ensures SeenOn(s, n, s.sessions[sid].partyAHash) && SeenOn(s, n, s.sessions[sid].partyBHash)
      {
        ThereIsSeen(s, n, sid, s.sessions[sid].partyAHash);
        ThereIsSeen(s, n, sid, s.sessions[sid].partyBHash);
      }
    } else {
      var a, b :| !(Overlap(s, n, a, b) <==> ParticipantThere(s, n, a, b));
      OverlapIsExactForWholeHashes(s, n, a, b);
      var sid :| (n, sid) in s.hosted && sid in s.sessions && RowTouches(s.sessions[sid], a, b);
      var who := if s.sessions[sid].partyAHash == a || s.sessions[sid].partyAHash == b
                 then s.sessions[sid].partyAHash else s.sessions[sid].partyBHash;
      assert !SeenOn(s, n, who);
    }
  }

  /** A lost hash does hide its session: the same two participants may then be
      given the same number again. */
  lemma LostHashMayCollide(s: State, r: Region, n: Number, sid: Sid)
    requires Inv(s) && (n, sid) in s.hosted && forall other :: (n, other) in s.hosted ==> other == sid
    requires (r, n) in s.pool.inUse && forall m :: (r, m) !in s.pool.available
    ensures sid in s.sessions
    ensures var t, row := Evict(s, sid), s.sessions[sid];
            && MayAllocate(t, r, row.partyAHash, row.partyBHash, Choice(n, false))
            && ParticipantThere(t, n, row.partyAHash, row.partyBHash)
  {
    assert SessionOk(LedgersOf(s), sid);
    var row := s.sessions[sid];
    assert RowTouches(row, row.partyAHash, row.partyBHash);
    assert !Overlap(Evict(s, sid), n, row.partyAHash, row.partyBHash);
  }

  /** Every session on a number has its hash. */
  ghost predicate HostedAreWhole(s: State) {
    forall n, sid :: (n, sid) in s.hosted ==> Full(s.hashes, sid)
  }

  /** The TTL takes the hash of a session that is still on a number. */
  ghost predicate LosesAHosted(s: State, op: Op) {
    op.OpEvict? && exists n :: (n, op.sid) in s.hosted
  }

  lemma NewIsWhole(s: State, t: State, sid: Sid)
    requires HostedAreWhole(s) && OnlyTouches(LedgersOf(s), LedgersOf(t), sid) && Full(t.hashes, sid)
    ensures HostedAreWhole(t)
  {
    forall n, other | (n, other) in t.hosted ensures Full(t.hashes, other) {
      assert other != sid ==> Untouched(LedgersOf(s), LedgersOf(t), other);
    }
  }

  lemma CreateKeepsWhole(s: State, args: CreateArgs, sid: Sid, c: Choice, graceMin: int, maxMin: int, now: int,
                         failAt: Option<Stage>)
    requires Inv(s) && HostedAreWhole(s) && Enabled(s, OpCreate(args, sid, c, graceMin, maxMin, now, failAt))
    ensures HostedAreWhole(Create(s, args, sid, c, graceMin, maxMin, now, failAt))
  {
    if failAt.None? {
      NewSessionIsOk(s, args, sid, c, graceMin, maxMin, now);
      NewIsWhole(s, Create(s, args, sid, c, graceMin, maxMin, now, None), sid);
    } else {
      RollbackLeaves(s, args, sid, c, graceMin, maxMin, now, failAt.value);
    }
  }

  lemma ExpireKeepsWhole(s: State, sid: Sid, now: int, cooldownMin: int)
    requires Inv(s) && HostedAreWhole(s)
    ensures HostedAreWhole(Expire(s, sid, now, cooldownMin))
  {
    assert SessionOk(LedgersOf(s), sid);
  }

  lemma EvictionLosesHosted(s: State, sid: Sid)
    requires HostedAreWhole(s)
    ensures HostedAreWhole(Evict(s, sid)) <==> !LosesAHosted(s, OpEvict(sid))
  {
    if n :| (n, sid) in s.hosted {
      assert (n, sid) in Evict(s, sid).hosted && !Full(Evict(s, sid).hashes, sid);
    }
  }

  lemma SwapKeepsWhole(s: State, sid: Sid, tenant: Tenant, target: Phone)
    requires HostedAreWhole(s)
    ensures HostedAreWhole(Swap(s, sid, tenant, target))
  {
  }

  lemma EndKeepsWhole(s: State, sid: Sid, tenant: Tenant, now: int)
    requires HostedAreWhole(s)
    ensures HostedAreWhole(End(s, sid, tenant, now))
  {
  }

  lemma OtherStepsKeepWhole(s: State, op: Op)
    requires Enabled(s, op)
    requires op.OpReap? || op.OpLoad? || op.OpQuarantine? || op.OpReinstate? || op.OpSms? || op.OpStatus?
    ensures HostedAreWhole(s) ==> HostedAreWhole(Apply(s, op))
  {
    assert Apply(s, op).hashes == s.hashes && Apply(s, op).hosted == s.hosted;
  }

  lemma CallKeepsWhole(s: State, args: CallArgs, m: Option<Match>, fallback: Option<Tenant>)
    requires HostedAreWhole(s) && MayMatch(s, args.number, args.caller, args.hint, m)
    ensures HostedAreWhole(Call(s, args, m, fallback))
  {
    CallTouchesCountersOnly(s, args, m, fallback);
  }

  /** Nothing but a TTL running out takes the hash of a hosted session. */
  lemma WholenessSurvivesExactly(s: State, op: Op)
    requires Inv(s) && HostedAreWhole(s) && Enabled(s, op)
    ensures HostedAreWhole(Apply(s, op)) <==> !LosesAHosted(s, op)
  {
    match op
    case OpCreate(args, sid, c, graceMin, maxMin, now, failAt) =>
      CreateKeepsWhole(s, args, sid, c, graceMin, maxMin, now, failAt);
    case OpExpire(sid, now, cooldownMin) => ExpireKeepsWhole(s, sid, now, cooldownMin);
    case OpCall(call, m, fallback) => CallKeepsWhole(s, call, m, fallback);
    case OpEvict(sid) => EvictionLosesHosted(s, sid);
    case OpEnd(sid, tenant, now) => EndKeepsWhole(s, sid, tenant, now);
    case OpSwap(sid, tenant, target) => SwapKeepsWhole(s, sid, tenant, target);
    case _ => OtherStepsKeepWhole(s, op);
  }

  ghost predicate KeepsHosted(s: State, ops: seq<Op>)
    requires Runs(s, ops)
    decreases |ops|
  {
    ops == [] || (!LosesAHosted(s, ops[0]) && KeepsHosted(Apply(s, ops[0]), ops[1..]))
  }

  lemma {:induction false} RunsKeepWhole(s: State, ops: seq<Op>)
    requires Inv(s) && HostedAreWhole(s) && Runs(s, ops) && KeepsHosted(s, ops)
    ensures Inv(After(s, ops)) && HostedAreWhole(After(s, ops))
    decreases |ops|
  {
    if ops != [] {
      StepKeeps(s, ops[0]);
      WholenessSurvivesExactly(s, ops[0]);
      RunsKeepWhole(Apply(s, ops[0]), ops[1..]);
    }
  }

  /** After every run from boot in which no hosted session lost its hash, two
      sessions on one number share nobody by their rows. */
  lemma NoParticipantSharesANumberByRows(boot: State, ops: seq<Op>, n: Number, sid: Sid, other: Sid)
    requires Boots(boot) && Runs(boot, ops) && KeepsHosted(boot, ops) && sid != other
    requires (n, sid) in After(boot, ops).hosted && (n, other) in After(boot, ops).hosted
    ensures var t := After(boot, ops);
            && sid in t.sessions && other in t.sessions
            && !RowTouches(t.sessions[sid], t.sessions[other].partyAHash, t.sessions[other].partyBHash)
  {
    var t := After(boot, ops);
    RunsKeepWhole(boot, ops);
    NoParticipantSharesANumber(boot, ops, n, sid, other);
    assert SessionOk(LedgersOf(t), sid) && SessionOk(LedgersOf(t), other);
  }

  // ------------------------------------------------------------ rows and times

  /** Ending touches one row of the tenant, if it is neither ending nor expired:
      its grace period runs from now. Its hash says so, even if it has to be
      re-created for that. */
  lemma EndsExactly(s: State, sid: Sid, tenant: Tenant, now: int, other: Sid)
    requires other in s.sessions
    ensures var t, row := End(s, sid, tenant, now), s.sessions[other];
            && other in t.sessions
            && if other == sid && row.tenant == tenant && row.state != GRACE_PERIOD && row.state != EXPIRED then
                 && t.sessions[other] == row.(state := GRACE_PERIOD, expiresAt := now + 60_000 * row.graceMin)
                 && other in t.hashes && t.hashes[other].state == Some(GRACE_PERIOD)
               else
                 && t.sessions[other] == row
                 && (other in t.hashes <==> other in s.hashes)
                 && (other in t.hashes ==> t.hashes[other] == s.hashes[other])
  {
  }

  /** What no operation changes about a session once it is stored: all but its
      state, its expiry, its customer and its calls. */
  predicate SameIdentity(row: SessionRow, later: SessionRow) {
    && later.tenant == row.tenant && later.proxy == row.proxy
    && later.partyAEnc == row.partyAEnc && later.partyAHash == row.partyAHash
    && later.direction == row.direction && later.mode == row.mode
    && later.recording == row.recording && later.consent == row.consent
    && later.graceMin == row.graceMin && later.createdAt == row.createdAt
  }

  lemma OtherStepsKeepRows(s: State, op: Op)
    requires Enabled(s, op)
    requires op.OpEvict? || op.OpReap? || op.OpLoad? || op.OpQuarantine? || op.OpReinstate? || op.OpSms? || op.OpStatus?
    ensures Apply(s, op).sessions == s.sessions
  {
  }

  lemma SwapKeepsIdentity(s: State, other: Sid, tenant: Tenant, target: Phone, sid: Sid)
    requires sid in s.sessions
    ensures sid in Swap(s, other, tenant, target).sessions
    ensures SameIdentity(s.sessions[sid], Swap(s, other, tenant, target).sessions[sid])
  {
  }

  lemma ExpireKeepsIdentity(s: State, other: Sid, now: int, cooldownMin: int, sid: Sid)
    requires sid in s.sessions
    ensures sid in Expire(s, other, now, cooldownMin).sessions
    ensures SameIdentity(s.sessions[sid], Expire(s, other, now, cooldownMin).sessions[sid])
  {
  }

  lemma StepKeepsIdentity(s: State, op: Op, sid: Sid)
    requires Enabled(s, op) && sid in s.sessions
    ensures sid in Apply(s, op).sessions && SameIdentity(s.sessions[sid], Apply(s, op).sessions[sid])
  {
    match op
    case OpCreate(args, other, c, graceMin, maxMin, now, failAt) =>
      CreatedRow(s, args, other, c, graceMin, maxMin, now, failAt);
    case OpCall(call, m, fallback) => CallTouchesCountersOnly(s, call, m, fallback);
    case OpExpire(other, now, cooldownMin) => ExpireKeepsIdentity(s, other, now, cooldownMin, sid);
    case OpEnd(other, tenant, now) => EndsExactly(s, other, tenant, now, sid);
    case OpSwap(other, tenant, target) => SwapKeepsIdentity(s, other, tenant, target, sid);
    case _ => OtherStepsKeepRows(s, op);
  }

  /** Over every run: so a session that ends is due the grace period it was
      created with later, and its number, agent and terms are those it began with. */
  lemma {:induction false} RowsKeepTheirIdentity(s: State, ops: seq<Op>, sid: Sid)
    requires Runs(s, ops) && sid in s.sessions
    ensures sid in After(s, ops).sessions && SameIdentity(s.sessions[sid], After(s, ops).sessions[sid])
    decreases |ops|
  {
    if ops != [] {
      StepKeepsIdentity(s, ops[0], sid);
      RowsKeepTheirIdentity(Apply(s, ops[0]), ops[1..], sid);
    }
  }
}
