/** src/services/session-manager.ts: the lifecycle of a masking session. */
module SessionManagerModel {
  import opened Types
  import opened StoreModel
  import opened NumberPoolModel

  datatype SessionError =
    | TENANT_REQUIRED | INVALID_PHONE | SAME_PARTIES | CONSENT_REQUIRED | POOL_EXHAUSTED
    | CREATE_FAILED(stage: Stage)
    | SESSION_NOT_SWAPPABLE | SAME_AS_AGENT | TARGET_CONFLICT | UNDECRYPTABLE

  /** Environment defaults. */
  datatype Env = Env(graceMin: int, maxDurationMin: int, cooldownMin: int)

  /** The tenant's own defaults, any of which may be NULL. */
  datatype TenantConfig = TenantConfig(graceMin: Option<int>, sessionTtlMin: Option<int>, cooldownMin: Option<int>)

  datatype CreateArgs = CreateArgs(
    tenant: Tenant,
    agent: Phone,
    customer: Phone,
    region: Option<Region>,
    graceMin: Option<int>,
    maxDurationMin: Option<int>,
    direction: DirectionMode,
    recording: bool,
    consent: ConsentPrompt,
    mode: Mode)

  // ---------------------------------------------------------------- create

  /** The command of createSession that raised. */
  datatype Stage = InsertFails | ActivateFails | HashFails | TtlFails | TenantSetFails | RereadFails

  function CreateCheck(args: CreateArgs): Option<SessionError> {
    if args.tenant == "" then Some(TENANT_REQUIRED)
    else if !IsE164(args.agent) || !IsE164(args.customer) then Some(INVALID_PHONE)
    else if args.agent == args.customer then Some(SAME_PARTIES)
    else if args.recording && args.consent == NO_PROMPT then Some(CONSENT_REQUIRED)
    else None
  }

  predicate AllDigits(s: string) {
    forall c :: c in s ==> '0' <= c <= '9'
  }

  /** A plus sign, a first digit that is no zero, and 7 to 14 digits more. */
  ghost predicate ProperPhone(phone: Phone) {
    exists first: char, rest: string ::
      phone == "+" + [first] + rest && '1' <= first <= '9' && 7 <= |rest| <= 14 && AllDigits(rest)
  }

  lemma E164Exactly(phone: Phone)
    ensures IsE164(phone) <==> ProperPhone(phone)
  {
    if IsE164(phone) {
      var rest := phone[2..];
      assert phone == "+" + [phone[1]] + rest;
      forall c | c in rest ensures '0' <= c <= '9' {
        var i :| 0 <= i < |rest| && rest[i] == c;
        assert phone[i + 2] == c;
      }
      assert AllDigits(rest);
    }
    if first: char, rest: string :| phone == "+" + [first] + rest && '1' <= first <= '9'
                                    && 7 <= |rest| <= 14 && AllDigits(rest)
    {
      assert phone[0] == '+' && phone[1] == first;
      forall i | 2 <= i < |phone| ensures '0' <= phone[i] <= '9' {
        assert phone[i] == rest[i - 2] && rest[i - 2] in rest;
      }
    }
  }

  /** Which requests pass, and what is wrong with each that does not. */
  lemma RequestsAreJudgedExactly(args: CreateArgs)
    ensures CreateCheck(args) == None <==>
              && args.tenant != "" && ProperPhone(args.agent) && ProperPhone(args.customer)
              && args.agent != args.customer
              && (args.recording ==> args.consent == DEFAULT || args.consent == CUSTOM)
    ensures CreateCheck(args) == Some(TENANT_REQUIRED) <==> args.tenant == ""
    ensures CreateCheck(args) == Some(INVALID_PHONE) <==>
              args.tenant != "" && !(ProperPhone(args.agent) && ProperPhone(args.customer))
    ensures CreateCheck(args) == Some(SAME_PARTIES) ==> args.agent == args.customer
    ensures CreateCheck(args) == Some(CONSENT_REQUIRED) ==> args.recording && args.consent == NO_PROMPT
  {
    E164Exactly(args.agent);
    E164Exactly(args.customer);
  }

  function AgentHash(args: CreateArgs): PhoneHash { HashPhone(args.agent, args.tenant) }

  function CustomerHash(args: CreateArgs): PhoneHash { HashPhone(args.customer, args.tenant) }

  function CreateRegion(args: CreateArgs): Region { args.region.GetOr(DEFAULT_REGION) }

  /** The inserted row, in the state the insert gives it. */
  function NewRow(args: CreateArgs, n: Number, graceMin: int, maxMin: int, now: int): SessionRow {
    SessionRow(args.tenant, Encrypt(args.agent, args.tenant), Encrypt(args.customer, args.tenant),
               AgentHash(args), CustomerHash(args), n, PENDING, args.direction, graceMin, args.recording,
               args.consent, args.mode, now + maxMin * 60_000, now, None, 0)
  }

  /** The HSET of a whole session hash. */
  function FillHash(h: SessionHash, sid: Sid, row: SessionRow): SessionHash {
    SessionHash(Some(sid), Some(row.tenant), Some(row.partyAHash), Some(row.partyBHash), Some(row.proxy), Some(ACTIVE),
                Some(row.direction), Some(row.mode), Some(row.recording), Some(row.consent), h.lastCallAt, 0)
  }

  /** How far the writes after allocation got before `stage` raised. */
  function Reached(p: State, sid: Sid, row: SessionRow, stage: Option<Stage>): State {
    if stage == Some(InsertFails) then p
    else if stage == Some(ActivateFails) then p.(sessions := p.sessions[sid := row])
    else
      var activated := p.(sessions := p.sessions[sid := row.(state := ACTIVE)]);
      if stage == Some(HashFails) then activated
      else
        var hashed := activated.(hashes := p.hashes[sid := FillHash(HashAt(p.hashes, sid), sid, row)]);
        if stage == Some(TtlFails) || stage == Some(TenantSetFails) then hashed
        else hashed.(active := p.active + {(row.tenant, sid)})
  }

  function MarkFailed(s: State, sid: Sid): State {
    if sid in s.sessions then s.(sessions := s.sessions[sid := s.sessions[sid].(state := FAILED)]) else s
  }

  /** The writes after allocation, and the rollback when one of them raises. */
  ghost function Finish(p: State, region: Option<Region>, sid: Sid, row: SessionRow, stage: Option<Stage>): State {
    var reached := Reached(p, sid, row, stage);
    if stage.None? then reached
    else MarkFailed(Release(reached, ReleaseRegion(reached.pool, region, row.proxy), row.proxy, sid, 0), sid)
  }

  /** What createSession does once a number was allocated. */
  ghost function Create(s: State, args: CreateArgs, sid: Sid, c: Choice, graceMin: int, maxMin: int, now: int,
                        stage: Option<Stage>): State
  {
    var placed := Place(s, CreateRegion(args), c, AgentHash(args), CustomerHash(args), sid);
    Finish(placed, args.region, sid, NewRow(args, c.number, graceMin, maxMin, now), stage)
  }

  // ------------------------------------------------------------------- end

  predicate Ends(s: State, sid: Sid, tenant: Tenant) {
    && sid in s.sessions
    && s.sessions[sid].tenant == tenant
    && s.sessions[sid].state != EXPIRED
    && s.sessions[sid].state != GRACE_PERIOD
  }

  function End(s: State, sid: Sid, tenant: Tenant, now: int): State {
    if !Ends(s, sid, tenant) then s
    else
      var row := s.sessions[sid];
      s.(sessions := s.sessions[sid := row.(state := GRACE_PERIOD, expiresAt := now + row.graceMin * 60_000)],
         hashes := s.hashes[sid := HashAt(s.hashes, sid).(state := Some(GRACE_PERIOD))])
  }

  // ------------------------------------------------------------------ swap

  datatype SwapVerdict = NotFound | Refused(error: SessionError) | AlreadyThere | Swapped

  /** A routable hash that names the participant. */
  predicate NamesLive(h: SessionHash, who: PhoneHash) {
    && h.id.Some?
    && h.state.Some? && IsLive(h.state.value)
    && (h.partyA == Some(who) || h.partyB == Some(who))
  }

  /** Another live session on the number already has the participant. */
  ghost predicate Conflict(s: State, n: Number, sid: Sid, who: PhoneHash) {
    exists other :: (n, other) in s.hosted && other != sid && other in s.hashes && NamesLive(s.hashes[other], who)
  }

  ghost function JudgeSwap(s: State, sid: Sid, tenant: Tenant, target: Phone): SwapVerdict {
    if !IsE164(target) then Refused(INVALID_PHONE)
    else if sid !in s.sessions || s.sessions[sid].tenant != tenant then NotFound
    else
      var row := s.sessions[sid];
      if !IsLive(row.state) then Refused(SESSION_NOT_SWAPPABLE)
      else if Decrypt(row.partyAEnc, tenant).None? then Refused(UNDECRYPTABLE)
      else if Decrypt(row.partyAEnc, tenant) == Some(target) then Refused(SAME_AS_AGENT)
      else if Decrypt(row.partyBEnc, tenant).None? then Refused(UNDECRYPTABLE)
      else if Decrypt(row.partyBEnc, tenant) == Some(target) then AlreadyThere
      else if Conflict(s, row.proxy, sid, HashPhone(target, tenant)) then Refused(TARGET_CONFLICT)
      else Swapped
  }

  /** The writes of an accepted swap; the hash may have been evicted. */
  function Retarget(s: State, sid: Sid, target: Phone): State
    requires sid in s.sessions
  {
    var row := s.sessions[sid];
    var hash := HashPhone(target, row.tenant);
    s.(sessions := s.sessions[sid := row.(partyBEnc := Encrypt(target, row.tenant), partyBHash := hash)],
       phones := s.phones - {(row.partyBHash, sid)} + {(hash, sid)},
       hashes := if sid in s.hashes then s.hashes[sid := s.hashes[sid].(partyB := Some(hash))] else s.hashes)
  }

  ghost function Swap(s: State, sid: Sid, tenant: Tenant, target: Phone): State {
    if JudgeSwap(s, sid, tenant, target) == Swapped then Retarget(s, sid, target) else s
  }

  // ---------------------------------------------------------------- expire

  predicate Expires(s: State, sid: Sid) {
    sid in s.sessions && s.sessions[sid].state != EXPIRED
  }

  /** Removal of every Redis trace of a session. */
  function Forget(s: State, sid: Sid, row: SessionRow): State {
    s.(hashes := s.hashes - {sid},
       hosted := s.hosted - {(row.proxy, sid)},
       phones := s.phones - {(row.partyAHash, sid), (row.partyBHash, sid)},
       active := s.active - {(row.tenant, sid)})
  }

  ghost function Expire(s: State, sid: Sid, now: int, cooldownMin: int): State {
    if !Expires(s, sid) then s
    else
      var row := s.sessions[sid];
      var marked := s.(sessions := s.sessions[sid := row.(state := EXPIRED)]);
      var r := ReleaseRegion(s.pool, None, row.proxy);
      Forget(Release(marked, r, row.proxy, sid, CooldownUntil(now, cooldownMin)), sid, row)
  }

  // ---------------------------------------------------------------- verify

  const VERIFY_WINDOW_MS := 60_000

  /** The session is live for the tenant and saw a call in the last minute. */
  predicate CalledRecently(hashes: map<Sid, SessionHash>, sid: Sid, tenant: Tenant, now: int) {
    && sid in hashes
    && var h := hashes[sid];
    && h.id.Some?
    && h.tenant == Some(tenant)
    && h.state.Some? && IsLive(h.state.value)
    && h.lastCallAt.Some? && now - h.lastCallAt.value <= VERIFY_WINDOW_MS
  }

  // ----------------------------------------------------------- the service

  class SessionManager {
    const store: Store
    const pool: NumberPool
    const env: Env

    constructor (store: Store, pool: NumberPool, env: Env)
      requires pool.store == store
      ensures this.store == store && this.pool == pool && this.env == env
    {
      this.store, this.pool, this.env := store, pool, env;
    }

    /** Durations: the request's own value, else the tenant's, else the environment's. */
    function ResolveGrace(args: CreateArgs, config: Option<TenantConfig>): int {
      if args.graceMin.Some? then args.graceMin.value
      else if config.Some? && config.value.graceMin.Some? then config.value.graceMin.value
      else env.graceMin
    }

    function ResolveDuration(args: CreateArgs, config: Option<TenantConfig>): int {
      if args.maxDurationMin.Some? then args.maxDurationMin.value
      else if config.Some? && config.value.sessionTtlMin.Some? then config.value.sessionTtlMin.value
      else env.maxDurationMin
    }

    function ResolveCooldown(config: Option<TenantConfig>): int {
      if config.Some? && config.value.cooldownMin.Some? then config.value.cooldownMin.value else env.cooldownMin
    }

    /** The request's own durations, else the tenant's, else the environment's. */
    predicate HasTimes(row: SessionRow, args: CreateArgs, config: Option<TenantConfig>, now: int) {
      && row.createdAt == now
      && (args.maxDurationMin.Some? ==> row.expiresAt == now + args.maxDurationMin.value * 60_000)
      && (args.maxDurationMin.None? ==>
            if config.Some? && config.value.sessionTtlMin.Some?
            then row.expiresAt == now + config.value.sessionTtlMin.value * 60_000
            else row.expiresAt == now + env.maxDurationMin * 60_000)
      && (args.graceMin.Some? ==> row.graceMin == args.graceMin.value)
      && (args.graceMin.None? ==>
            if config.Some? && config.value.graceMin.Some? then row.graceMin == config.value.graceMin.value
            else row.graceMin == env.graceMin)
    }

    /** The writes after allocation, up to the command that raises, if any. */
    method WriteSession(sid: Sid, row: SessionRow, failAt: Option<Stage>) returns (failed: bool)
      modifies store
      ensures store.Snapshot() == Reached(old(store.Snapshot()), sid, row, failAt)
      ensures failed <==> failAt.Some?
    {
      if failAt == Some(InsertFails) { return true; }
      store.sessions := store.sessions[sid := row];
      if failAt == Some(ActivateFails) { return true; }
      store.sessions := store.sessions[sid := store.sessions[sid].(state := ACTIVE)];
      assert store.sessions == old(store.sessions)[sid := row.(state := ACTIVE)];
      if failAt == Some(HashFails) { return true; }
      store.hashes := store.hashes[sid := FillHash(HashAt(store.hashes, sid), sid, row)];
      if failAt == Some(TtlFails) || failAt == Some(TenantSetFails) { return true; }
      store.active := store.active + {(row.tenant, sid)};
      return failAt.Some?; // the re-read is the last command that can raise
    }

    /** The try and catch blocks of createSession. */
    method FinishOrRollBack(row: SessionRow, sid: Sid, region: Option<Region>, now: int, failAt: Option<Stage>)
      requires pool.store == store
      modifies store
      ensures store.Snapshot() == Finish(old(store.Snapshot()), region, sid, row, failAt)
      ensures failAt.None? ==> sid in store.sessions && store.sessions[sid] == row.(state := ACTIVE)
    {
      var failed := WriteSession(sid, row, failAt);
      if failed {
        var _ := pool.ReleaseNumber(row.proxy, sid, region, 0, now);
        if sid in store.sessions {
          store.sessions := store.sessions[sid := store.sessions[sid].(state := FAILED)];
        }
      }
    }

    method CreateSession(args: CreateArgs, config: Option<TenantConfig>, sid: Sid, now: int, failAt: Option<Stage>)
      returns (result: Result<Number, SessionError>, ghost fromAvailable: bool)
      requires pool.store == store
      modifies store
      ensures CreateCheck(args).Some? ==>
                result == Failure(CreateCheck(args).value) && store.Snapshot() == old(store.Snapshot())
      ensures CreateCheck(args).None? && result == Failure(POOL_EXHAUSTED) ==>
                && store.Snapshot() == old(store.Snapshot())
                && MayRefuse(old(store.Snapshot()), CreateRegion(args), AgentHash(args), CustomerHash(args))
      ensures CreateCheck(args).None? && result != Failure(POOL_EXHAUSTED) ==>
                exists c: Choice ::
                  && MayAllocate(old(store.Snapshot()), CreateRegion(args), AgentHash(args), CustomerHash(args), c)
                  && store.Snapshot() == Create(old(store.Snapshot()), args, sid, c, ResolveGrace(args, config),
                                                ResolveDuration(args, config), now, failAt)
                  && result == if failAt.Some? then Failure(CREATE_FAILED(failAt.value)) else Success(c.number)
      ensures result.Success? ==> sid in store.sessions && HasTimes(store.sessions[sid], args, config, now)
    {
      fromAvailable := false;
      if args.tenant == "" { return Failure(TENANT_REQUIRED), false; }
      if !IsE164(args.agent) { return Failure(INVALID_PHONE), false; }
      if !IsE164(args.customer) { return Failure(INVALID_PHONE), false; }
      if args.agent == args.customer { return Failure(SAME_PARTIES), false; }
      if args.recording && args.consent == NO_PROMPT { return Failure(CONSENT_REQUIRED), false; }

      var proxy: Option<Number>;
      proxy, fromAvailable := pool.Allocate(args.region, AgentHash(args), CustomerHash(args), sid);
      if proxy.None? {
        return Failure(POOL_EXHAUSTED), fromAvailable;
      }
      var row := NewRow(args, proxy.value, ResolveGrace(args, config), ResolveDuration(args, config), now);
      FinishOrRollBack(row, sid, args.region, now, failAt);
      ghost var c := Choice(proxy.value, fromAvailable);
      assert MayAllocate(old(store.Snapshot()), CreateRegion(args), AgentHash(args), CustomerHash(args), c);
      result := if failAt.Some? then Failure(CREATE_FAILED(failAt.value)) else Success(proxy.value);
    }

    method EndSession(sid: Sid, tenant: Tenant, now: int) returns (found: bool)
      modifies store
      ensures store.Snapshot() == End(old(store.Snapshot()), sid, tenant, now)
      ensures found <==> sid in old(store.sessions) && old(store.sessions)[sid].tenant == tenant
    {
      if sid !in store.sessions || store.sessions[sid].tenant != tenant {
        return false;
      }
      var row := store.sessions[sid];
      if row.state == EXPIRED || row.state == GRACE_PERIOD {
        return true;
      }
      store.sessions := store.sessions[sid := row.(state := GRACE_PERIOD, expiresAt := now + row.graceMin * 60_000)];
      store.hashes := store.hashes[sid := HashAt(store.hashes, sid).(state := Some(GRACE_PERIOD))];
      return true;
    }

    /** The scan of the proxy's other sessions before a swap. */
    method FindConflict(n: Number, sid: Sid, who: PhoneHash) returns (found: bool)
      ensures found == Conflict(store.Snapshot(), n, sid, who)
    {
      var siblings := MembersOf(store.hosted, n);
      var rest := siblings;
      while rest != {}
        invariant rest <= siblings
        invariant forall other :: other in siblings - rest && other != sid && other in store.hashes ==>
                    !NamesLive(store.hashes[other], who)
        decreases rest
      {
        var other :| other in rest;
        rest := rest - {other};
        if other != sid && other in store.hashes && NamesLive(store.hashes[other], who) {
          assert (n, other) in store.Snapshot().hosted;
          return true;
        }
      }
      return false;
    }

    method SwapTarget(sid: Sid, tenant: Tenant, target: Phone) returns (verdict: SwapVerdict)
      modifies store
      ensures verdict == JudgeSwap(old(store.Snapshot()), sid, tenant, target)
      ensures store.Snapshot() == Swap(old(store.Snapshot()), sid, tenant, target)
    {
      if !IsE164(target) { return Refused(INVALID_PHONE); }
      if sid !in store.sessions || store.sessions[sid].tenant != tenant { return NotFound; }
      var row := store.sessions[sid];
      if !IsLive(row.state) { return Refused(SESSION_NOT_SWAPPABLE); }

      var agent := Decrypt(row.partyAEnc, tenant);
      if agent.None? { return Refused(UNDECRYPTABLE); }
      if agent.value == target { return Refused(SAME_AS_AGENT); }
      var current := Decrypt(row.partyBEnc, tenant);
      if current.None? { return Refused(UNDECRYPTABLE); }
      if current.value == target { return AlreadyThere; }

      var newHash := HashPhone(target, tenant);
      var oldHash := row.partyBHash;
      var conflict := FindConflict(row.proxy, sid, newHash);
      if conflict { return Refused(TARGET_CONFLICT); }

      store.sessions := store.sessions[sid := row.(partyBEnc := Encrypt(target, tenant), partyBHash := newHash)];
      store.phones := store.phones - {(oldHash, sid)};
      store.phones := store.phones + {(newHash, sid)};
      if sid in store.hashes {
        store.hashes := store.hashes[sid := store.hashes[sid].(partyB := Some(newHash))];
      }
      return Swapped;
    }

    method ExpireSession(sid: Sid, config: Option<TenantConfig>, now: int) returns (ok: bool)
      requires pool.store == store
      modifies store
      ensures config.Some? && config.value.cooldownMin.Some? ==>
                store.Snapshot() == Expire(old(store.Snapshot()), sid, now, config.value.cooldownMin.value)
      ensures (config.Some? ==> config.value.cooldownMin.None?) ==>
                store.Snapshot() == Expire(old(store.Snapshot()), sid, now, env.cooldownMin)
      ensures ok <==> sid in old(store.sessions)
    {
      if sid !in store.sessions { return false; }
      var row := store.sessions[sid];
      if row.state == EXPIRED { return true; }
      store.sessions := store.sessions[sid := row.(state := EXPIRED)];
      var _ := pool.ReleaseNumber(row.proxy, sid, None, ResolveCooldown(config), now);
      ghost var released := store.Snapshot();
      store.hashes := store.hashes - {sid};
      store.hosted := store.hosted - {(row.proxy, sid)};
      store.phones := store.phones - {(row.partyAHash, sid)};
      store.phones := store.phones - {(row.partyBHash, sid)};
      store.active := store.active - {(row.tenant, sid)};
      assert store.phones == released.phones - {(row.partyAHash, sid), (row.partyBHash, sid)};
      assert store.Snapshot() == Forget(released, sid, row);
      return true;
    }

    /** Is there a live session of this participant with a call in the last minute? */
    method VerifyCall(who: PhoneHash, tenant: Tenant, now: int) returns (verified: Option<Sid>)
      ensures verified.Some? ==>
                (who, verified.value) in store.phones && CalledRecently(store.hashes, verified.value, tenant, now)
      ensures verified.None? ==>
                forall sid :: (who, sid) in store.phones ==> !CalledRecently(store.hashes, sid, tenant, now)
    {
      var listed := MembersOf(store.phones, who);
      var rest := listed;
      while rest != {}
        invariant rest <= listed
        invariant forall sid :: sid in listed - rest ==> !CalledRecently(store.hashes, sid, tenant, now)
        decreases rest
      {
        var sid :| sid in rest;
        rest := rest - {sid};
        if CalledRecently(store.hashes, sid, tenant, now) {
          return Some(sid);
        }
      }
      return None;
    }
  }
}
