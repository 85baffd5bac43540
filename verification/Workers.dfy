/** src/workers/session-expiry.ts and src/workers/pool-reaper.ts: the periodic
    sweeps over due sessions and due numbers. */
module WorkersModel {
  import opened Types
  import opened StoreModel
  import opened NumberPoolModel
  import opened SessionManagerModel
  import opened LifecycleModel
  import opened MaskingModel

  const BATCH_LIMIT := 100

  // --------------------------------------------------------------- expiry

  predicate IsDue(row: SessionRow, now: int) {
    IsLive(row.state) && row.expiresAt < now
  }

  function DueSessions(sessions: map<Sid, SessionRow>, now: int): set<Sid> {
    set sid | sid in sessions && IsDue(sessions[sid], now)
  }

  /** The due sessions are the ACTIVE and ending ones whose time has run out. */
  lemma DueExactly(sessions: map<Sid, SessionRow>, now: int, sid: Sid)
    ensures sid in DueSessions(sessions, now) <==>
              && sid in sessions
              && (sessions[sid].state == ACTIVE || sessions[sid].state == GRACE_PERIOD)
              && sessions[sid].expiresAt < now
  {
  }

  function Min(x: int, y: int): int {
    if x < y then x else y
  }

  /** The operations of one sweep: each swept session expires once. */
  ghost predicate Sweep(ops: seq<Op>, batch: seq<Sid>, now: int) {
    && |ops| == |batch|
    && (forall i :: 0 <= i < |ops| ==> ops[i].OpExpire? && ops[i].sid == batch[i] && ops[i].now == now)
  }

  predicate Distinct(batch: seq<Sid>) {
    forall i, j :: 0 <= i < j < |batch| ==> batch[i] != batch[j]
  }

  /** A batch the query with its LIMIT may return. */
  ghost predicate MayBatch(sessions: map<Sid, SessionRow>, batch: seq<Sid>, now: int) {
    && Distinct(batch)
    && (forall i :: 0 <= i < |batch| ==> batch[i] in DueSessions(sessions, now))
    && |batch| == Min(|DueSessions(sessions, now)|, BATCH_LIMIT)
  }

  predicate Overdue(row: SessionRow, now: int) {
    (row.state == ACTIVE || row.state == GRACE_PERIOD) && row.expiresAt < now
  }

  /** At most 100 rows that are overdue, and if fewer, then all of them. */
  predicate TakesOverdue(sessions: map<Sid, SessionRow>, batch: seq<Sid>, now: int) {
    && |batch| <= 100
    && (forall i :: 0 <= i < |batch| ==> batch[i] in sessions && Overdue(sessions[batch[i]], now))
    && (|batch| < 100 ==> forall sid :: sid in sessions && Overdue(sessions[sid], now) ==> sid in batch)
  }

  function Members(batch: seq<Sid>): set<Sid> {
    set sid | sid in batch
  }

  lemma {:induction false} DistinctCount(batch: seq<Sid>)
    requires Distinct(batch)
    ensures |Members(batch)| == |batch|
  {
    if batch != [] {
      var last := batch[|batch| - 1];
      DistinctCount(batch[..|batch| - 1]);
      assert Members(batch) == Members(batch[..|batch| - 1]) + {last};
    }
  }

  /** Expiring one session takes exactly that one off the due list. */
  lemma ExpireClearsOne(s: State, sid: Sid, now: int, clock: int, cooldownMin: int)
    ensures DueSessions(Expire(s, sid, clock, cooldownMin).sessions, now) == DueSessions(s.sessions, now) - {sid}
    ensures sid in s.sessions ==> IsExpired(Expire(s, sid, clock, cooldownMin), sid)
  {
    if Expires(s, sid) {
      var row := s.sessions[sid];
      assert Expire(s, sid, clock, cooldownMin).sessions == s.sessions[sid := row.(state := EXPIRED)];
    }
  }

  lemma ExpireKeepsKeys(s: State, sid: Sid, now: int, cooldownMin: int)
    ensures Expire(s, sid, now, cooldownMin).sessions.Keys == s.sessions.Keys
  {
  }

  /** A sweep takes exactly its batch off the due list and leaves no trace of
      any swept session in Redis. */
  lemma {:induction false} SweepClearsItsBatch(s: State, ops: seq<Op>, batch: seq<Sid>, now: int)
    requires Inv(s) && Runs(s, ops) && Sweep(ops, batch, now)
    requires forall i :: 0 <= i < |batch| ==> batch[i] in s.sessions
    ensures Inv(After(s, ops))
    ensures DueSessions(After(s, ops).sessions, now) == DueSessions(s.sessions, now) - Members(batch)
    ensures forall i :: 0 <= i < |batch| ==> IsExpired(After(s, ops), batch[i]) && NoTrace(After(s, ops), batch[i])
    decreases |ops|
  {
    if ops != [] {
      var sid, rest := batch[0], batch[1..];
      var t := Apply(s, ops[0]);
      StepKeeps(s, ops[0]);
      ExpireClearsOne(s, sid, now, now, ops[0].cooldownMin);
      ExpireKeepsKeys(s, sid, now, ops[0].cooldownMin);
      SweepClearsItsBatch(t, ops[1..], rest, now);
      ExpiredForever(t, ops[1..], sid);
      assert Members(batch) == {sid} + Members(rest);
      forall i | 0 <= i < |batch| ensures IsExpired(After(s, ops), batch[i]) && NoTrace(After(s, ops), batch[i]) {
        if i > 0 { assert batch[i] == rest[i - 1]; }
      }
    }
  }

  /** One tick of the worker, as a relation on states. */
  ghost predicate Tick(s: State, t: State, now: int) {
    exists ops, batch ::
      Runs(s, ops) && Sweep(ops, batch, now) && MayBatch(s.sessions, batch, now) && t == After(s, ops)
  }

  lemma TickClearsABatch(s: State, t: State, now: int)
    requires Inv(s) && Tick(s, t, now)
    ensures Inv(t)
    ensures var due := |DueSessions(s.sessions, now)|;
            |DueSessions(t.sessions, now)| == due - Min(due, BATCH_LIMIT)
  {
    var ops, batch :| Runs(s, ops) && Sweep(ops, batch, now) && MayBatch(s.sessions, batch, now) && t == After(s, ops);
    SweepClearsItsBatch(s, ops, batch, now);
    DistinctCount(batch);
    assert Members(batch) <= DueSessions(s.sessions, now);
  }

  lemma ExpireSpares(s: State, other: Sid, now: int, cooldownMin: int, sid: Sid)
    requires sid in s.sessions && other != sid
    ensures var t := Expire(s, other, now, cooldownMin);
            && sid in t.sessions && t.sessions[sid] == s.sessions[sid]
            && (sid in t.hashes <==> sid in s.hashes)
            && (sid in t.hashes ==> t.hashes[sid] == s.hashes[sid])
            && forall n :: (n, sid) in t.hosted <==> (n, sid) in s.hosted
  {
  }

  lemma {:induction false} SweepSparesTheRest(s: State, ops: seq<Op>, batch: seq<Sid>, now: int, sid: Sid)
    requires Runs(s, ops) && Sweep(ops, batch, now) && sid in s.sessions
    requires forall i :: 0 <= i < |batch| ==> batch[i] != sid
    ensures var t := After(s, ops);
            && sid in t.sessions && t.sessions[sid] == s.sessions[sid]
            && (sid in t.hashes <==> sid in s.hashes)
            && (sid in t.hashes ==> t.hashes[sid] == s.hashes[sid])
            && forall n :: (n, sid) in t.hosted <==> (n, sid) in s.hosted
    decreases |ops|
  {
    if ops != [] {
      ExpireSpares(s, ops[0].sid, now, ops[0].cooldownMin, sid);
      SweepSparesTheRest(Apply(s, ops[0]), ops[1..], batch[1..], now, sid);
    }
  }

  /** A tick leaves every session alone whose time has not run out. */
  lemma TickSparesTheRest(s: State, t: State, now: int, sid: Sid)
    requires Tick(s, t, now) && sid in s.sessions && s.sessions[sid].expiresAt >= now
    ensures sid in t.sessions && t.sessions[sid] == s.sessions[sid]
    ensures sid in t.hashes <==> sid in s.hashes
    ensures sid in t.hashes ==> t.hashes[sid] == s.hashes[sid]
    ensures forall n :: (n, sid) in t.hosted <==> (n, sid) in s.hosted
  {
    var ops, batch :| Runs(s, ops) && Sweep(ops, batch, now) && MayBatch(s.sessions, batch, now) && t == After(s, ops);
    DueExactly(s.sessions, now, sid);
    SweepSparesTheRest(s, ops, batch, now, sid);
  }

  predicate NoneOverdue(s: State, now: int) {
    forall sid :: sid in s.sessions ==> !Overdue(s.sessions[sid], now)
  }

  lemma NoneDueIsNoneOverdue(s: State, now: int)
    ensures DueSessions(s.sessions, now) == {} <==> NoneOverdue(s, now)
  {
    forall sid ensures sid in DueSessions(s.sessions, now) <==> sid in s.sessions && Overdue(s.sessions[sid], now) {
      DueExactly(s.sessions, now, sid);
    }
  }

  /** With the clock standing still, k due sessions are cleared in exactly
      ceil(k / 100) non-empty ticks: tick i finds work if and only if fewer than
      k sessions fit into the i batches before it. */
  lemma {:induction false} TicksDrainTheBacklog(states: seq<State>, now: int, i: nat)
    requires |states| > 0 && Inv(states[0]) && i < |states|
    requires forall j :: 0 <= j < |states| - 1 ==> Tick(states[j], states[j + 1], now)
    ensures Inv(states[i])
    ensures var k := |DueSessions(states[0].sessions, now)|;
            && |DueSessions(states[i].sessions, now)| == (if BATCH_LIMIT * i < k then k - BATCH_LIMIT * i else 0)
            && (DueSessions(states[i].sessions, now) != {} <==> i < (k + 99) / 100)
            && (i >= (k + 99) / 100 <==> NoneOverdue(states[i], now))
    decreases i
  {
    if i > 0 {
      TicksDrainTheBacklog(states, now, i - 1);
      assert Tick(states[i - 1], states[i], now);
      TickClearsABatch(states[i - 1], states[i], now);
    }
    NoneDueIsNoneOverdue(states[i], now);
  }

  /** How far a sweep has come when it has expired these sessions. */
  ghost predicate Sweeping(s: State, t: State, ops: seq<Op>, done: seq<Sid>, now: int) {
    Runs(s, ops) && t == After(s, ops) && Sweep(ops, done, now) && t.sessions.Keys == s.sessions.Keys
  }

  lemma SweepGoesOn(s: State, t: State, ops: seq<Op>, done: seq<Sid>, now: int, sid: Sid, cooldownMin: int)
    requires Sweeping(s, t, ops, done, now)
    ensures Sweeping(s, Expire(t, sid, now, cooldownMin), ops + [OpExpire(sid, now, cooldownMin)], done + [sid], now)
  {
    RunsExtend(s, ops, OpExpire(sid, now, cooldownMin));
    ExpireKeepsKeys(t, sid, now, cooldownMin);
  }

  class SessionExpiryWorker {
    const sessionManager: SessionManager
    var inFlight: bool

    constructor (sessionManager: SessionManager)
      ensures this.sessionManager == sessionManager && !inFlight
    {
      this.sessionManager := sessionManager;
      inFlight := false;
    }

    /** SELECT of at most BATCH_LIMIT due rows, in no particular order. */
    method SelectDue(now: int) returns (batch: seq<Sid>)
      ensures MayBatch(sessionManager.store.sessions, batch, now)
      ensures TakesOverdue(sessionManager.store.sessions, batch, now)
    {
      var due := DueSessions(sessionManager.store.sessions, now);
      var rest := due;
      batch := [];
      while |batch| < BATCH_LIMIT && rest != {}
        invariant rest <= due && |batch| <= BATCH_LIMIT
        invariant Distinct(batch) && |batch| + |rest| == |due|
        invariant forall i :: 0 <= i < |batch| ==> batch[i] in due - rest
        invariant forall sid :: sid in due - rest ==> sid in batch
        decreases rest
      {
        var sid :| sid in rest;
        rest := rest - {sid};
        batch := batch + [sid];
      }
    }

    /** A tick runs a sweep, unless one is already in flight. */
    method RunTick(configs: map<Tenant, TenantConfig>, now: int) returns (succeeded: nat, failed: int)
      requires sessionManager.pool.store == sessionManager.store
      modifies this, sessionManager.store
      ensures inFlight == old(inFlight)
      ensures old(inFlight) ==> sessionManager.store.Snapshot() == old(sessionManager.store.Snapshot())
      ensures !old(inFlight) ==>
                && Tick(old(sessionManager.store.Snapshot()), sessionManager.store.Snapshot(), now)
                && failed == 0
                && succeeded == Min(|DueSessions(old(sessionManager.store.sessions), now)|, BATCH_LIMIT)
    {
      succeeded, failed := 0, 0;
      if inFlight { return; }
      inFlight := true;
      var store := sessionManager.store;
      ghost var s := store.Snapshot();
      var rows := SelectDue(now);
      ghost var ops: seq<Op> := [];
      var i := 0;
      while i < |rows|
        invariant 0 <= i <= |rows| && succeeded == i && failed == 0
        invariant Sweeping(s, store.Snapshot(), ops, rows[..i], now)
      {
        var sid := rows[i];
        var tenant := store.sessions[sid].tenant;
        var config := if tenant in configs then Some(configs[tenant]) else None;
        ghost var cooldownMin := sessionManager.ResolveCooldown(config);
        SweepGoesOn(s, store.Snapshot(), ops, rows[..i], now, sid, cooldownMin);
        assert rows[..i + 1] == rows[..i] + [sid];
        var ok := sessionManager.ExpireSession(sid, config, now);
        if ok { succeeded := succeeded + 1; } else { failed := failed + 1; }
        ops := ops + [OpExpire(sid, now, cooldownMin)];
        i := i + 1;
      }
      assert rows[..|rows|] == rows;
      inFlight := false;
    }
  }

  // ---------------------------------------------------------------- reaper

  /** The regions a reaper tick visits: those some row names, or the default
      region when no row names any. */
  function SweptRegions(numbers: map<Number, NumberRow>): set<Region> {
    var named :=
      set n | n in numbers && numbers[n].region.Some? && numbers[n].region.value != "" :: numbers[n].region.value;
    if named == {} then {DEFAULT_REGION} else named
  }

  /** The members of every cooldown set whose time has come. */
  function DueAnywhere(cooldown: map<Slot, int>, now: int): set<Slot> {
    set slot | slot in cooldown && 0 <= cooldown[slot] <= now
  }

  function DueIn(cooldown: map<Slot, int>, regions: set<Region>, now: int): set<Slot> {
    set slot | slot in DueAnywhere(cooldown, now) && slot.0 in regions
  }

  /** The rows of the reaped numbers follow their slots. */
  function MarkReaped(numbers: map<Number, NumberRow>, reaped: set<Slot>): map<Number, NumberRow> {
    var back := set slot | slot in reaped :: slot.1;
    map n | n in numbers :: if n in back then BackInService(numbers[n]) else numbers[n]
  }

  function Reaped(s: State, reaped: set<Slot>): State {
    s.(pool := Thaw(s.pool, reaped), numbers := MarkReaped(s.numbers, reaped))
  }

  /** From s to t, every due number of the regions came back, and `total` did. */
  ghost predicate ReapedIn(s: State, t: State, regions: set<Region>, total: int, now: int) {
    var reaped := DueIn(s.pool.cooldown, regions, now);
    t == Reaped(s, reaped) && total == |reaped|
  }

  /** One reaping step for each of these regions, in some order. */
  predicate ReapsEach(ops: seq<Op>, regions: set<Region>, now: int) {
    && |ops| == |regions|
    && (forall i :: 0 <= i < |ops| ==> ops[i].OpReap? && ops[i].now == now)
    && (forall r :: r in regions ==> OpReap(r, now) in ops)
  }

  lemma ReapingNothing(s: State, now: int)
    ensures ReapedIn(s, s, {}, 0, now)
  {
    assert DueIn(s.pool.cooldown, {}, now) == {};
    assert Thaw(s.pool, {}) == s.pool;
    assert MarkReaped(s.numbers, {}) == s.numbers;
  }

  lemma DueInOneMore(cooldown: map<Slot, int>, done: set<Region>, r: Region, now: int)
    requires r !in done
    ensures DueIn(cooldown, done + {r}, now) == DueIn(cooldown, done, now) + Due(cooldown, r, now)
    ensures DueIn(cooldown, done, now) * Due(cooldown, r, now) == {}
    ensures Due(cooldown - DueIn(cooldown, done, now), r, now) == Due(cooldown, r, now)
  {
  }

  lemma MarkTwice(numbers: map<Number, NumberRow>, reaped: set<Slot>, r: Region, due: set<Slot>)
    requires forall slot :: slot in due ==> slot.0 == r
    ensures MarkAvailable(MarkReaped(numbers, reaped), r, due) == MarkReaped(numbers, reaped + due)
  {
    forall n | n in numbers
      ensures MarkAvailable(MarkReaped(numbers, reaped), r, due)[n] == MarkReaped(numbers, reaped + due)[n]
    {
      var back := set slot | slot in reaped :: slot.1;
      var all := set slot | slot in reaped + due :: slot.1;
      assert n in all <==> n in back || (r, n) in due by {
        if (r, n) in due { assert (r, n) in reaped + due && (r, n).1 == n; }
        if slot :| slot in reaped + due && slot.1 == n { assert slot in reaped || slot == (r, n); }
      }
    }
  }

  lemma ReapOneMoreRegion(s: State, t: State, done: set<Region>, total: int, r: Region, now: int)
    requires r !in done && ReapedIn(s, t, done, total, now)
    ensures ReapedIn(s, Reap(t, r, now), done + {r}, total + |Due(t.pool.cooldown, r, now)|, now)
  {
    var reaped, due := DueIn(s.pool.cooldown, done, now), Due(s.pool.cooldown, r, now);
    DueInOneMore(s.pool.cooldown, done, r, now);
    ThawTwice(s.pool, reaped, due);
    MarkTwice(s.numbers, reaped, r, due);
  }

  class PoolReaperWorker {
    const pool: NumberPool
    var inFlight: bool

    constructor (pool: NumberPool)
      ensures this.pool == pool && !inFlight
    {
      this.pool := pool;
      inFlight := false;
    }

    /** Every due number of a visited region goes back to available, in the pool
        and in its row, nothing else changes, and the total counts them. */
    method RunTick(now: int) returns (total: nat)
      modifies this, pool.store
      ensures inFlight == old(inFlight)
      ensures old(inFlight) ==> pool.store.Snapshot() == old(pool.store.Snapshot()) && total == 0
      ensures !old(inFlight) ==>
                ReapedIn(old(pool.store.Snapshot()), pool.store.Snapshot(), SweptRegions(old(pool.store.numbers)),
                         total, now)
    {
      total := 0;
      if inFlight { return; }
      inFlight := true;
      total := ReapRegions(SweptRegions(pool.store.numbers), now);
      inFlight := false;
    }

    /** The loop over the regions. */
    method ReapRegions(regions: set<Region>, now: int) returns (total: nat)
      modifies pool.store
      ensures ReapedIn(old(pool.store.Snapshot()), pool.store.Snapshot(), regions, total, now)
    {
      total := 0;
      ghost var s := pool.store.Snapshot();
      ghost var t, done := s, {};
      var rest := regions;
      ReapingNothing(s, now);
      while rest != {}
        invariant rest !! done && rest + done == regions
        invariant pool.store.Snapshot() == t && ReapedIn(s, t, done, total, now)
        decreases rest
      {
        var region :| region in rest;
        ReapOneMoreRegion(s, t, done, total, region, now);
        var count := pool.ReapCooldown(region, now);
        total := total + count;
        rest := rest - {region};
        t, done := Reap(t, region, now), done + {region};
      }
      assert done == regions;
    }
  }

  lemma EachAndOneMore(ops: seq<Op>, done: set<Region>, r: Region, now: int)
    requires r !in done && ReapsEach(ops, done, now)
    ensures ReapsEach(ops + [OpReap(r, now)], done + {r}, now)
  {
  }

  lemma OneMoreReap(s: State, ops: seq<Op>, done: set<Region>, r: Region, now: int) returns (longer: seq<Op>)
    requires r !in done && ReapsEach(ops, done, now) && Runs(s, ops)
    requires ReapedIn(s, After(s, ops), done, |DueIn(s.pool.cooldown, done, now)|, now)
    ensures ReapsEach(longer, done + {r}, now) && Runs(s, longer)
    ensures ReapedIn(s, After(s, longer), done + {r}, |DueIn(s.pool.cooldown, done + {r}, now)|, now)
  {
    longer := ops + [OpReap(r, now)];
    ReapOneMoreRegion(s, After(s, ops), done, |DueIn(s.pool.cooldown, done, now)|, r, now);
    RunsExtend(s, ops, OpReap(r, now));
    EachAndOneMore(ops, done, r, now);
  }

  /** What a tick does is what one reaping step for each region does. */
  lemma {:induction false} TickIsARunOfReaps(s: State, regions: set<Region>, now: int) returns (ops: seq<Op>)
    ensures ReapsEach(ops, regions, now) && Runs(s, ops)
    ensures ReapedIn(s, After(s, ops), regions, |DueIn(s.pool.cooldown, regions, now)|, now)
    decreases regions
  {
    if regions == {} {
      ops := [];
      ReapingNothing(s, now);
    } else {
      var r :| r in regions;
      var before := TickIsARunOfReaps(s, regions - {r}, now);
      assert regions - {r} + {r} == regions;
      ops := OneMoreReap(s, before, regions - {r}, r, now);
    }
  }

  lemma NamedRegionsAreSwept(numbers: map<Number, NumberRow>)
    ensures "" !in SweptRegions(numbers)
    ensures forall n :: n in numbers && numbers[n].region.Some? && numbers[n].region.value != "" ==>
              numbers[n].region.value in SweptRegions(numbers)
    ensures DEFAULT_REGION in SweptRegions(numbers) <==>
              (forall n :: n in numbers ==> numbers[n].region.None? || numbers[n].region == Some(""))
              || (exists n :: n in numbers && numbers[n].region == Some(DEFAULT_REGION))
  {
    forall n | n in numbers && numbers[n].region.Some? && numbers[n].region.value != ""
      ensures numbers[n].region.value in SweptRegions(numbers)
    {
    }
  }

  /** A tick misses due numbers exactly when a row that names the empty region is
      among them, or when one that names no region cools in the default region
      while other rows do name regions, none of them the default. Such regions are
      never visited. */
  lemma ReaperMissesExactlyUnnamedRegions(s: State, now: int)
    requires forall slot :: slot in s.pool.cooldown ==> slot.1 in s.numbers && slot.0 == RowRegion(s.numbers[slot.1])
    ensures DueAnywhere(s.pool.cooldown, now) != DueIn(s.pool.cooldown, SweptRegions(s.numbers), now)
            <==>
            || (exists slot :: slot in DueAnywhere(s.pool.cooldown, now) && s.numbers[slot.1].region == Some(""))
            || (&& (exists slot :: slot in DueAnywhere(s.pool.cooldown, now) && s.numbers[slot.1].region == None)
                && (exists n :: n in s.numbers && s.numbers[n].region.Some? && s.numbers[n].region != Some(""))
                && (forall n :: n in s.numbers ==> s.numbers[n].region != Some(DEFAULT_REGION)))
  {
    var due := DueAnywhere(s.pool.cooldown, now);
    var swept := SweptRegions(s.numbers);
    NamedRegionsAreSwept(s.numbers);
    if due != DueIn(s.pool.cooldown, swept, now) {
      var slot :| slot in due && slot.0 !in swept;
      assert s.numbers[slot.1].region == None || s.numbers[slot.1].region == Some("");
    }
  }

  /** An input: right after boot, a number without a region whose cooldown has
      long ended, beside one of another region, is missed by every tick. */
  lemma ReaperMissesFromBoot(loaded: Pool, now: int)
    requires now >= 1000
    requires var numbers := map["+1" := NumberRow(None, COOLDOWN, Some(1000)),
                                "+2" := NumberRow(Some("abuja"), AVAILABLE, None)];
             Reconciled(EMPTY_POOL, loaded, BooksAt(EmptyState(numbers), 0), numbers.Keys)
    ensures var numbers := map["+1" := NumberRow(None, COOLDOWN, Some(1000)),
                               "+2" := NumberRow(Some("abuja"), AVAILABLE, None)];
            && (DEFAULT_REGION, "+1") in DueAnywhere(loaded.cooldown, now)
            && (DEFAULT_REGION, "+1") !in DueIn(loaded.cooldown, SweptRegions(numbers), now)
  {
    var numbers := map["+1" := NumberRow(None, COOLDOWN, Some(1000)),
                       "+2" := NumberRow(Some("abuja"), AVAILABLE, None)];
    var b := BooksAt(EmptyState(numbers), 0);
    assert b.Lists((DEFAULT_REGION, "+1")) && b.Verdict("+1") == Cooling(1000);
    NamedRegionsAreSwept(numbers);
    assert numbers["+2"].region == Some("abuja") && DEFAULT_REGION != "abuja";
    assert DEFAULT_REGION !in SweptRegions(numbers);
  }
}
