/** The number pool over whole runs: where every provisioned number is, that
    Postgres alone tells, and which operations disturb that. */
module PoolAccountingModel {
  import opened Types
  import opened StoreModel
  import opened NumberPoolModel
  import opened SessionManagerModel
  import opened AdminPoolModel
  import opened RoutingModel
  import opened WebhookModel
  import opened LifecycleModel

  /** The one place a pool slot may be in, from the row and the sessions hosted. */
  ghost function SpotFor(s: State, slot: Slot): Spot {
    if slot.1 in s.numbers && slot.0 == RowRegion(s.numbers[slot.1])
    then SpotOf(s.numbers[slot.1], !Idle(s.hosted, slot.1), 0)
    else Nowhere
  }

  predicate Sits(pool: Pool, slot: Slot, spot: Spot) {
    && (slot in pool.available <==> spot == Free)
    && (slot in pool.inUse <==> spot == Busy)
    && (slot in pool.cooldown <==> spot.Cooling?)
    && (slot in pool.cooldown ==> spot == Cooling(pool.cooldown[slot]))
  }

  ghost predicate SlotOk(s: State, slot: Slot) {
    Sits(s.pool, slot, SpotFor(s, slot))
  }

  /** Row by row: the region pointer is set and a cooldown carries its end. */
  predicate NumberOk(s: State, n: Number) {
    n in s.numbers ==>
      && n in s.pool.regionOf
      && s.pool.regionOf[n] == RowRegion(s.numbers[n])
      && (s.numbers[n].status == COOLDOWN ==> s.numbers[n].cooldownUntil.Some?)
  }

  /** A session row names a provisioned number, which hosts it while it is live. */
  predicate AllocationOk(s: State, sid: Sid) {
    sid in s.sessions ==>
      && s.sessions[sid].proxy in s.numbers
      && (IsLive(s.sessions[sid].state) ==> (s.sessions[sid].proxy, sid) in s.hosted)
  }

  ghost predicate SlotsOk(s: State) {
    forall slot: Slot :: SlotOk(s, slot)
  }

  ghost predicate Accounted(s: State) {
    && SlotsOk(s)
    && (forall n :: NumberOk(s, n))
    && (forall sid :: AllocationOk(s, sid))
  }

  // -------------------------------------------------------- loading twice

  /** From any content of Redis, a load puts each number's own slot in the one
      place its row and the held sessions decide. */
  lemma LoadPlacesEveryNumber(from: Pool, to: Pool, b: Books, n: Number)
    requires Reconciled(from, to, b, b.numbers.Keys) && n in b.numbers
    ensures Sits(to, (RowRegion(b.numbers[n]), n), b.Verdict(n))
    ensures n in to.regionOf && to.regionOf[n] == RowRegion(b.numbers[n])
  {
    assert b.Lists((RowRegion(b.numbers[n]), n));
  }

  lemma HeldSpelledOut(sessions: map<Sid, SessionRow>, n: Number)
    ensures n in HeldNumbers(sessions) <==>
              exists sid :: && sid in sessions && sessions[sid].proxy == n
                            && (sessions[sid].state == ACTIVE || sessions[sid].state == GRACE_PERIOD)
  {
    if n in HeldNumbers(sessions) {
      var sid :| sid in sessions && IsLive(sessions[sid].state) && sessions[sid].proxy == n;
      assert sessions[sid].state == ACTIVE || sessions[sid].state == GRACE_PERIOD;
    }
    if sid :| sid in sessions && sessions[sid].proxy == n
              && (sessions[sid].state == ACTIVE || sessions[sid].state == GRACE_PERIOD)
    {
      assert IsLive(sessions[sid].state);
    }
  }

  /** The same told from the tables alone: a number held by a live session is in
      use unless it is quarantined; of the others the available ones are available,
      the used ones in use, and the cooling ones cool until their end, or until the
      time of the load when they have none. A row without a region is in lagos. */
  lemma LoadedExactly(s: State, loaded: Pool, now: int, n: Number)
    requires Reconciled(s.pool, loaded, BooksAt(s, now), s.numbers.Keys) && n in s.numbers
    ensures var row := s.numbers[n];
            var slot := (if row.region.Some? then row.region.value else "lagos", n);
            var held := exists sid :: && sid in s.sessions && s.sessions[sid].proxy == n
                                      && (s.sessions[sid].state == ACTIVE || s.sessions[sid].state == GRACE_PERIOD);
            && (slot in loaded.available <==> row.status == AVAILABLE && !held)
            && (slot in loaded.inUse <==> row.status == IN_USE || (held && row.status != QUARANTINED))
            && (slot in loaded.cooldown <==> row.status == COOLDOWN && !held)
            && (slot in loaded.cooldown ==>
                  loaded.cooldown[slot] == if row.cooldownUntil.Some? then row.cooldownUntil.value else now)
  {
    LoadPlacesEveryNumber(s.pool, loaded, BooksAt(s, now), n);
    HeldSpelledOut(s.sessions, n);
  }

  /** A second load at the same clock changes nothing. */
  lemma LoadingTwiceIsLoadingOnce(from: Pool, once: Pool, twice: Pool, b: Books)
    requires Reconciled(from, once, b, b.numbers.Keys)
    requires Reconciled(once, twice, b, b.numbers.Keys)
    ensures twice == once
  {
    assert twice.available == once.available;
    assert twice.inUse == once.inUse;
    assert twice.cooldown == once.cooldown;
    assert twice.regionOf == once.regionOf;
  }

  // ------------------------------------------------- Postgres tells it all

  /** In an accounted state the database's notion of a held number is the pool's. */
  lemma HeldMeansHosting(s: State, n: Number)
    requires Inv(s) && forall sid :: AllocationOk(s, sid)
    ensures n in HeldNumbers(s.sessions) <==> !Idle(s.hosted, n)
  {
    if n in HeldNumbers(s.sessions) {
      var sid :| sid in s.sessions && IsLive(s.sessions[sid].state) && s.sessions[sid].proxy == n;
      assert AllocationOk(s, sid);
    }
    if !Idle(s.hosted, n) {
      var sid :| (n, sid) in s.hosted;
      assert SessionOk(LedgersOf(s), sid);
    }
  }

  lemma VerdictIsSpot(s: State, slot: Slot, now: int)
    requires Inv(s) && (forall sid :: AllocationOk(s, sid)) && NumberOk(s, slot.1)
    requires BooksAt(s, now).Lists(slot)
    ensures BooksAt(s, now).Verdict(slot.1) == SpotFor(s, slot)
  {
    HeldMeansHosting(s, slot.1);
  }

  /** Rebuilding the pool from Postgres is the identity on an accounted state. */
  lemma RebuildIsIdentity(s: State, loaded: Pool, now: int)
    requires Inv(s) && Accounted(s)
    requires Reconciled(s.pool, loaded, BooksAt(s, now), s.numbers.Keys)
    ensures loaded == s.pool
  {
    var b := BooksAt(s, now);
    forall slot: Slot
      ensures slot in loaded.available <==> slot in s.pool.available
      ensures slot in loaded.inUse <==> slot in s.pool.inUse
      ensures slot in loaded.cooldown <==> slot in s.pool.cooldown
      ensures slot in loaded.cooldown ==> loaded.cooldown[slot] == s.pool.cooldown[slot]
    {
      assert SlotOk(s, slot) && NumberOk(s, slot.1);
      if b.Lists(slot) { VerdictIsSpot(s, slot, now); }
    }
    assert loaded.available == s.pool.available;
    assert loaded.inUse == s.pool.inUse;
    assert loaded.cooldown == s.pool.cooldown;
    forall n ensures n in loaded.regionOf <==> n in s.pool.regionOf
             ensures n in loaded.regionOf ==> loaded.regionOf[n] == s.pool.regionOf[n]
    {
      assert NumberOk(s, n);
    }
    assert loaded.regionOf == s.pool.regionOf;
  }

  /** Rebuilding the pool from Postgres, whenever it happens, changes nothing. */
  ghost predicate RebootIsIdentity(s: State) {
    forall loaded, now :: Reconciled(s.pool, loaded, BooksAt(s, now), s.numbers.Keys) ==> loaded == s.pool
  }

  /** A load is always possible. */
  lemma {:induction false} SomeLoad(from: Pool, b: Books, which: set<Number>) returns (to: Pool)
    requires which <= b.numbers.Keys
    ensures Reconciled(from, to, b, which)
    decreases which
  {
    if which == {} {
      to := from;
    } else {
      var n :| n in which;
      var mid := SomeLoad(from, b, which - {n});
      SettleReconcilesOneMore(from, mid, b, which - {n}, n);
      assert which - {n} + {n} == which;
      to := Settle(mid, (RowRegion(b.numbers[n]), n), b.Verdict(n));
    }
  }

  /** A reboot moves a number that is not where the database wants it. */
  lemma RebootMoves(s: State, n: Number, now: int)
    requires n in s.numbers && !Sits(s.pool, (RowRegion(s.numbers[n]), n), BooksAt(s, now).Verdict(n))
    ensures !RebootIsIdentity(s)
  {
    var b := BooksAt(s, now);
    var loaded := SomeLoad(s.pool, b, b.numbers.Keys);
    LoadPlacesEveryNumber(s.pool, loaded, b, n);
  }

  predicate LacksAnEnd(numbers: map<Number, NumberRow>) {
    exists n :: n in numbers && numbers[n].status == COOLDOWN && numbers[n].cooldownUntil.None?
  }

  /** The first load of an empty Redis accounts for every number, exactly when no
      cooling row lacks its end. (Such a row gets the time of the load.) */
  lemma BootAccounts(numbers: map<Number, NumberRow>, loaded: Pool, now: int)
    requires Reconciled(EMPTY_POOL, loaded, BooksAt(EmptyState(numbers), now), numbers.Keys)
    ensures var s := EmptyState(numbers).(pool := loaded);
            && Boots(s) && Inv(s)
            && (Accounted(s) <==> !LacksAnEnd(numbers))
            && (RebootIsIdentity(s) <==> !LacksAnEnd(numbers))
  {
    var s := EmptyState(numbers).(pool := loaded);
    var b := BooksAt(s, now);
    assert b == BooksAt(EmptyState(numbers), now);
    if LacksAnEnd(numbers) {
      var n :| n in numbers && numbers[n].status == COOLDOWN && numbers[n].cooldownUntil.None?;
      assert !NumberOk(s, n);
      LoadPlacesEveryNumber(EMPTY_POOL, loaded, b, n);
      RebootMoves(s, n, now + 1);
    } else {
      assert forall n :: NumberOk(s, n);
      forall slot: Slot ensures SlotOk(s, slot) {
        if b.Lists(slot) { VerdictIsSpot(s, slot, now); }
      }
      forall again, at | Reconciled(s.pool, again, BooksAt(s, at), s.numbers.Keys) ensures again == s.pool {
        RebuildIsIdentity(s, again, at);
      }
    }
  }

  // ------------------------------------------------ which steps disturb it

  /** The row is one that never became live: a rolled back creation. */
  predicate NeverLive(s: State, sid: Sid) {
    sid in s.sessions && (s.sessions[sid].state == FAILED || s.sessions[sid].state == PENDING)
  }

  /** Exactly the operations that keep the accounts. Four kinds disturb them:
      ending a rolled back session, which makes its row hold a number it does
      not occupy; expiring one without cooldown while its number cools; putting
      a cooling number in quarantine; reinstating a number that still hosts. */
  ghost predicate Tidy(s: State, op: Op) {
    match op
    case OpEnd(sid, tenant, _) => !(Ends(s, sid, tenant) && NeverLive(s, sid))
    case OpExpire(sid, now, cooldownMin) =>
      !(NeverLive(s, sid)
        && Idle(s.hosted, s.sessions[sid].proxy)
        && CooldownUntil(now, cooldownMin) <= 0
        && (ReleaseRegion(s.pool, None, s.sessions[sid].proxy), s.sessions[sid].proxy) in s.pool.cooldown)
    case OpQuarantine(n) =>
      !(n in s.numbers && s.numbers[n].status != QUARANTINED && (RowRegion(s.numbers[n]), n) in s.pool.cooldown)
    case OpReinstate(n) => !(n in s.numbers && s.numbers[n].status == QUARANTINED && !Idle(s.hosted, n))
    case _ => true
  }

  /** Nothing that decides a slot's place changed. */
  ghost predicate SlotUntouched(s: State, t: State, slot: Slot) {
    && (slot in t.pool.available <==> slot in s.pool.available)
    && (slot in t.pool.inUse <==> slot in s.pool.inUse)
    && (slot in t.pool.cooldown <==> slot in s.pool.cooldown)
    && (slot in t.pool.cooldown ==> t.pool.cooldown[slot] == s.pool.cooldown[slot])
    && (slot.1 in t.numbers <==> slot.1 in s.numbers)
    && (slot.1 in t.numbers ==> t.numbers[slot.1] == s.numbers[slot.1])
    && (Idle(t.hosted, slot.1) <==> Idle(s.hosted, slot.1))
  }

  lemma SlotStaysOk(s: State, t: State, slot: Slot)
    requires SlotOk(s, slot) && SlotUntouched(s, t, slot)
    ensures SlotOk(t, slot)
  {
  }

  /** Only slots of `n` are affected, so only they need a look. */
  lemma OneNumberTouched(s: State, t: State, n: Number)
    requires SlotsOk(s)
    requires forall slot: Slot :: slot.1 != n ==> SlotUntouched(s, t, slot)
    requires forall r :: SlotOk(t, (r, n))
    ensures SlotsOk(t)
  {
    forall slot: Slot ensures SlotOk(t, slot) {
      if slot.1 != n { SlotStaysOk(s, t, slot); } else { assert SlotOk(t, (slot.0, n)); }
    }
  }

  lemma PlaceKeepsSlots(s: State, r: Region, c: Choice, a: PhoneHash, b: PhoneHash, sid: Sid)
    requires Accounted(s) && MayAllocate(s, r, a, b, c)
    ensures SlotsOk(Place(s, r, c, a, b, sid))
  {
    var t := Place(s, r, c, a, b, sid);
    var n := c.number;
    assert SlotOk(s, (r, n)) && NumberOk(s, n);
    assert (n, sid) in t.hosted;
    forall slot: Slot | slot.1 != n ensures SlotUntouched(s, t, slot) {
      assert forall other :: (slot.1, other) in t.hosted <==> (slot.1, other) in s.hosted;
    }
    forall q ensures SlotOk(t, (q, n)) {
      assert SlotOk(s, (q, n));
    }
    OneNumberTouched(s, t, n);
  }

  /** Releasing the last session of a number that is not cooling, or with a
      cooldown of its own, leaves every slot accounted for. */
  lemma ReleaseKeepsSlots(s: State, n: Number, sid: Sid, until: int)
    requires SlotsOk(s) && n in s.numbers
    requires until > 0 || (RowRegion(s.numbers[n]), n) !in s.pool.cooldown || !Idle(s.hosted - {(n, sid)}, n)
    ensures SlotsOk(Release(s, RowRegion(s.numbers[n]), n, sid, until))
  {
    var r := RowRegion(s.numbers[n]);
    var t := Release(s, r, n, sid, until);
    assert SlotOk(s, (r, n));
    forall slot: Slot | slot.1 != n ensures SlotUntouched(s, t, slot) {
      assert forall other :: (slot.1, other) in t.hosted <==> (slot.1, other) in s.hosted;
    }
    forall q ensures SlotOk(t, (q, n)) {
      assert SlotOk(s, (q, n));
      if !Idle(t.hosted, n) {
        assert t.hosted == s.hosted - {(n, sid)};
        assert !Idle(s.hosted, n);
      }
    }
    OneNumberTouched(s, t, n);
  }

  lemma SameSlots(s: State, t: State)
    requires SlotsOk(s) && t.pool == s.pool && t.hosted == s.hosted && t.numbers == s.numbers
    ensures SlotsOk(t)
  {
    forall slot: Slot ensures SlotOk(t, slot) {
      assert SlotOk(s, slot);
    }
  }

  lemma CreateAccounts(s: State, args: CreateArgs, sid: Sid, c: Choice, graceMin: int, maxMin: int, now: int)
    requires Inv(s) && Accounted(s) && Enabled(s, OpCreate(args, sid, c, graceMin, maxMin, now, None))
    ensures Accounted(Create(s, args, sid, c, graceMin, maxMin, now, None))
  {
    var r := CreateRegion(args);
    var placed := Place(s, r, c, AgentHash(args), CustomerHash(args), sid);
    var t := Create(s, args, sid, c, graceMin, maxMin, now, None);
    PlaceKeepsSlots(s, r, c, AgentHash(args), CustomerHash(args), sid);
    SameSlots(placed, t);
    assert SlotOk(s, (r, c.number));
    forall n ensures NumberOk(t, n) { assert NumberOk(s, n); }
    forall other ensures AllocationOk(t, other) { assert AllocationOk(s, other); }
  }

  lemma ReleaseKeepsNumbers(s: State, r: Region, n: Number, sid: Sid, until: int, m: Number)
    requires NumberOk(s, m)
    ensures NumberOk(Release(s, r, n, sid, until), m)
  {
  }

  lemma RollbackSlots(reached: State, sid: Sid, n: Number)
    requires SlotsOk(reached) && n in reached.numbers && (n, sid) in reached.hosted
    ensures SlotsOk(MarkFailed(Release(reached, RowRegion(reached.numbers[n]), n, sid, 0), sid))
  {
    var r := RowRegion(reached.numbers[n]);
    assert SlotOk(reached, (r, n));
    ReleaseKeepsSlots(reached, n, sid, 0);
    var released := Release(reached, r, n, sid, 0);
    SameSlots(released, MarkFailed(released, sid));
  }

  lemma ReachedPool(p: State, sid: Sid, row: SessionRow, failAt: Option<Stage>)
    ensures var t := Reached(p, sid, row, failAt); t.pool == p.pool && t.hosted == p.hosted && t.numbers == p.numbers
  {
  }

  lemma FinishSlots(placed: State, region: Option<Region>, sid: Sid, row: SessionRow, failAt: Stage)
    requires SlotsOk(placed) && NumberOk(placed, row.proxy)
    requires row.proxy in placed.numbers && (row.proxy, sid) in placed.hosted
    requires region.Some? ==> region.value == RowRegion(placed.numbers[row.proxy])
    ensures SlotsOk(Finish(placed, region, sid, row, Some(failAt)))
  {
    var reached := Reached(placed, sid, row, Some(failAt));
    ReachedPool(placed, sid, row, Some(failAt));
    SameSlots(placed, reached);
    RollbackSlots(reached, sid, row.proxy);
  }

  lemma FinishNumbers(placed: State, region: Option<Region>, sid: Sid, row: SessionRow, failAt: Stage, m: Number)
    requires NumberOk(placed, m)
    ensures var t := Finish(placed, region, sid, row, Some(failAt));
            NumberOk(t, m) && t.numbers.Keys == placed.numbers.Keys
  {
    var reached := Reached(placed, sid, row, Some(failAt));
    ReachedPool(placed, sid, row, Some(failAt));
    ReleaseKeepsNumbers(reached, ReleaseRegion(reached.pool, region, row.proxy), row.proxy, sid, 0, m);
  }

  lemma RollbackAllocations(s: State, t: State, sid: Sid, row: SessionRow)
    requires LeftByRollback(LedgersOf(s), LedgersOf(t), sid, row)
    requires t.numbers.Keys == s.numbers.Keys && row.proxy in s.numbers
    requires sid !in s.sessions && (forall other :: AllocationOk(s, other))
    ensures forall other :: AllocationOk(t, other)
  {
    forall other ensures AllocationOk(t, other) { assert AllocationOk(s, other); }
  }

  lemma RollbackAccounts(s: State, args: CreateArgs, sid: Sid, c: Choice, graceMin: int, maxMin: int, now: int,
                         failAt: Stage)
    requires Inv(s) && Accounted(s) && Enabled(s, OpCreate(args, sid, c, graceMin, maxMin, now, Some(failAt)))
    ensures Accounted(Create(s, args, sid, c, graceMin, maxMin, now, Some(failAt)))
  {
    var r, n := CreateRegion(args), c.number;
    var row := NewRow(args, n, graceMin, maxMin, now);
    var placed := Place(s, r, c, AgentHash(args), CustomerHash(args), sid);
    PlaceKeepsSlots(s, r, c, AgentHash(args), CustomerHash(args), sid);
    assert SlotOk(s, (r, n));
    forall m ensures NumberOk(placed, m) { assert NumberOk(s, m); }
    FinishSlots(placed, args.region, sid, row, failAt);
    var t := Create(s, args, sid, c, graceMin, maxMin, now, Some(failAt));
    forall m ensures NumberOk(t, m) {
      FinishNumbers(placed, args.region, sid, row, failAt, m);
    }
    FinishNumbers(placed, args.region, sid, row, failAt, n);
    RollbackLeaves(s, args, sid, c, graceMin, maxMin, now, failAt);
    RollbackAllocations(s, t, sid, row);
  }

  lemma EndAccounts(s: State, sid: Sid, tenant: Tenant, now: int)
    requires Inv(s) && Accounted(s)
    ensures Accounted(End(s, sid, tenant, now)) <==> Tidy(s, OpEnd(sid, tenant, now))
  {
    var t := End(s, sid, tenant, now);
    assert SessionOk(LedgersOf(s), sid);
    assert AllocationOk(s, sid);
    SameSlots(s, t);
    if Tidy(s, OpEnd(sid, tenant, now)) {
      forall n ensures NumberOk(t, n) { assert NumberOk(s, n); }
      forall other ensures AllocationOk(t, other) { assert AllocationOk(s, other); }
    } else {
      assert !AllocationOk(t, sid);
    }
  }

  lemma ExpireAccounts(s: State, sid: Sid, now: int, cooldownMin: int)
    requires Inv(s) && Accounted(s)
    ensures Accounted(Expire(s, sid, now, cooldownMin)) <==> Tidy(s, OpExpire(sid, now, cooldownMin))
  {
    if Expires(s, sid) {
      var row := s.sessions[sid];
      var n, until := row.proxy, CooldownUntil(now, cooldownMin);
      assert AllocationOk(s, sid);
      var t := Expire(s, sid, now, cooldownMin);
      var marked := s.(sessions := s.sessions[sid := row.(state := EXPIRED)]);
      var r := RowRegion(s.numbers[n]);
      assert SessionOk(LedgersOf(s), sid) && NumberOk(s, n) && SlotOk(s, (r, n));
      var released := Release(marked, r, n, sid, until);
      ReleaseLedgers(marked, r, n, sid, until);
      assert t == Forget(released, sid, row) && t.hosted == released.hosted;
      if Tidy(s, OpExpire(sid, now, cooldownMin)) {
        SameSlots(s, marked);
        if NeverLive(s, sid) { assert s.hosted - {(n, sid)} == s.hosted; }
        ReleaseKeepsSlots(marked, n, sid, until);
        SameSlots(released, t);
        forall m ensures NumberOk(t, m) { assert NumberOk(s, m); }
        forall other ensures AllocationOk(t, other) { assert AllocationOk(s, other); }
      } else {
        assert s.hosted - {(n, sid)} == s.hosted;
        assert !SlotOk(t, (r, n));
      }
    }
  }

  lemma ReapAccounts(s: State, r: Region, now: int)
    requires Inv(s) && Accounted(s)
    ensures Accounted(Reap(s, r, now))
  {
    var t := Reap(s, r, now);
    forall slot: Slot ensures SlotOk(t, slot) {
      assert SlotOk(s, slot) && SlotOk(s, (r, slot.1)) && NumberOk(s, slot.1);
    }
    forall n ensures NumberOk(t, n) { assert NumberOk(s, n); }
    forall other ensures AllocationOk(t, other) { assert AllocationOk(s, other); }
  }

  lemma QuarantineAccounts(s: State, n: Number)
    requires Inv(s) && Accounted(s)
    ensures Accounted(Quarantine(s, n)) <==> Tidy(s, OpQuarantine(n))
  {
    var t := Quarantine(s, n);
    if t != s {
      var r := RowRegion(s.numbers[n]);
      assert SlotOk(s, (r, n));
      if Tidy(s, OpQuarantine(n)) {
        forall q ensures SlotOk(t, (q, n)) { assert SlotOk(s, (q, n)); }
        OneNumberTouched(s, t, n);
        forall m ensures NumberOk(t, m) { assert NumberOk(s, m); }
        forall other ensures AllocationOk(t, other) { assert AllocationOk(s, other); }
      } else {
        assert !SlotOk(t, (r, n));
      }
    }
  }

  lemma ReinstateAccounts(s: State, n: Number)
    requires Inv(s) && Accounted(s)
    ensures Accounted(Reinstate(s, n)) <==> Tidy(s, OpReinstate(n))
  {
    var t := Reinstate(s, n);
    if n in s.numbers && s.numbers[n].status == QUARANTINED {
      var r := RowRegion(s.numbers[n]);
      assert SlotOk(s, (r, n));
      if Tidy(s, OpReinstate(n)) {
        forall q ensures SlotOk(t, (q, n)) { assert SlotOk(s, (q, n)); }
        OneNumberTouched(s, t, n);
        forall m ensures NumberOk(t, m) { assert NumberOk(s, m); }
        forall other ensures AllocationOk(t, other) { assert AllocationOk(s, other); }
      } else {
        assert !SlotOk(t, (r, n));
      }
    }
  }

  /** Sessions change nothing in the pool unless they start or expire. */
  lemma SessionChangeAccounts(s: State, t: State)
    requires Accounted(s)
    requires t.pool == s.pool && t.hosted == s.hosted && t.numbers == s.numbers
    requires forall sid :: sid in t.sessions ==>
               && sid in s.sessions
               && t.sessions[sid].proxy == s.sessions[sid].proxy
               && t.sessions[sid].state == s.sessions[sid].state
    ensures Accounted(t)
  {
    SameSlots(s, t);
    forall n ensures NumberOk(t, n) { assert NumberOk(s, n); }
    forall other ensures AllocationOk(t, other) { assert AllocationOk(s, other); }
  }

  lemma SwapAccounts(s: State, sid: Sid, tenant: Tenant, target: Phone)
    requires Accounted(s)
    ensures Accounted(Swap(s, sid, tenant, target))
  {
    SessionChangeAccounts(s, Swap(s, sid, tenant, target));
  }

  lemma CallAccounts(s: State, args: CallArgs, m: Option<Match>, fallback: Option<Tenant>)
    requires Accounted(s) && MayMatch(s, args.number, args.caller, args.hint, m)
    ensures Accounted(Call(s, args, m, fallback))
  {
    CallTouchesCountersOnly(s, args, m, fallback);
    SessionChangeAccounts(s, Call(s, args, m, fallback));
  }

  lemma SmsAccounts(s: State, args: SmsArgs, m: Option<Match>)
    requires Accounted(s) && MayMatch(s, args.number, args.from, args.hint, m)
    ensures Accounted(Sms(s, args, m))
  {
    SessionChangeAccounts(s, Sms(s, args, m));
  }

  /** The accounts survive a step if and only if the step is a tidy one. */
  lemma AccountsSurviveExactlyTidySteps(s: State, op: Op)
    requires Inv(s) && Accounted(s) && Enabled(s, op)
    ensures Accounted(Apply(s, op)) <==> Tidy(s, op)
  {
    match op
    case OpCreate(args, sid, c, graceMin, maxMin, now, failAt) =>
      if failAt.None? {
        CreateAccounts(s, args, sid, c, graceMin, maxMin, now);
      } else {
        RollbackAccounts(s, args, sid, c, graceMin, maxMin, now, failAt.value);
      }
    case OpEnd(sid, tenant, now) => EndAccounts(s, sid, tenant, now);
    case OpExpire(sid, now, cooldownMin) => ExpireAccounts(s, sid, now, cooldownMin);
    case OpReap(r, now) => ReapAccounts(s, r, now);
    case OpLoad(loaded, now) =>
      RebuildIsIdentity(s, loaded, now);
      SessionChangeAccounts(s, s.(pool := loaded));
    case OpQuarantine(n) => QuarantineAccounts(s, n);
    case OpReinstate(n) => ReinstateAccounts(s, n);
    case OpSwap(sid, tenant, target) => SwapAccounts(s, sid, tenant, target);
    case OpEvict(sid) => SessionChangeAccounts(s, Evict(s, sid));
    case OpCall(call, m, fallback) => CallAccounts(s, call, m, fallback);
    case OpSms(sms, m) => SmsAccounts(s, sms, m);
    case OpStatus(w, now) => SessionChangeAccounts(s, TakeNote(s, w, now));
  }

  // ------------------------------------------------------------ whole runs

  ghost predicate TidyRun(s: State, ops: seq<Op>)
    requires Runs(s, ops)
    decreases |ops|
  {
    ops == [] || (Tidy(s, ops[0]) && TidyRun(Apply(s, ops[0]), ops[1..]))
  }

  lemma {:induction false} TidyRunsAccount(s: State, ops: seq<Op>)
    requires Inv(s) && Accounted(s) && Runs(s, ops) && TidyRun(s, ops)
    ensures Inv(After(s, ops)) && Accounted(After(s, ops))
    decreases |ops|
  {
    if ops != [] {
      StepKeeps(s, ops[0]);
      AccountsSurviveExactlyTidySteps(s, ops[0]);
      TidyRunsAccount(Apply(s, ops[0]), ops[1..]);
    }
  }

  /** After any tidy run a reboot changes nothing: Postgres alone determines the
      three pool sets and the cooldown scores. */
  lemma RebootAfterARunIsIdentity(s: State, ops: seq<Op>, loaded: Pool, now: int)
    requires Inv(s) && Accounted(s) && Runs(s, ops) && TidyRun(s, ops)
    requires var t := After(s, ops); Reconciled(t.pool, loaded, BooksAt(t, now), t.numbers.Keys)
    ensures loaded == After(s, ops).pool
  {
    TidyRunsAccount(s, ops);
    RebuildIsIdentity(After(s, ops), loaded, now);
  }

  // -------------------------------------------- exactly when reboots are harmless

  /** The operations after which a reboot is harmless. An end that brings a rolled
      back row to life still is when the row's number is in use anyway, or is out
      of service. */
  ghost predicate RebootSafe(s: State, op: Op) {
    match op
    case OpEnd(sid, tenant, _) =>
      !(Ends(s, sid, tenant) && NeverLive(s, sid)
        && Idle(s.hosted, s.sessions[sid].proxy)
        && s.sessions[sid].proxy in s.numbers
        && var status := s.numbers[s.sessions[sid].proxy].status;
           status == AVAILABLE || status == COOLDOWN)
    case _ => Tidy(s, op)
  }

  lemma AccountedMeansIdentity(s: State, op: Op)
    requires Inv(s) && Accounted(s) && Enabled(s, op) && Tidy(s, op)
    ensures RebootIsIdentity(Apply(s, op)) && RebootSafe(s, op)
  {
    var t := Apply(s, op);
    StepKeeps(s, op);
    AccountsSurviveExactlyTidySteps(s, op);
    forall loaded, now | Reconciled(t.pool, loaded, BooksAt(t, now), t.numbers.Keys) ensures loaded == t.pool {
      RebuildIsIdentity(t, loaded, now);
    }
  }

  /** The row that comes to life holds its number, and no other number's holders
      change. */
  lemma EndHoldsTheNumber(s: State, sid: Sid, tenant: Tenant, now: int)
    requires Ends(s, sid, tenant) && NeverLive(s, sid)
    ensures HeldNumbers(End(s, sid, tenant, now).sessions) == HeldNumbers(s.sessions) + {s.sessions[sid].proxy}
  {
    var t := End(s, sid, tenant, now);
    forall m ensures m in HeldNumbers(t.sessions) <==> m in HeldNumbers(s.sessions) || m == s.sessions[sid].proxy {
      if m in HeldNumbers(s.sessions) {
        var other :| other in s.sessions && IsLive(s.sessions[other].state) && s.sessions[other].proxy == m;
        assert t.sessions[other] == s.sessions[other];
      }
      assert sid in t.sessions && t.sessions[sid].proxy == s.sessions[sid].proxy && IsLive(t.sessions[sid].state);
    }
  }

  lemma SameVerdictsReconcileAlike(from: Pool, to: Pool, b: Books, c: Books)
    requires b.numbers == c.numbers && forall n :: n in b.numbers ==> b.Verdict(n) == c.Verdict(n)
    requires Reconciled(from, to, b, b.numbers.Keys)
    ensures Reconciled(from, to, c, c.numbers.Keys)
  {
    assert forall slot :: b.Lists(slot) <==> c.Lists(slot);
    assert AvailableReconciled(from, to, c, c.numbers.Keys);
    assert InUseReconciled(from, to, c, c.numbers.Keys);
    assert CooldownReconciled(from, to, c, c.numbers.Keys);
    assert RegionsReconciled(from, to, c, c.numbers.Keys);
  }

  lemma RebootAfterUntidyEnd(s: State, sid: Sid, tenant: Tenant, now: int)
    requires Inv(s) && Accounted(s) && !Tidy(s, OpEnd(sid, tenant, now))
    ensures RebootIsIdentity(End(s, sid, tenant, now)) <==> RebootSafe(s, OpEnd(sid, tenant, now))
  {
    var t, n := End(s, sid, tenant, now), s.sessions[sid].proxy;
    assert AllocationOk(s, sid) && SlotOk(s, (RowRegion(s.numbers[n]), n));
    EndHoldsTheNumber(s, sid, tenant, now);
    if RebootSafe(s, OpEnd(sid, tenant, now)) {
      forall loaded, at | Reconciled(t.pool, loaded, BooksAt(t, at), t.numbers.Keys) ensures loaded == t.pool {
        HeldMeansHosting(s, n);
        SameVerdictsReconcileAlike(t.pool, loaded, BooksAt(t, at), BooksAt(s, at));
        RebuildIsIdentity(s, loaded, at);
      }
    } else {
      RebootMoves(t, n, 0);
    }
  }

  lemma RebootAfterUntidyExpire(s: State, sid: Sid, now: int, cooldownMin: int)
    requires Inv(s) && Accounted(s) && !Tidy(s, OpExpire(sid, now, cooldownMin))
    ensures !RebootIsIdentity(Expire(s, sid, now, cooldownMin))
  {
    var t, n := Expire(s, sid, now, cooldownMin), s.sessions[sid].proxy;
    assert AllocationOk(s, sid);
    var slot := (RowRegion(s.numbers[n]), n);
    assert NumberOk(s, n) && SlotOk(s, slot);
    assert s.hosted - {(n, sid)} == s.hosted;
    assert slot in t.pool.available && slot in t.pool.cooldown;
    RebootMoves(t, n, 0);
  }

  /** From an accounted state, a reboot after one more step is the identity if
      and only if the step is a safe one. */
  lemma RebootIsIdentityExactlyAfterSafeSteps(s: State, op: Op)
    requires Inv(s) && Accounted(s) && Enabled(s, op)
    ensures RebootIsIdentity(Apply(s, op)) <==> RebootSafe(s, op)
  {
    if Tidy(s, op) {
      AccountedMeansIdentity(s, op);
    } else {
      match op
      case OpEnd(sid, tenant, now) => RebootAfterUntidyEnd(s, sid, tenant, now);
      case OpExpire(sid, now, cooldownMin) => RebootAfterUntidyExpire(s, sid, now, cooldownMin);
      case OpQuarantine(n) =>
        assert SlotOk(s, (RowRegion(s.numbers[n]), n));
        RebootMoves(Quarantine(s, n), n, 0);
      case OpReinstate(n) =>
        HeldMeansHosting(s, n);
        RebootMoves(Reinstate(s, n), n, 0);
    }
  }

  /** The same for a step after any tidy run. */
  lemma RebootAfterARunAndAStep(s: State, ops: seq<Op>, op: Op)
    requires Inv(s) && Accounted(s) && Runs(s, ops) && TidyRun(s, ops) && Enabled(After(s, ops), op)
    ensures RebootIsIdentity(Apply(After(s, ops), op)) <==> RebootSafe(After(s, ops), op)
  {
    TidyRunsAccount(s, ops);
    RebootIsIdentityExactlyAfterSafeSteps(After(s, ops), op);
  }

  predicate BooksAgree(s: State, n: Number, now: int)
    requires n in s.numbers
  {
    && Sits(s.pool, (RowRegion(s.numbers[n]), n), BooksAt(s, now).Verdict(n))
    && n in s.pool.regionOf && s.pool.regionOf[n] == RowRegion(s.numbers[n])
  }

  lemma AgreeingLoadIsIdentity(s: State, loaded: Pool, now: int)
    requires Reconciled(s.pool, loaded, BooksAt(s, now), s.numbers.Keys)
    requires forall n :: n in s.numbers ==> BooksAgree(s, n, now)
    ensures loaded == s.pool
  {
    forall slot: Slot | BooksAt(s, now).Lists(slot)
      ensures BooksAgree(s, slot.1, now) && slot == (RowRegion(s.numbers[slot.1]), slot.1)
    {
    }
    assert loaded.available == s.pool.available;
    assert loaded.inUse == s.pool.inUse;
    assert loaded.cooldown == s.pool.cooldown;
    forall n ensures n in loaded.regionOf <==> n in s.pool.regionOf
             ensures n in loaded.regionOf ==> loaded.regionOf[n] == s.pool.regionOf[n]
    {
      if n in s.numbers { assert BooksAgree(s, n, now); }
    }
    assert loaded.regionOf == s.pool.regionOf;
  }

  /** From any state at all: reloads are harmless if and only if, at every clock,
      each number's slot already sits where the database wants it and its region
      pointer is right. */
  lemma RebootIsIdentityExactlyWhereBooksAgree(s: State)
    ensures RebootIsIdentity(s) <==> forall n, now :: n in s.numbers ==> BooksAgree(s, n, now)
  {
    if RebootIsIdentity(s) {
      forall n, now | n in s.numbers ensures BooksAgree(s, n, now) {
        var b := BooksAt(s, now);
        var loaded := SomeLoad(s.pool, b, b.numbers.Keys);
        assert loaded == s.pool;
        LoadPlacesEveryNumber(s.pool, loaded, b, n);
      }
    } else {
      var loaded, now :| Reconciled(s.pool, loaded, BooksAt(s, now), s.numbers.Keys) && loaded != s.pool;
      if forall n :: n in s.numbers ==> BooksAgree(s, n, now) {
        AgreeingLoadIsIdentity(s, loaded, now);
        assert false;
      }
    }
  }

  lemma DrainedUnderAHeldRow(s: State, sid: Sid, other: Sid, now: int, cooldownMin: int)
    requires sid != other && sid in s.sessions && IsLive(s.sessions[sid].state) && Expires(s, other)
    requires var n := s.sessions[sid].proxy;
             && n in s.numbers && NumberOk(s, n) && s.sessions[other].proxy == n
             && forall more :: (n, more) in s.hosted ==> more == other
    requires CooldownUntil(now, cooldownMin) > 0
    ensures !RebootIsIdentity(Expire(s, other, now, cooldownMin))
  {
    var t, n := Expire(s, other, now, cooldownMin), s.sessions[sid].proxy;
    assert Idle(s.hosted - {(n, other)}, n);
    assert (RowRegion(s.numbers[n]), n) in t.pool.cooldown && t.numbers[n].status == COOLDOWN;
    assert t.sessions[sid] == s.sessions[sid];
    assert n in HeldNumbers(t.sessions);
    RebootMoves(t, n, 0);
  }

  /** The hypothesis of accounts matters: a safe end of a rolled back row on a
      number that hosts another session, then the ordinary expiry of that session
      with a cooldown, a tidy step, and reloads are no longer harmless. */
  lemma SafeThenTidyMayDisturb(s: State, sid: Sid, other: Sid, now: int, later: int, cooldownMin: int)
    requires Inv(s) && Accounted(s) && NeverLive(s, sid)
    requires var n := s.sessions[sid].proxy;
             (n, other) in s.hosted && forall more :: (n, more) in s.hosted ==> more == other
    requires CooldownUntil(later, cooldownMin) > 0
    ensures var end, expire := OpEnd(sid, s.sessions[sid].tenant, now), OpExpire(other, later, cooldownMin);
            && RebootSafe(s, end) && RebootIsIdentity(Apply(s, end))
            && Tidy(Apply(s, end), expire) && !RebootIsIdentity(Apply(Apply(s, end), expire))
  {
    var n, end := s.sessions[sid].proxy, OpEnd(sid, s.sessions[sid].tenant, now);
    RebootIsIdentityExactlyAfterSafeSteps(s, end);
    var t := Apply(s, end);
    assert AllocationOk(s, sid) && NumberOk(s, n) && SessionOk(LedgersOf(s), other);
    assert other != sid;
    DrainedUnderAHeldRow(t, sid, other, later, cooldownMin);
  }
}
