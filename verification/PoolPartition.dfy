/** Where every number is, over runs in which the accounts need not hold: when the
    three pool sets stay disjoint, and when their total changes. */
module PoolPartitionModel {
  import opened Types
  import opened StoreModel
  import opened NumberPoolModel
  import opened SessionManagerModel
  import opened AdminPoolModel
  import opened RoutingModel
  import opened LifecycleModel
  import opened PoolAccountingModel

  // ---------------------------------------------------------- the partition

  predicate InOnePlace(pool: Pool, slot: Slot) {
    && !(slot in pool.available && slot in pool.inUse)
    && !(slot in pool.available && slot in pool.cooldown)
    && !(slot in pool.inUse && slot in pool.cooldown)
  }

  /** The three sets are pairwise disjoint. */
  ghost predicate Partitioned(pool: Pool) {
    forall slot: Slot :: InOnePlace(pool, slot)
  }

  predicate Somewhere(pool: Pool, slot: Slot) {
    slot in pool.available || slot in pool.inUse || slot in pool.cooldown
  }

  /** A number that could be handed out, or will be, hosts nobody. */
  ghost predicate IdleOutsideUse(s: State) {
    forall slot: Slot :: slot in s.pool.available || slot in s.pool.cooldown ==> Idle(s.hosted, slot.1)
  }

  predicate Listed(s: State, slot: Slot) {
    slot.1 in s.numbers && slot.0 == RowRegion(s.numbers[slot.1])
  }

  function SlotOf(s: State, n: Number): Slot
    requires n in s.numbers
  {
    (RowRegion(s.numbers[n]), n)
  }

  /** A slot is in one place; a number in service is somewhere, and one out of
      service at most cools. */
  ghost predicate SlotPlaced(s: State, slot: Slot) {
    && InOnePlace(s.pool, slot)
    && (Somewhere(s.pool, slot) ==> Listed(s, slot))
    && (slot in s.pool.available || slot in s.pool.cooldown ==> Idle(s.hosted, slot.1))
    && (Listed(s, slot) ==>
          if s.numbers[slot.1].status == QUARANTINED then slot !in s.pool.available && slot !in s.pool.inUse
          else Somewhere(s.pool, slot))
  }

  predicate RegionKnown(s: State, n: Number) {
    n in s.numbers ==> n in s.pool.regionOf && s.pool.regionOf[n] == RowRegion(s.numbers[n])
  }

  ghost predicate SlotsPlaced(s: State) {
    forall slot: Slot :: SlotPlaced(s, slot)
  }

  predicate RowsNameNumbers(s: State) {
    forall sid :: sid in s.sessions ==> s.sessions[sid].proxy in s.numbers
  }

  ghost predicate Placed(s: State) {
    SlotsPlaced(s) && RowsNameNumbers(s) && forall n :: RegionKnown(s, n)
  }

  /** The accounts say more than that. */
  lemma AccountedIsPlaced(s: State)
    requires Accounted(s)
    ensures Placed(s)
  {
    forall slot ensures SlotPlaced(s, slot) {
      assert SlotOk(s, slot);
    }
    forall n ensures RegionKnown(s, n) {
      assert NumberOk(s, n);
    }
    forall sid | sid in s.sessions ensures s.sessions[sid].proxy in s.numbers {
      assert AllocationOk(s, sid);
    }
  }

  /** The first load places every number, whatever its row says. */
  lemma BootPlaces(numbers: map<Number, NumberRow>, loaded: Pool, now: int)
    requires Reconciled(EMPTY_POOL, loaded, BooksAt(EmptyState(numbers), now), numbers.Keys)
    ensures Placed(EmptyState(numbers).(pool := loaded))
  {
    var s := EmptyState(numbers).(pool := loaded);
    var b := BooksAt(EmptyState(numbers), now);
    forall slot ensures SlotPlaced(s, slot) {
      assert b.Lists(slot) <==> Listed(s, slot);
    }
  }

  // ------------------------------------------------- which steps destroy it

  /** The session's end leaves its number without any. */
  ghost predicate Drains(s: State, sid: Sid) {
    Expires(s, sid) && Idle(s.hosted - {(s.sessions[sid].proxy, sid)}, s.sessions[sid].proxy)
  }

  /** The step makes a cooling number available without ending its cooldown: an
      expiry that releases it with no cooldown, or a reinstatement. */
  ghost predicate Doubles(s: State, op: Op) {
    match op
    case OpExpire(sid, now, cooldownMin) =>
      && Drains(s, sid) && CooldownUntil(now, cooldownMin) <= 0
      && s.sessions[sid].proxy in s.numbers && SlotOf(s, s.sessions[sid].proxy) in s.pool.cooldown
    case OpReinstate(n) => n in s.numbers && s.numbers[n].status == QUARANTINED && SlotOf(s, n) in s.pool.cooldown
    case _ => false
  }

  /** The step makes a number available that still hosts sessions. */
  ghost predicate Reopens(s: State, op: Op) {
    && op.OpReinstate? && op.number in s.numbers
    && s.numbers[op.number].status == QUARANTINED && !Idle(s.hosted, op.number)
  }

  lemma PlacedElsewhere(s: State, t: State, n: Number)
    requires SlotsPlaced(s)
    requires forall slot: Slot :: slot.1 != n ==> SlotUntouched(s, t, slot)
    requires forall r :: SlotPlaced(t, (r, n))
    ensures SlotsPlaced(t)
  {
    forall slot ensures SlotPlaced(t, slot) {
      if slot.1 == n {
        assert SlotPlaced(t, (slot.0, n));
      } else {
        assert SlotPlaced(s, slot) && SlotUntouched(s, t, slot);
      }
    }
  }

  lemma SamePlaces(s: State, t: State)
    requires SlotsPlaced(s) && t.pool == s.pool && t.hosted == s.hosted && t.numbers == s.numbers
    ensures SlotsPlaced(t)
  {
    forall slot ensures SlotPlaced(t, slot) {
      assert SlotPlaced(s, slot);
    }
  }

  lemma PlaceKeepsPlaces(s: State, r: Region, c: Choice, a: PhoneHash, b: PhoneHash, sid: Sid)
    requires SlotsPlaced(s) && MayAllocate(s, r, a, b, c)
    ensures SlotsPlaced(Place(s, r, c, a, b, sid))
    ensures c.number in s.numbers && r == RowRegion(s.numbers[c.number]) && s.numbers[c.number].status != QUARANTINED
    ensures (r, c.number) in Place(s, r, c, a, b, sid).pool.inUse
  {
    var t, n := Place(s, r, c, a, b, sid), c.number;
    assert SlotPlaced(s, (r, n));
    forall slot: Slot | slot.1 != n ensures SlotUntouched(s, t, slot) {
      assert forall other :: (slot.1, other) in t.hosted <==> (slot.1, other) in s.hosted;
    }
    forall q ensures SlotPlaced(t, (q, n)) {
      assert SlotPlaced(s, (q, n));
    }
    PlacedElsewhere(s, t, n);
  }

  /** A release keeps every slot in its place, unless it hands out a number that
      goes on cooling. */
  lemma ReleaseKeepsPlaces(s: State, n: Number, sid: Sid, until: int)
    requires SlotsPlaced(s) && n in s.numbers
    ensures var t, slot := Release(s, SlotOf(s, n).0, n, sid, until), SlotOf(s, n);
            if Idle(s.hosted - {(n, sid)}, n) && until <= 0 && slot in s.pool.cooldown
            then slot in t.pool.available && slot in t.pool.cooldown
            else SlotsPlaced(t)
  {
    var r := RowRegion(s.numbers[n]);
    var t := Release(s, r, n, sid, until);
    assert SlotPlaced(s, (r, n));
    if !(Idle(s.hosted - {(n, sid)}, n) && until <= 0 && (r, n) in s.pool.cooldown) {
      forall slot: Slot | slot.1 != n ensures SlotUntouched(s, t, slot) {
        assert forall other :: (slot.1, other) in t.hosted <==> (slot.1, other) in s.hosted;
      }
      forall q ensures SlotPlaced(t, (q, n)) {
        assert SlotPlaced(s, (q, n));
      }
      PlacedElsewhere(s, t, n);
    }
  }

  // What no step changes: which rows there are and where their regions point.

  ghost predicate SameRegions(s: State, t: State) {
    && t.numbers.Keys == s.numbers.Keys
    && t.pool.regionOf == s.pool.regionOf
    && forall n :: n in s.numbers ==> t.numbers[n].region == s.numbers[n].region
  }

  ghost predicate SameProxies(s: State, t: State) {
    forall sid :: sid in t.sessions ==> sid in s.sessions && t.sessions[sid].proxy == s.sessions[sid].proxy
  }

  lemma NamesFollow(s: State, t: State)
    requires RowsNameNumbers(s) && (forall n :: RegionKnown(s, n))
    requires SameRegions(s, t) && SameProxies(s, t)
    ensures RowsNameNumbers(t) && forall n :: RegionKnown(t, n)
  {
    forall n ensures RegionKnown(t, n) {
      assert RegionKnown(s, n);
    }
  }

  lemma SessionChangeKeepsPlaces(s: State, t: State)
    requires Placed(s) && SameProxies(s, t)
    requires t.pool == s.pool && t.hosted == s.hosted && t.numbers == s.numbers
    ensures Placed(t)
  {
    SamePlaces(s, t);
    NamesFollow(s, t);
  }

  lemma FinishRegions(placed: State, region: Option<Region>, sid: Sid, row: SessionRow, failAt: Option<Stage>)
    ensures SameRegions(placed, Finish(placed, region, sid, row, failAt))
  {
    ReachedPool(placed, sid, row, failAt);
  }

  lemma FinishKeepsPlaces(placed: State, region: Option<Region>, sid: Sid, row: SessionRow, failAt: Option<Stage>)
    requires SlotsPlaced(placed) && RegionKnown(placed, row.proxy) && row.proxy in placed.numbers
    requires SlotOf(placed, row.proxy) in placed.pool.inUse
    requires region.Some? ==> region.value == RowRegion(placed.numbers[row.proxy])
    ensures SlotsPlaced(Finish(placed, region, sid, row, failAt))
  {
    var reached := Reached(placed, sid, row, failAt);
    ReachedPool(placed, sid, row, failAt);
    SamePlaces(placed, reached);
    if failAt.Some? {
      assert SlotPlaced(reached, SlotOf(reached, row.proxy));
      ReleaseKeepsPlaces(reached, row.proxy, sid, 0);
      var released := Release(reached, SlotOf(reached, row.proxy).0, row.proxy, sid, 0);
      SamePlaces(released, MarkFailed(released, sid));
    }
  }

  lemma CreateKeepsPlaces(s: State, op: Op)
    requires Placed(s) && op.OpCreate? && Enabled(s, op)
    ensures Placed(Apply(s, op))
  {
    var args, c := op.args, op.choice;
    var row := NewRow(args, c.number, op.graceMin, op.maxMin, op.now);
    var placed := Place(s, CreateRegion(args), c, AgentHash(args), CustomerHash(args), op.sid);
    PlaceKeepsPlaces(s, CreateRegion(args), c, AgentHash(args), CustomerHash(args), op.sid);
    assert RegionKnown(s, c.number);
    FinishKeepsPlaces(placed, args.region, op.sid, row, op.failAt);
    FinishRegions(placed, args.region, op.sid, row, op.failAt);
    CreatedRow(s, args, op.sid, c, op.graceMin, op.maxMin, op.now, op.failAt);
    var t := Apply(s, op);
    assert SameRegions(s, t);
    forall n ensures RegionKnown(t, n) {
      assert RegionKnown(s, n);
    }
  }

  lemma ExpirePlaces(s: State, sid: Sid, now: int, cooldownMin: int)
    requires Placed(s)
    ensures var t, op := Expire(s, sid, now, cooldownMin), OpExpire(sid, now, cooldownMin);
            if Doubles(s, op)
            then var slot := SlotOf(s, s.sessions[sid].proxy); slot in t.pool.available && slot in t.pool.cooldown
            else Placed(t)
  {
    if Expires(s, sid) {
      var row := s.sessions[sid];
      var n, until := row.proxy, CooldownUntil(now, cooldownMin);
      var marked := s.(sessions := s.sessions[sid := row.(state := EXPIRED)]);
      assert RegionKnown(s, n);
      SamePlaces(s, marked);
      ReleaseKeepsPlaces(marked, n, sid, until);
      var released := Release(marked, SlotOf(s, n).0, n, sid, until);
      var t := Expire(s, sid, now, cooldownMin);
      ReleaseLedgers(marked, SlotOf(s, n).0, n, sid, until);
      assert t == Forget(released, sid, row) && t.hosted == released.hosted;
      if !Doubles(s, OpExpire(sid, now, cooldownMin)) {
        SamePlaces(released, t);
        NamesFollow(s, t);
      }
    }
  }

  lemma ReapKeepsPlaces(s: State, r: Region, now: int)
    requires Placed(s)
    ensures Placed(Reap(s, r, now))
  {
    var t := Reap(s, r, now);
    forall slot ensures SlotPlaced(t, slot) {
      assert SlotPlaced(s, slot) && SlotPlaced(s, (r, slot.1));
    }
    NamesFollow(s, t);
  }

  /** A number that hosts a session is held by a live row. */
  lemma HostingIsHeld(s: State, n: Number)
    requires Inv(s)
    ensures !Idle(s.hosted, n) ==> n in HeldNumbers(s.sessions)
  {
    if !Idle(s.hosted, n) {
      var sid :| (n, sid) in s.hosted;
      assert SessionOk(LedgersOf(s), sid);
    }
  }

  lemma LoadKeepsPlaces(s: State, loaded: Pool, now: int)
    requires Inv(s) && Placed(s) && Reconciled(s.pool, loaded, BooksAt(s, now), s.numbers.Keys)
    ensures Placed(s.(pool := loaded))
  {
    var t, b := s.(pool := loaded), BooksAt(s, now);
    forall slot ensures SlotPlaced(t, slot) {
      assert SlotPlaced(s, slot);
      assert b.Lists(slot) <==> Listed(s, slot);
      if Listed(s, slot) { HostingIsHeld(s, slot.1); }
    }
    forall n ensures RegionKnown(t, n) {
      assert RegionKnown(s, n);
    }
  }

  lemma QuarantineKeepsPlaces(s: State, n: Number)
    requires Placed(s)
    ensures Placed(Quarantine(s, n))
  {
    var t := Quarantine(s, n);
    if t != s {
      forall q ensures SlotPlaced(t, (q, n)) { assert SlotPlaced(s, (q, n)); }
      PlacedElsewhere(s, t, n);
      NamesFollow(s, t);
    }
  }

  lemma ReinstatePlaces(s: State, n: Number)
    requires Placed(s)
    ensures var t, op := Reinstate(s, n), OpReinstate(n);
            && (Placed(t) <==> !Doubles(s, op) && !Reopens(s, op))
            && (Partitioned(t.pool) <==> !Doubles(s, op))
            && (Reopens(s, op) ==> !IdleOutsideUse(t))
  {
    var t := Reinstate(s, n);
    if n in s.numbers && s.numbers[n].status == QUARANTINED {
      var slot := SlotOf(s, n);
      assert SlotPlaced(s, slot);
      assert slot in t.pool.available;
      if SlotOf(s, n) in s.pool.cooldown {
        assert !InOnePlace(t.pool, slot) && !SlotPlaced(t, slot);
      } else {
        forall other: Slot ensures InOnePlace(t.pool, other) { assert SlotPlaced(s, other); }
        if Idle(s.hosted, n) {
          forall q ensures SlotPlaced(t, (q, n)) { assert SlotPlaced(s, (q, n)); }
          PlacedElsewhere(s, t, n);
          NamesFollow(s, t);
        } else {
          assert !Idle(t.hosted, slot.1) && !SlotPlaced(t, slot);
        }
      }
    } else {
      forall slot ensures InOnePlace(t.pool, slot) { assert SlotPlaced(s, slot); }
    }
  }

  lemma PlacedIsPartitioned(s: State)
    requires Placed(s)
    ensures Partitioned(s.pool) && IdleOutsideUse(s)
  {
    forall slot
      ensures InOnePlace(s.pool, slot)
      ensures slot in s.pool.available || slot in s.pool.cooldown ==> Idle(s.hosted, slot.1)
    {
      assert SlotPlaced(s, slot);
    }
  }

  lemma SessionStepKeepsPool(s: State, op: Op)
    requires Enabled(s, op)
    requires op.OpEnd? || op.OpSwap? || op.OpEvict? || op.OpSms? || op.OpStatus?
    ensures var t := Apply(s, op);
            t.pool == s.pool && t.hosted == s.hosted && t.numbers == s.numbers && SameProxies(s, t)
  {
    match op
    case OpEnd(sid, tenant, now) =>
    case OpSwap(sid, tenant, target) =>
    case OpEvict(sid) =>
    case OpSms(sms, m) =>
    case OpStatus(w, now) =>
  }

  lemma SessionStepKeepsPlaces(s: State, op: Op)
    requires Placed(s) && Enabled(s, op)
    requires op.OpEnd? || op.OpSwap? || op.OpEvict? || op.OpSms? || op.OpStatus?
    ensures Placed(Apply(s, op))
  {
    SessionStepKeepsPool(s, op);
    SessionChangeKeepsPlaces(s, Apply(s, op));
  }

  lemma SafeStepPlaces(s: State, op: Op)
    requires Inv(s) && Placed(s) && Enabled(s, op) && !Doubles(s, op) && !Reopens(s, op)
    ensures Placed(Apply(s, op))
  {
    match op
    case OpCreate(_, _, _, _, _, _, _) => CreateKeepsPlaces(s, op);
    case OpExpire(sid, now, cooldownMin) => ExpirePlaces(s, sid, now, cooldownMin);
    case OpReap(r, now) => ReapKeepsPlaces(s, r, now);
    case OpLoad(loaded, now) => LoadKeepsPlaces(s, loaded, now);
    case OpQuarantine(n) => QuarantineKeepsPlaces(s, n);
    case OpReinstate(n) => ReinstatePlaces(s, n);
    case OpCall(call, m, fallback) =>
      CallTouchesCountersOnly(s, call, m, fallback);
      SessionChangeKeepsPlaces(s, Call(s, call, m, fallback));
    case _ => SessionStepKeepsPlaces(s, op);
  }

  /** From a placed state, the three sets stay disjoint if and only if the step
      does not make a cooling number available as it is; and they stay disjoint
      with no available or cooling number hosting anybody, and everything placed,
      if and only if it does not make a hosting number available either. */
  lemma PartitionSurvivesExactly(s: State, op: Op)
    requires Inv(s) && Placed(s) && Enabled(s, op)
    ensures var t := Apply(s, op);
            && (Partitioned(t.pool) <==> !Doubles(s, op))
            && (Partitioned(t.pool) && IdleOutsideUse(t) <==> !Doubles(s, op) && !Reopens(s, op))
            && (Placed(t) <==> !Doubles(s, op) && !Reopens(s, op))
  {
    if !Doubles(s, op) && !Reopens(s, op) {
      SafeStepPlaces(s, op);
      PlacedIsPartitioned(Apply(s, op));
    } else if op.OpExpire? {
      ExpirePlaces(s, op.sid, op.now, op.cooldownMin);
      var slot := SlotOf(s, s.sessions[op.sid].proxy);
      assert !InOnePlace(Apply(s, op).pool, slot) && !SlotPlaced(Apply(s, op), slot);
    } else {
      ReinstatePlaces(s, op.number);
    }
  }

  /** A drained number rests for its cooldown in minutes, to the millisecond: the
      reaper returns it at that moment and no sooner. Without one it is available
      at once. */
  lemma CoolsForExactly(s: State, sid: Sid, now: int, cooldownMin: int, at: int)
    requires Placed(s) && Drains(s, sid) && now >= 0
    ensures var t, slot := Expire(s, sid, now, cooldownMin), SlotOf(s, s.sessions[sid].proxy);
            if cooldownMin > 0 then
              && slot in t.pool.cooldown && slot !in t.pool.available
              && (slot in Reap(t, slot.0, at).pool.available <==> at >= now + cooldownMin * 60_000)
            else
              slot in t.pool.available
  {
    assert RegionKnown(s, s.sessions[sid].proxy) && SlotPlaced(s, SlotOf(s, s.sessions[sid].proxy));
    var t, slot := Expire(s, sid, now, cooldownMin), SlotOf(s, s.sessions[sid].proxy);
    if cooldownMin > 0 {
      assert t.pool.cooldown[slot] == now + cooldownMin * 60_000;
      assert slot in Due(t.pool.cooldown, slot.0, at) <==> at >= now + cooldownMin * 60_000;
    }
  }

  // ------------------------------------------------------- kept by every step

  /** Every slot in use is that of a row, wherever it is. */
  ghost predicate SlotsListed(s: State) {
    forall slot: Slot :: Somewhere(s.pool, slot) ==> Listed(s, slot)
  }

  ghost predicate Listing(s: State) {
    SlotsListed(s) && RowsNameNumbers(s) && forall n :: RegionKnown(s, n)
  }

  lemma PlacedIsListing(s: State)
    requires Placed(s)
    ensures Listing(s)
  {
    forall slot: Slot | Somewhere(s.pool, slot) ensures Listed(s, slot) {
      assert SlotPlaced(s, slot);
    }
  }

  lemma SameRegionsKeepListing(s: State, t: State)
    requires Listing(s) && SameRegions(s, t) && SameProxies(s, t)
    requires forall slot: Slot :: Somewhere(t.pool, slot) ==> Somewhere(s.pool, slot) || Listed(s, slot)
    ensures Listing(t)
  {
    NamesFollow(s, t);
  }

  lemma PlaceKeepsListing(s: State, r: Region, c: Choice, a: PhoneHash, b: PhoneHash, sid: Sid)
    requires SlotsListed(s) && MayAllocate(s, r, a, b, c)
    ensures SlotsListed(Place(s, r, c, a, b, sid)) && c.number in s.numbers && r == RowRegion(s.numbers[c.number])
  {
    var t := Place(s, r, c, a, b, sid);
    assert Listed(s, (r, c.number)) by { assert Somewhere(s.pool, (r, c.number)); }
    forall slot: Slot | Somewhere(t.pool, slot) ensures Listed(t, slot) {
      assert Somewhere(s.pool, slot) || slot == (r, c.number);
    }
  }

  lemma ReleaseKeepsListing(s: State, n: Number, sid: Sid, until: int)
    requires SlotsListed(s) && n in s.numbers
    ensures SlotsListed(Release(s, RowRegion(s.numbers[n]), n, sid, until))
  {
    var t := Release(s, RowRegion(s.numbers[n]), n, sid, until);
    forall slot: Slot | Somewhere(t.pool, slot) ensures Listed(t, slot) {
      assert Somewhere(s.pool, slot) || slot == SlotOf(s, n);
    }
  }

  lemma FinishKeepsListing(placed: State, region: Option<Region>, sid: Sid, row: SessionRow, failAt: Option<Stage>)
    requires SlotsListed(placed) && RegionKnown(placed, row.proxy) && row.proxy in placed.numbers
    requires region.Some? ==> region.value == RowRegion(placed.numbers[row.proxy])
    ensures SlotsListed(Finish(placed, region, sid, row, failAt))
  {
    var reached := Reached(placed, sid, row, failAt);
    ReachedPool(placed, sid, row, failAt);
    if failAt.Some? {
      ReleaseKeepsListing(reached, row.proxy, sid, 0);
    }
  }

  lemma CreateKeepsListing(s: State, op: Op)
    requires Listing(s) && op.OpCreate? && Enabled(s, op)
    ensures Listing(Apply(s, op))
  {
    var args, c := op.args, op.choice;
    var row := NewRow(args, c.number, op.graceMin, op.maxMin, op.now);
    var placed := Place(s, CreateRegion(args), c, AgentHash(args), CustomerHash(args), op.sid);
    var t := Apply(s, op);
    PlaceKeepsListing(s, CreateRegion(args), c, AgentHash(args), CustomerHash(args), op.sid);
    assert RegionKnown(s, c.number);
    FinishKeepsListing(placed, args.region, op.sid, row, op.failAt);
    FinishRegions(placed, args.region, op.sid, row, op.failAt);
    CreatedRow(s, args, op.sid, c, op.graceMin, op.maxMin, op.now, op.failAt);
    forall n ensures RegionKnown(t, n) {
      assert RegionKnown(s, n);
    }
  }

  lemma ExpireKeepsListing(s: State, sid: Sid, now: int, cooldownMin: int)
    requires Listing(s)
    ensures Listing(Expire(s, sid, now, cooldownMin))
  {
    if Expires(s, sid) {
      var row := s.sessions[sid];
      var marked := s.(sessions := s.sessions[sid := row.(state := EXPIRED)]);
      var t := Expire(s, sid, now, cooldownMin);
      assert RegionKnown(s, row.proxy);
      assert SlotsListed(marked);
      ReleaseKeepsListing(marked, row.proxy, sid, CooldownUntil(now, cooldownMin));
      NamesFollow(s, t);
    }
  }

  lemma PoolStepKeepsListing(s: State, op: Op)
    requires Listing(s) && Enabled(s, op)
    requires op.OpReap? || op.OpQuarantine? || op.OpReinstate?
    ensures Listing(Apply(s, op))
  {
    SameRegionsKeepListing(s, Apply(s, op));
  }

  lemma LoadKeepsListing(s: State, loaded: Pool, now: int)
    requires Listing(s) && Reconciled(s.pool, loaded, BooksAt(s, now), s.numbers.Keys)
    ensures Listing(s.(pool := loaded))
  {
    var t, b := s.(pool := loaded), BooksAt(s, now);
    forall slot: Slot | Somewhere(loaded, slot) ensures Listed(t, slot) {
      assert b.Lists(slot) <==> Listed(s, slot);
      assert !Listed(s, slot) ==> !Somewhere(s.pool, slot);
    }
    forall n ensures RegionKnown(t, n) {
      assert RegionKnown(s, n);
    }
  }

  lemma StepKeepsListing(s: State, op: Op)
    requires Listing(s) && Enabled(s, op)
    ensures Listing(Apply(s, op))
  {
    match op
    case OpCreate(_, _, _, _, _, _, _) => CreateKeepsListing(s, op);
    case OpExpire(sid, now, cooldownMin) => ExpireKeepsListing(s, sid, now, cooldownMin);
    case OpLoad(loaded, now) => LoadKeepsListing(s, loaded, now);
    case OpCall(call, m, fallback) =>
      CallTouchesCountersOnly(s, call, m, fallback);
      SameRegionsKeepListing(s, Call(s, call, m, fallback));
    case OpReap(_, _) => PoolStepKeepsListing(s, op);
    case OpQuarantine(_) => PoolStepKeepsListing(s, op);
    case OpReinstate(_) => PoolStepKeepsListing(s, op);
    case _ =>
      SessionStepKeepsPool(s, op);
      SameRegionsKeepListing(s, Apply(s, op));
  }

  /** A session gets a number of the region it asks for, or else of lagos. */
  lemma CreatedInItsRegion(s: State, op: Op)
    requires Listing(s) && op.OpCreate? && Enabled(s, op)
    ensures op.choice.number in s.numbers
    ensures var row := s.numbers[op.choice.number];
            (if row.region.Some? then row.region.value else "lagos") ==
            (if op.args.region.Some? then op.args.region.value else "lagos")
  {
    assert Somewhere(s.pool, (CreateRegion(op.args), op.choice.number));
  }

  /** A number whose pointer is lost is taken to be in lagos. */
  lemma UnknownNumbersAreReleasedToLagos(pool: Pool, region: Option<Region>, n: Number)
    ensures ReleaseRegion(pool, region, n) ==
              if region.Some? then region.value else if n in pool.regionOf then pool.regionOf[n] else "lagos"
  {
  }

  /** No step puts a number under a region, or a row on a number, that is not in
      the tables: so much holds after every run, whatever its steps. */
  lemma {:induction false} RunsKeepListing(s: State, ops: seq<Op>)
    requires Listing(s) && Runs(s, ops)
    ensures Listing(After(s, ops))
    decreases |ops|
  {
    if ops != [] {
      StepKeepsListing(s, ops[0]);
      RunsKeepListing(Apply(s, ops[0]), ops[1..]);
    }
  }

  // ---------------------------------------------------------- accounted states

  /** From an accounted state only an expiry that is not tidy puts a number into
      two sets, and only what is not tidy, but for an end and a quarantine, makes a
      number that hosts sessions available. */
  lemma PartitionFromAccountedStates(s: State, op: Op)
    requires Inv(s) && Accounted(s) && Enabled(s, op)
    ensures Partitioned(Apply(s, op).pool) <==> !(op.OpExpire? && !Tidy(s, op))
    ensures Partitioned(Apply(s, op).pool) && IdleOutsideUse(Apply(s, op)) <==>
              Tidy(s, op) || op.OpEnd? || op.OpQuarantine?
  {
    AccountedIsPlaced(s);
    PartitionSurvivesExactly(s, op);
    if op.OpExpire? && Expires(s, op.sid) {
      var n := s.sessions[op.sid].proxy;
      assert AllocationOk(s, op.sid) && NumberOk(s, n) && SlotOk(s, SlotOf(s, n));
      assert SessionOk(LedgersOf(s), op.sid);
    }
    if op.OpReinstate? && op.number in s.numbers {
      assert SlotOk(s, SlotOf(s, op.number));
    }
  }

  // ------------------------------------------------------------- whole runs

  ghost predicate SafeRun(s: State, ops: seq<Op>)
    requires Runs(s, ops)
    decreases |ops|
  {
    ops == [] || (!Doubles(s, ops[0]) && !Reopens(s, ops[0]) && SafeRun(Apply(s, ops[0]), ops[1..]))
  }

  /** After every run of steps that make no cooling and no hosting number
      available, the sets are disjoint and only numbers in use host sessions. */
  lemma {:induction false} SafeRunsPartition(s: State, ops: seq<Op>)
    requires Inv(s) && Placed(s) && Runs(s, ops) && SafeRun(s, ops)
    ensures Inv(After(s, ops)) && Placed(After(s, ops))
    ensures Partitioned(After(s, ops).pool) && IdleOutsideUse(After(s, ops))
    decreases |ops|
  {
    if ops == [] {
      PlacedIsPartitioned(s);
    } else {
      StepKeeps(s, ops[0]);
      PartitionSurvivesExactly(s, ops[0]);
      SafeRunsPartition(Apply(s, ops[0]), ops[1..]);
    }
  }

  /** Tidy runs are safe ones. */
  lemma {:induction false} TidyRunsAreSafe(s: State, ops: seq<Op>)
    requires Inv(s) && Accounted(s) && Runs(s, ops) && TidyRun(s, ops)
    ensures SafeRun(s, ops)
    decreases |ops|
  {
    if ops != [] {
      AccountedIsPlaced(s);
      PartitionFromAccountedStates(s, ops[0]);
      PartitionSurvivesExactly(s, ops[0]);
      StepKeeps(s, ops[0]);
      AccountsSurviveExactlyTidySteps(s, ops[0]);
      TidyRunsAreSafe(Apply(s, ops[0]), ops[1..]);
    }
  }

  /** An available number of a placed state hosts nobody, so the script's
      very first sample already fits. */
  lemma FirstSampleFits(s: State, r: Region, n: Number, a: PhoneHash, b: PhoneHash)
    requires Placed(s) && (r, n) in s.pool.available
    ensures Idle(s.hosted, n) && MayAllocate(s, r, a, b, Choice(n, true))
  {
    assert SlotPlaced(s, (r, n));
  }

  /** Quarantining a cooling number and reinstating it puts it into two sets; a
      number that hosts sessions becomes available while it does. */
  lemma ReinstatedTooEarly(s: State, n: Number)
    requires n in s.numbers && s.numbers[n].status != QUARANTINED
    ensures var ops := [OpQuarantine(n), OpReinstate(n)];
            && Runs(s, ops)
            && SlotOf(s, n) in After(s, ops).pool.available
            && (SlotOf(s, n) in s.pool.cooldown ==> SlotOf(s, n) in After(s, ops).pool.cooldown)
            && (!Idle(s.hosted, n) ==> !IdleOutsideUse(After(s, ops)))
  {
    var ops := [OpQuarantine(n), OpReinstate(n)];
    var q := Quarantine(s, n);
    assert ops[1..] == [OpReinstate(n)] && ops[1..][1..] == [];
    assert Runs(Reinstate(q, n), []);
    assert Runs(q, ops[1..]) && After(q, ops[1..]) == Reinstate(q, n);
    assert SlotOf(s, n) in Reinstate(q, n).pool.available && SlotOf(s, n).1 == n;
  }

  /** Expiring, without cooldown, the row of a rolled back creation on a number that
      has been given to others since and now cools also puts it into two sets. */
  lemma RolledBackWhileCooling(s: State, sid: Sid, now: int)
    requires Placed(s) && NeverLive(s, sid) && SlotOf(s, s.sessions[sid].proxy) in s.pool.cooldown
    ensures var t, slot := Expire(s, sid, now, 0), SlotOf(s, s.sessions[sid].proxy);
            slot in t.pool.available && slot in t.pool.cooldown
  {
    assert SlotPlaced(s, SlotOf(s, s.sessions[sid].proxy));
    ExpirePlaces(s, sid, now, 0);
  }

  lemma RolledBackKeepsFresh(s: State, args: CreateArgs, n: Number, sid: Sid, later: Sid)
    requires FreshSid(s, sid) && FreshSid(s, later) && sid != later
    ensures FreshSid(Create(s, args, sid, Choice(n, true), 0, 0, 0, Some(ActivateFails)), later)
  {
    RollbackLeaves(s, args, sid, Choice(n, true), 0, 0, 0, ActivateFails);
  }

  lemma RolledBackPool(s: State, args: CreateArgs, n: Number, sid: Sid)
    requires (CreateRegion(args), n) in s.pool.available && Idle(s.hosted, n)
    requires n in s.pool.regionOf && s.pool.regionOf[n] == CreateRegion(args)
    ensures (CreateRegion(args), n) in
            Create(s, args, sid, Choice(n, true), 0, 0, 0, Some(ActivateFails)).pool.available
  {
    var placed := Place(s, CreateRegion(args), Choice(n, true), AgentHash(args), CustomerHash(args), sid);
    var reached := Reached(placed, sid, NewRow(args, n, 0, 0, 0), Some(ActivateFails));
    assert Idle(reached.hosted - {(n, sid)}, n);
  }

  /** The rollback gives the number back and leaves a FAILED row that names it. */
  lemma RolledBackLeavesFree(s: State, args: CreateArgs, n: Number, sid: Sid, later: Sid) returns (t: State)
    requires Inv(s) && Placed(s) && (CreateRegion(args), n) in s.pool.available
    requires CreateCheck(args).None? && FreshSid(s, sid) && FreshSid(s, later) && sid != later
    ensures Enabled(s, OpCreate(args, sid, Choice(n, true), 0, 0, 0, Some(ActivateFails)))
    ensures t == Apply(s, OpCreate(args, sid, Choice(n, true), 0, 0, 0, Some(ActivateFails)))
    ensures Inv(t) && Placed(t) && (CreateRegion(args), n) in t.pool.available && FreshSid(t, later)
    ensures NeverLive(t, sid) && t.sessions[sid].proxy == n
  {
    var op := OpCreate(args, sid, Choice(n, true), 0, 0, 0, Some(ActivateFails));
    FirstSampleFits(s, CreateRegion(args), n, AgentHash(args), CustomerHash(args));
    t := Apply(s, op);
    StepKeeps(s, op);
    CreateKeepsPlaces(s, op);
    CreatedRow(s, args, sid, Choice(n, true), 0, 0, 0, Some(ActivateFails));
    RolledBackKeepsFresh(s, args, n, sid, later);
    assert SlotPlaced(s, (CreateRegion(args), n)) && RegionKnown(s, n);
    RolledBackPool(s, args, n, sid);
  }

  lemma CreatedOnFree(s: State, args: CreateArgs, n: Number, sid: Sid, earlier: Sid) returns (t: State)
    requires Inv(s) && Placed(s) && (CreateRegion(args), n) in s.pool.available
    requires CreateCheck(args).None? && FreshSid(s, sid) && sid != earlier
    requires NeverLive(s, earlier) && s.sessions[earlier].proxy == n
    ensures Enabled(s, OpCreate(args, sid, Choice(n, true), 0, 0, 0, None))
    ensures t == Apply(s, OpCreate(args, sid, Choice(n, true), 0, 0, 0, None))
    ensures Inv(t) && Placed(t) && n in t.numbers && SlotOf(t, n) == (CreateRegion(args), n)
    ensures Expires(t, sid) && t.sessions[sid].proxy == n && Idle(t.hosted - {(n, sid)}, n)
    ensures NeverLive(t, earlier) && t.sessions[earlier].proxy == n
    ensures SlotOf(t, n) in t.pool.inUse
  {
    var op := OpCreate(args, sid, Choice(n, true), 0, 0, 0, None);
    FirstSampleFits(s, CreateRegion(args), n, AgentHash(args), CustomerHash(args));
    t := Apply(s, op);
    StepKeeps(s, op);
    CreateKeepsPlaces(s, op);
    CreatedRow(s, args, sid, Choice(n, true), 0, 0, 0, None);
    PlaceKeepsPlaces(s, CreateRegion(args), Choice(n, true), AgentHash(args), CustomerHash(args), sid);
  }

  lemma ExpiredCools(s: State, sid: Sid, n: Number, earlier: Sid)
    requires Placed(s) && n in s.numbers && SlotOf(s, n) in s.pool.inUse
    requires Expires(s, sid) && s.sessions[sid].proxy == n && Idle(s.hosted - {(n, sid)}, n)
    requires NeverLive(s, earlier) && s.sessions[earlier].proxy == n && sid != earlier
    ensures var t := Expire(s, sid, 0, 1);
            && Placed(t) && n in t.numbers && SlotOf(t, n) == SlotOf(s, n)
            && NeverLive(t, earlier) && t.sessions[earlier].proxy == n && SlotOf(t, n) in t.pool.cooldown
  {
    ExpirePlaces(s, sid, 0, 1);
    assert RegionKnown(s, n);
  }

  /** How a run gets there from any placed state with a free number: a creation is
      given it and rolled back, another is given it and expires with a cooldown,
      and then the rolled back one expires without. */
  lemma RunIntoTwoSets(s: State, args: CreateArgs, n: Number, rolledBack: Sid, sid: Sid) returns (ops: seq<Op>)
    requires Inv(s) && Placed(s) && (CreateRegion(args), n) in s.pool.available
    requires CreateCheck(args).None? && FreshSid(s, rolledBack) && FreshSid(s, sid) && rolledBack != sid
    ensures Runs(s, ops) && |ops| == 4
    ensures var t, slot := After(s, ops), (CreateRegion(args), n); slot in t.pool.available && slot in t.pool.cooldown
  {
    var slot, c := (CreateRegion(args), n), Choice(n, true);
    var op1 := OpCreate(args, rolledBack, c, 0, 0, 0, Some(ActivateFails));
    var s1 := RolledBackLeavesFree(s, args, n, rolledBack, sid);
    var op2 := OpCreate(args, sid, c, 0, 0, 0, None);
    var s2 := CreatedOnFree(s1, args, n, sid, rolledBack);
    var op3 := OpExpire(sid, 0, 1);
    var s3 := Apply(s2, op3);
    ExpiredCools(s2, sid, n, rolledBack);
    var op4 := OpExpire(rolledBack, 0, 0);
    RolledBackWhileCooling(s3, rolledBack, 0);
    RunsExtend(s, [], op1);
    RunsExtend(s, [] + [op1], op2);
    RunsExtend(s, [] + [op1] + [op2], op3);
    RunsExtend(s, [] + [op1] + [op2] + [op3], op4);
    ops := [] + [op1] + [op2] + [op3] + [op4];
  }

  /** In particular after the first load, on every number that is AVAILABLE. */
  lemma RunFromBootIntoTwoSets(numbers: map<Number, NumberRow>, loaded: Pool, now: int, args: CreateArgs, n: Number)
    returns (ops: seq<Op>)
    requires Reconciled(EMPTY_POOL, loaded, BooksAt(EmptyState(numbers), now), numbers.Keys)
    requires n in numbers && numbers[n].status == AVAILABLE && RowRegion(numbers[n]) == CreateRegion(args)
    requires CreateCheck(args).None?
    ensures var boot, slot := EmptyState(numbers).(pool := loaded), (CreateRegion(args), n);
            && Boots(boot) && Runs(boot, ops)
            && slot in After(boot, ops).pool.available && slot in After(boot, ops).pool.cooldown
  {
    var boot := EmptyState(numbers).(pool := loaded);
    BootPlaces(numbers, loaded, now);
    LoadPlacesEveryNumber(EMPTY_POOL, loaded, BooksAt(EmptyState(numbers), now), n);
    assert Boots(boot) && Inv(boot);
    ops := RunIntoTwoSets(boot, args, n, "rolled back", "second");
  }

  // ----------------------------------------------------------- conservation

  /** The numbers the platform may use at all. */
  function InService(numbers: map<Number, NumberRow>): set<Number> {
    set n | n in numbers && numbers[n].status != QUARANTINED
  }

  function PoolSize(pool: Pool): nat {
    |pool.available| + |pool.inUse| + |pool.cooldown|
  }

  lemma {:induction false} SlotsAreAsManyAsNumbers(numbers: map<Number, NumberRow>, which: set<Number>,
                                                   slots: set<Slot>)
    requires which <= numbers.Keys
    requires forall slot: Slot :: slot in slots <==> slot.1 in which && slot.0 == RowRegion(numbers[slot.1])
    ensures |slots| == |which|
    decreases which
  {
    if which == {} {
      assert forall slot: Slot :: slot !in slots;
      assert slots == {};
    } else {
      var n :| n in which;
      var slot := (RowRegion(numbers[n]), n);
      assert slot in slots;
      SlotsAreAsManyAsNumbers(numbers, which - {n}, slots - {slot});
    }
  }

  /** The numbers that are in one of the sets. */
  function InPool(s: State): set<Number> {
    set n | n in s.numbers && (s.numbers[n].status != QUARANTINED || SlotOf(s, n) in s.pool.cooldown)
  }

  lemma SizesAdd<T>(a: set<T>, b: set<T>, c: set<T>)
    requires a !! b && (a + b) !! c
    ensures |a + b + c| == |a| + |b| + |c|
  {
    assert |a + b| == |a| + |b|;
  }

  lemma SetsAreDisjoint(s: State)
    requires SlotsPlaced(s)
    ensures s.pool.available !! s.pool.inUse && (s.pool.available + s.pool.inUse) !! s.pool.cooldown.Keys
  {
    forall slot: Slot
      ensures !(slot in s.pool.available && slot in s.pool.inUse)
      ensures slot in s.pool.cooldown ==> slot !in s.pool.available && slot !in s.pool.inUse
    {
      assert SlotPlaced(s, slot);
    }
  }

  lemma SlotsAreThoseInPool(s: State, slot: Slot)
    requires SlotsPlaced(s)
    ensures Somewhere(s.pool, slot) <==> slot.1 in InPool(s) && Listed(s, slot)
  {
    assert SlotPlaced(s, slot);
  }

  lemma PoolSizeIs(s: State)
    requires SlotsPlaced(s)
    ensures PoolSize(s.pool) == |InPool(s)|
  {
    var slots := s.pool.available + s.pool.inUse + s.pool.cooldown.Keys;
    SetsAreDisjoint(s);
    SizesAdd(s.pool.available, s.pool.inUse, s.pool.cooldown.Keys);
    forall slot: Slot ensures slot in slots <==> slot.1 in InPool(s) && slot.0 == RowRegion(s.numbers[slot.1]) {
      SlotsAreThoseInPool(s, slot);
    }
    SlotsAreAsManyAsNumbers(s.numbers, InPool(s), slots);
    assert |s.pool.cooldown| == |s.pool.cooldown.Keys|;
  }

  /** Out of service, but still waiting for the end of a cooldown. */
  function StillCooling(s: State): set<Number> {
    set n | n in s.numbers && s.numbers[n].status == QUARANTINED && SlotOf(s, n) in s.pool.cooldown
  }

  /** The pool sets are disjoint and together hold each number in service once,
      and nothing else but quarantined numbers that still cool. */
  lemma PoolIsPartitioned(s: State)
    requires Placed(s)
    ensures s.pool.available * s.pool.inUse == {}
    ensures (s.pool.available + s.pool.inUse) * s.pool.cooldown.Keys == {}
    ensures PoolSize(s.pool) == |InService(s.numbers)| + |StillCooling(s)|
    ensures Accounted(s) ==> StillCooling(s) == {}
  {
    PoolSizeIs(s);
    SetsAreDisjoint(s);
    SizesAdd(InService(s.numbers), StillCooling(s), {});
    assert InPool(s) == InService(s.numbers) + StillCooling(s) + {};
    if Accounted(s) {
      forall n ensures n !in StillCooling(s) {
        assert n in s.numbers ==> SlotOk(s, SlotOf(s, n));
      }
    }
  }

  /** A number in service hosts sessions only while in use. In an accounted state
      one in use hosts some, or was provisioned as IN_USE. */
  lemma OnlyNumbersInUseHost(s: State, n: Number)
    requires Placed(s) && n in s.numbers
    ensures var slot := SlotOf(s, n);
            && (!Idle(s.hosted, n) && n in InService(s.numbers) ==> slot in s.pool.inUse)
            && (slot in s.pool.available || slot in s.pool.cooldown ==> Idle(s.hosted, n))
            && (Accounted(s) && slot in s.pool.inUse ==> !Idle(s.hosted, n) || s.numbers[n].status == IN_USE)
  {
    assert SlotPlaced(s, SlotOf(s, n));
    assert Accounted(s) ==> SlotOk(s, SlotOf(s, n));
  }

  predicate NoneQuarantined(s: State) {
    forall n :: n in s.numbers ==> s.numbers[n].status != QUARANTINED
  }

  lemma ExpireProvisionsNothing(s: State, sid: Sid, now: int, cooldownMin: int)
    ensures Expire(s, sid, now, cooldownMin).numbers.Keys == s.numbers.Keys
    ensures NoneQuarantined(s) ==> NoneQuarantined(Expire(s, sid, now, cooldownMin))
  {
  }

  lemma ReleaseProvisionsNothing(s: State, r: Region, n: Number, sid: Sid, until: int)
    ensures Release(s, r, n, sid, until).numbers.Keys == s.numbers.Keys
    ensures NoneQuarantined(s) ==> NoneQuarantined(Release(s, r, n, sid, until))
  {
  }

  lemma CreateProvisionsNothing(s: State, args: CreateArgs, sid: Sid, c: Choice, graceMin: int, maxMin: int, now: int,
                                failAt: Option<Stage>)
    ensures var t := Create(s, args, sid, c, graceMin, maxMin, now, failAt);
            t.numbers.Keys == s.numbers.Keys && (NoneQuarantined(s) ==> NoneQuarantined(t))
  {
    var placed := Place(s, CreateRegion(args), c, AgentHash(args), CustomerHash(args), sid);
    var row := NewRow(args, c.number, graceMin, maxMin, now);
    ReachedPool(placed, sid, row, failAt);
    if failAt.Some? {
      var reached := Reached(placed, sid, row, failAt);
      ReleaseProvisionsNothing(reached, ReleaseRegion(reached.pool, args.region, row.proxy), row.proxy, sid, 0);
    }
  }

  lemma StepProvisionsNothing(s: State, op: Op)
    requires Enabled(s, op)
    ensures Apply(s, op).numbers.Keys == s.numbers.Keys
    ensures NoneQuarantined(s) && !op.OpQuarantine? ==> NoneQuarantined(Apply(s, op))
  {
    match op
    case OpCreate(args, sid, c, graceMin, maxMin, now, failAt) =>
      CreateProvisionsNothing(s, args, sid, c, graceMin, maxMin, now, failAt);
    case OpCall(call, m, fallback) => CallTouchesCountersOnly(s, call, m, fallback);
    case OpExpire(sid, now, cooldownMin) => ExpireProvisionsNothing(s, sid, now, cooldownMin);
    case _ =>
  }

  /** Without quarantine, the three sets keep one constant total: the number of
      provisioned rows, after every operation of every safe run. */
  lemma {:induction false} PoolSizeIsConstant(s: State, ops: seq<Op>)
    requires Inv(s) && Placed(s) && Runs(s, ops) && SafeRun(s, ops)
    requires NoneQuarantined(s) && forall i :: 0 <= i < |ops| ==> !ops[i].OpQuarantine?
    ensures PoolSize(After(s, ops).pool) == |s.numbers|
    decreases |ops|
  {
    if ops == [] {
      PoolSizeIs(s);
      assert InPool(s) == s.numbers.Keys;
    } else {
      StepKeeps(s, ops[0]);
      PartitionSurvivesExactly(s, ops[0]);
      StepProvisionsNothing(s, ops[0]);
      assert |Apply(s, ops[0]).numbers.Keys| == |s.numbers.Keys|;
      PoolSizeIsConstant(Apply(s, ops[0]), ops[1..]);
    }
  }

  /** The steps that bring a number into the pool or take one out. */
  ghost predicate ChangesTheTotal(s: State, op: Op) {
    match op
    case OpExpire(sid, now, cooldownMin) =>
      && Drains(s, sid) && s.sessions[sid].proxy in s.numbers
      && var n := s.sessions[sid].proxy;
         if SlotOf(s, n) in s.pool.cooldown then CooldownUntil(now, cooldownMin) <= 0
         else s.numbers[n].status == QUARANTINED
    case OpQuarantine(n) => n in s.numbers && s.numbers[n].status != QUARANTINED && SlotOf(s, n) !in s.pool.cooldown
    case OpReinstate(n) => n in s.numbers && s.numbers[n].status == QUARANTINED
    case OpLoad(_, _) => StillCooling(s) != {}
    case _ => false
  }

  lemma DoublingAddsOne(s: State, sid: Sid, now: int, cooldownMin: int)
    requires Placed(s) && Doubles(s, OpExpire(sid, now, cooldownMin))
    ensures PoolSize(Expire(s, sid, now, cooldownMin).pool) == PoolSize(s.pool) + 1
  {
    var t, slot := Expire(s, sid, now, cooldownMin), SlotOf(s, s.sessions[sid].proxy);
    assert RegionKnown(s, slot.1) && SlotPlaced(s, slot);
    assert t.pool.available == s.pool.available + {slot};
    assert t.pool.inUse == s.pool.inUse - {slot} == s.pool.inUse;
    assert t.pool.cooldown == s.pool.cooldown;
  }

  lemma ReinstatingAddsOne(s: State, n: Number)
    requires Placed(s)
    ensures PoolSize(Reinstate(s, n).pool) ==
            PoolSize(s.pool) + if n in s.numbers && s.numbers[n].status == QUARANTINED then 1 else 0
  {
    if n in s.numbers && s.numbers[n].status == QUARANTINED {
      assert SlotPlaced(s, SlotOf(s, n));
    }
  }

  lemma ExpirePopulation(s: State, sid: Sid, now: int, cooldownMin: int)
    requires Placed(s) && !Doubles(s, OpExpire(sid, now, cooldownMin))
    ensures var t, op := Expire(s, sid, now, cooldownMin), OpExpire(sid, now, cooldownMin);
            |InPool(t)| != |InPool(s)| <==> ChangesTheTotal(s, op)
  {
    if Drains(s, sid) {
      var t, n := Expire(s, sid, now, cooldownMin), s.sessions[sid].proxy;
      assert RegionKnown(s, n) && SlotPlaced(s, SlotOf(s, n));
      assert InPool(t) == InPool(s) + {n};
      if n in InPool(s) {
        assert InPool(s) + {n} == InPool(s);
      } else {
        assert |InPool(s) + {n}| == |InPool(s)| + 1;
      }
      assert n !in InPool(s) <==> ChangesTheTotal(s, OpExpire(sid, now, cooldownMin));
    } else {
      var t := Expire(s, sid, now, cooldownMin);
      assert t.pool == s.pool && t.numbers == s.numbers;
      assert InPool(t) == InPool(s);
    }
  }

  lemma QuarantinePopulation(s: State, n: Number)
    requires Placed(s)
    ensures |InPool(Quarantine(s, n))| != |InPool(s)| <==> ChangesTheTotal(s, OpQuarantine(n))
  {
    var t := Quarantine(s, n);
    if ChangesTheTotal(s, OpQuarantine(n)) {
      assert InPool(t) == InPool(s) - {n} && n in InPool(s);
    } else {
      assert InPool(t) == InPool(s);
    }
  }

  lemma LoadPopulation(s: State, loaded: Pool, now: int)
    requires Placed(s) && Reconciled(s.pool, loaded, BooksAt(s, now), s.numbers.Keys)
    ensures |InPool(s.(pool := loaded))| != |InPool(s)| <==> ChangesTheTotal(s, OpLoad(loaded, now))
  {
    var t := s.(pool := loaded);
    forall n | n in s.numbers ensures n in InPool(t) <==> s.numbers[n].status != QUARANTINED {
      assert BooksAt(s, now).Lists(SlotOf(s, n));
    }
    assert InPool(s) == InPool(t) + StillCooling(s) && InPool(t) !! StillCooling(s);
  }

  lemma ReapPopulation(s: State, r: Region, now: int)
    requires Placed(s)
    ensures InPool(Reap(s, r, now)) == InPool(s)
  {
    forall n ensures n in InPool(Reap(s, r, now)) <==> n in InPool(s) {
      assert n in s.numbers ==> SlotPlaced(s, SlotOf(s, n)) && SlotPlaced(s, (r, n));
    }
  }

  lemma FinishPopulation(placed: State, region: Option<Region>, sid: Sid, row: SessionRow, failAt: Option<Stage>)
    requires RegionKnown(placed, row.proxy) && row.proxy in placed.numbers
    requires placed.numbers[row.proxy].status != QUARANTINED
    requires region.Some? ==> region.value == RowRegion(placed.numbers[row.proxy])
    ensures InPool(Finish(placed, region, sid, row, failAt)) == InPool(placed)
  {
    var t := Finish(placed, region, sid, row, failAt);
    ReachedPool(placed, sid, row, failAt);
    assert t.pool.cooldown == placed.pool.cooldown;
    forall n ensures n in InPool(t) <==> n in InPool(placed) {
    }
  }

  lemma CreatePopulation(s: State, op: Op)
    requires Placed(s) && op.OpCreate? && Enabled(s, op)
    ensures InPool(Apply(s, op)) == InPool(s)
  {
    var args, c := op.args, op.choice;
    var row := NewRow(args, c.number, op.graceMin, op.maxMin, op.now);
    var placed := Place(s, CreateRegion(args), c, AgentHash(args), CustomerHash(args), op.sid);
    PlaceKeepsPlaces(s, CreateRegion(args), c, AgentHash(args), CustomerHash(args), op.sid);
    assert InPool(placed) == InPool(s);
    assert RegionKnown(placed, c.number) by { assert RegionKnown(s, c.number); }
    FinishPopulation(placed, args.region, op.sid, row, op.failAt);
  }

  /** From a placed state the total changes at exactly those steps. */
  lemma TotalChangesExactly(s: State, op: Op)
    requires Inv(s) && Placed(s) && Enabled(s, op)
    ensures PoolSize(Apply(s, op).pool) != PoolSize(s.pool) <==> ChangesTheTotal(s, op)
  {
    if Doubles(s, op) && op.OpExpire? {
      DoublingAddsOne(s, op.sid, op.now, op.cooldownMin);
    } else if op.OpReinstate? {
      ReinstatingAddsOne(s, op.number);
    } else {
      SafeStepPlaces(s, op);
      PoolSizeIs(s);
      PoolSizeIs(Apply(s, op));
      match op
      case OpExpire(sid, now, cooldownMin) => ExpirePopulation(s, sid, now, cooldownMin);
      case OpQuarantine(n) => QuarantinePopulation(s, n);
      case OpLoad(loaded, now) => LoadPopulation(s, loaded, now);
      case OpReap(r, now) => ReapPopulation(s, r, now);
      case OpCreate(_, _, _, _, _, _, _) => CreatePopulation(s, op);
      case OpCall(call, m, fallback) => CallTouchesCountersOnly(s, call, m, fallback);
      case _ => SessionStepKeepsPool(s, op);
    }
  }

  // ------------------------------------------------ allocation is complete

  /** Refusal happens exactly when no allocation is possible: no number of the
      region is available and each one in use hosts a session of a participant.
      A number in use is shared only when none is available. */
  lemma AllocationIsComplete(s: State, r: Region, a: PhoneHash, b: PhoneHash)
    requires Placed(s)
    ensures MayRefuse(s, r, a, b) <==> forall c :: !MayAllocate(s, r, a, b, c)
    ensures MayRefuse(s, r, a, b) <==>
              && (forall n :: (r, n) !in s.pool.available)
              && (forall n :: (r, n) in s.pool.inUse ==> Overlap(s, n, a, b))
    ensures forall c: Choice :: MayAllocate(s, r, a, b, c) && !c.fromAvailable ==>
              forall n :: (r, n) !in s.pool.available
  {
    forall n | (r, n) in s.pool.available ensures !Overlap(s, n, a, b) && MayAllocate(s, r, a, b, Choice(n, true)) {
      FirstSampleFits(s, r, n, a, b);
    }
    if forall c :: !MayAllocate(s, r, a, b, c) {
      forall n | (r, n) in s.pool.inUse ensures Overlap(s, n, a, b) {
        assert !MayAllocate(s, r, a, b, Choice(n, false));
      }
    }
  }

  /** Where numbers are out of place the attempt cap can lose a free number, in exactly
      this situation: one available number overlaps, so that every sample may
      fall on it, another fits, and no number in use does. */
  lemma WhenTheCapLosesANumber(s: State, r: Region, a: PhoneHash, b: PhoneHash)
    ensures (MayRefuse(s, r, a, b) && exists c :: MayAllocate(s, r, a, b, c)) <==>
              && (exists n :: (r, n) in s.pool.available && Overlap(s, n, a, b))
              && (exists n :: (r, n) in s.pool.available && !Overlap(s, n, a, b))
              && (forall n :: (r, n) in s.pool.inUse ==> Overlap(s, n, a, b))
  {
    if n :| (r, n) in s.pool.available && !Overlap(s, n, a, b) {
      assert MayAllocate(s, r, a, b, Choice(n, true));
    }
  }
}
