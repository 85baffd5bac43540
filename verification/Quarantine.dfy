/** How long a quarantined number stays out of circulation. */
module QuarantineModel {
  import opened Types
  import opened StoreModel
  import opened NumberPoolModel
  import opened SessionManagerModel
  import opened AdminPoolModel
  import opened RoutingModel
  import opened LifecycleModel
  import opened PoolAccountingModel
  import opened PoolPartitionModel

  /** In no pool set that leads back to an allocation, hosting nobody, and with
      no row that could still release it. (The reaper never sees a cooldown that
      ended before 1970.) */
  ghost predicate Sealed(s: State, n: Number) {
    && n in s.numbers && s.numbers[n].status == QUARANTINED
    && (forall r ::
          && (r, n) !in s.pool.available
          && (r, n) !in s.pool.inUse
          && ((r, n) in s.pool.cooldown ==> s.pool.cooldown[(r, n)] < 0))
    && Idle(s.hosted, n)
    && (forall sid :: sid in s.sessions && s.sessions[sid].proxy == n ==> s.sessions[sid].state == EXPIRED)
  }

  /** The number's slot waits in the cooldown set for the reaper. */
  predicate Cools(s: State, n: Number)
    requires n in s.numbers
  {
    var slot := (RowRegion(s.numbers[n]), n);
    slot in s.pool.cooldown && s.pool.cooldown[slot] >= 0
  }

  /** Some session row that has not expired names the number. */
  predicate Claimed(s: State, n: Number) {
    exists sid :: sid in s.sessions && s.sessions[sid].proxy == n && s.sessions[sid].state != EXPIRED
  }

  /** The number is in the sets of no region but its own. */
  ghost predicate ListedOnly(s: State, n: Number) {
    forall r :: Somewhere(s.pool, (r, n)) ==> Listed(s, (r, n))
  }

  /** A quarantine that takes effect seals a number that neither cools nor is
      claimed. */
  lemma QuarantineSeals(s: State, n: Number)
    requires Inv(s) && ListedOnly(s, n) && n in s.numbers && s.numbers[n].status != QUARANTINED
    requires !Cools(s, n) && !Claimed(s, n)
    ensures Sealed(Quarantine(s, n), n)
  {
    forall r | Somewhere(s.pool, (r, n)) ensures r == RowRegion(s.numbers[n]) {
      assert Listed(s, (r, n));
    }
    forall sid ensures (n, sid) !in s.hosted {
      assert SessionOk(LedgersOf(s), sid);
    }
  }

  lemma SealedNumberIsNotAllocated(s: State, n: Number, r: Region, a: PhoneHash, b: PhoneHash, c: Choice)
    requires Sealed(s, n) && MayAllocate(s, r, a, b, c)
    ensures c.number != n
  {
  }

  lemma SealFrame(s: State, t: State, n: Number)
    requires Sealed(s, n)
    requires n in t.numbers && t.numbers[n] == s.numbers[n]
    requires forall r :: ((r, n) in t.pool.available ==> (r, n) in s.pool.available)
                         && ((r, n) in t.pool.inUse ==> (r, n) in s.pool.inUse)
                         && ((r, n) in t.pool.cooldown ==>
                               (r, n) in s.pool.cooldown && t.pool.cooldown[(r, n)] == s.pool.cooldown[(r, n)])
    requires forall sid :: (n, sid) in t.hosted ==> (n, sid) in s.hosted
    requires forall sid :: sid in t.sessions && t.sessions[sid].proxy == n ==>
               && sid in s.sessions && s.sessions[sid].proxy == n
               && (s.sessions[sid].state == EXPIRED ==> t.sessions[sid].state == EXPIRED)
    ensures Sealed(t, n)
  {
  }

  lemma SealHoldsOnAdmin(s: State, m: Number, n: Number)
    requires Sealed(s, n)
    ensures Sealed(Quarantine(s, m), n)
    ensures m != n ==> Sealed(Reinstate(s, m), n)
  {
    SealFrame(s, Quarantine(s, m), n);
    if m != n { SealFrame(s, Reinstate(s, m), n); }
  }

  lemma SealHoldsOnSms(s: State, sms: SmsArgs, m: Option<Match>, n: Number)
    requires Sealed(s, n) && MayMatch(s, sms.number, sms.from, sms.hint, m)
    ensures Sealed(Sms(s, sms, m), n)
  {
    SealFrame(s, Sms(s, sms, m), n);
  }

  lemma SealHoldsOnSessionChange(s: State, op: Op, n: Number)
    requires Sealed(s, n) && (op.OpEnd? || op.OpSwap? || op.OpEvict? || op.OpStatus?) && Enabled(s, op)
    ensures Sealed(Apply(s, op), n)
  {
    var t := Apply(s, op);
    assert t.pool == s.pool && t.numbers == s.numbers && t.hosted == s.hosted;
    SealFrame(s, t, n);
  }

  lemma SealHoldsOnReap(s: State, r: Region, now: int, n: Number)
    requires Sealed(s, n)
    ensures Sealed(Reap(s, r, now), n)
  {
    assert (r, n) !in Due(s.pool.cooldown, r, now);
    SealFrame(s, Reap(s, r, now), n);
  }

  lemma SealHoldsOnLoad(s: State, loaded: Pool, now: int, n: Number)
    requires Sealed(s, n) && Reconciled(s.pool, loaded, BooksAt(s, now), s.numbers.Keys)
    ensures Sealed(s.(pool := loaded), n)
  {
    forall r: Region
      ensures (r, n) !in loaded.available && (r, n) !in loaded.inUse
      ensures (r, n) in loaded.cooldown ==> loaded.cooldown[(r, n)] < 0
    {
      assert BooksAt(s, now).Verdict(n) == Nowhere;
      assert (r, n) !in s.pool.available;
    }
  }

  lemma SealHoldsOnReached(p: State, sid: Sid, row: SessionRow, failAt: Option<Stage>, n: Number)
    requires Sealed(p, n) && row.proxy != n && sid !in p.sessions
    ensures var reached := Reached(p, sid, row, failAt);
            Sealed(reached, n) && (sid in reached.sessions ==> reached.sessions[sid].proxy != n)
  {
    var reached := Reached(p, sid, row, failAt);
    ReachedPool(p, sid, row, failAt);
    assert forall other :: other in reached.sessions && other != sid ==>
             other in p.sessions && reached.sessions[other] == p.sessions[other];
    assert sid in reached.sessions ==> reached.sessions[sid].proxy == row.proxy;
    SealFrame(p, reached, n);
  }

  lemma SealHoldsOnMarking(s: State, sid: Sid, n: Number)
    requires Sealed(s, n) && (sid in s.sessions ==> s.sessions[sid].proxy != n)
    ensures Sealed(MarkFailed(s, sid), n)
  {
    SealFrame(s, MarkFailed(s, sid), n);
  }

  lemma SealHoldsOnRelease(s: State, r: Region, m: Number, sid: Sid, until: int, n: Number)
    requires Sealed(s, n) && m != n
    ensures Sealed(Release(s, r, m, sid, until), n)
  {
    SealFrame(s, Release(s, r, m, sid, until), n);
  }

  lemma SealHoldsOnFinish(p: State, region: Option<Region>, sid: Sid, row: SessionRow, failAt: Option<Stage>, n: Number)
    requires Sealed(p, n) && row.proxy != n && sid !in p.sessions
    ensures Sealed(Finish(p, region, sid, row, failAt), n)
  {
    var reached := Reached(p, sid, row, failAt);
    SealHoldsOnReached(p, sid, row, failAt, n);
    if failAt.Some? {
      var r := ReleaseRegion(reached.pool, region, row.proxy);
      SealHoldsOnRelease(reached, r, row.proxy, sid, 0, n);
      SealHoldsOnMarking(Release(reached, r, row.proxy, sid, 0), sid, n);
    }
  }

  lemma SealHoldsOnCreate(s: State, args: CreateArgs, sid: Sid, c: Choice, graceMin: int, maxMin: int, now: int,
                          failAt: Option<Stage>, n: Number)
    requires Sealed(s, n) && Enabled(s, OpCreate(args, sid, c, graceMin, maxMin, now, failAt))
    ensures Sealed(Create(s, args, sid, c, graceMin, maxMin, now, failAt), n)
  {
    assert c.number != n;
    var row := NewRow(args, c.number, graceMin, maxMin, now);
    var placed := Place(s, CreateRegion(args), c, AgentHash(args), CustomerHash(args), sid);
    SealFrame(s, placed, n);
    SealHoldsOnFinish(placed, args.region, sid, row, failAt, n);
  }

  lemma SealHoldsOnExpire(s: State, sid: Sid, now: int, cooldownMin: int, n: Number)
    requires Sealed(s, n)
    ensures Sealed(Expire(s, sid, now, cooldownMin), n)
  {
    if Expires(s, sid) {
      var row := s.sessions[sid];
      var marked := s.(sessions := s.sessions[sid := row.(state := EXPIRED)]);
      SealFrame(s, marked, n);
      var r := ReleaseRegion(s.pool, None, row.proxy);
      SealHoldsOnRelease(marked, r, row.proxy, sid, CooldownUntil(now, cooldownMin), n);
    }
  }

  lemma {:induction false} SealHolds(s: State, op: Op, n: Number)
    requires Inv(s) && Sealed(s, n) && Enabled(s, op) && op != OpReinstate(n)
    ensures Sealed(Apply(s, op), n)
  {
    match op
    case OpCreate(args, sid, c, graceMin, maxMin, now, failAt) =>
      SealHoldsOnCreate(s, args, sid, c, graceMin, maxMin, now, failAt, n);
    case OpExpire(sid, now, cooldownMin) => SealHoldsOnExpire(s, sid, now, cooldownMin, n);
    case OpLoad(loaded, now) => SealHoldsOnLoad(s, loaded, now, n);
    case OpCall(call, m, fallback) =>
      CallTouchesCountersOnly(s, call, m, fallback);
      SealFrame(s, Call(s, call, m, fallback), n);
    case OpReap(r, now) => SealHoldsOnReap(s, r, now, n);
    case OpQuarantine(m) => SealHoldsOnAdmin(s, m, n);
    case OpReinstate(m) => SealHoldsOnAdmin(s, m, n);
    case OpSms(sms, m) => SealHoldsOnSms(s, sms, m, n);
    case _ => SealHoldsOnSessionChange(s, op, n);
  }

  /** Once sealed, a number stays out of the pool through every run in which
      the operator does not reinstate it, and no creation is given it. */
  lemma {:induction false} QuarantineIsKept(s: State, ops: seq<Op>, n: Number)
    requires Inv(s) && Sealed(s, n) && Runs(s, ops)
    requires forall i :: 0 <= i < |ops| ==> ops[i] != OpReinstate(n)
    ensures Sealed(After(s, ops), n)
    ensures forall i :: 0 <= i < |ops| && ops[i].OpCreate? ==> ops[i].choice.number != n
    decreases |ops|
  {
    if ops != [] {
      SealHolds(s, ops[0], n);
      StepKeeps(s, ops[0]);
      QuarantineIsKept(Apply(s, ops[0]), ops[1..], n);
      forall i | 0 <= i < |ops| && ops[i].OpCreate? ensures ops[i].choice.number != n {
        if i > 0 { assert ops[i] == ops[1..][i - 1]; }
      }
    }
  }

  /** The seal needs an idle number: when the last session of a quarantined number
      expires, or a rolled back one that names it while it is idle, the release
      puts the number back into circulation. */
  lemma ExpiryLiftsQuarantine(s: State, sid: Sid, now: int, cooldownMin: int)
    requires Expires(s, sid) && RegionKnown(s, s.sessions[sid].proxy)
    requires s.sessions[sid].proxy in s.numbers && s.numbers[s.sessions[sid].proxy].status == QUARANTINED
    requires forall other :: (s.sessions[sid].proxy, other) in s.hosted ==> other == sid
    ensures var n, t := s.sessions[sid].proxy, Expire(s, sid, now, cooldownMin);
            && t.numbers[n].status != QUARANTINED
            && (SlotOf(s, n) in t.pool.available || SlotOf(s, n) in t.pool.cooldown)
  {
    assert Idle(s.hosted - {(s.sessions[sid].proxy, sid)}, s.sessions[sid].proxy);
  }

  // ----------------------------------------------------- exactly how long

  /** Whatever the pair, the allocator would not hand the number out. */
  ghost predicate NotOnOffer(s: State, n: Number) {
    forall r, a, b, c :: MayAllocate(s, r, a, b, c) ==> c.number != n
  }

  predicate Reinstates(ops: seq<Op>, n: Number) {
    exists i :: 0 <= i < |ops| && ops[i] == OpReinstate(n)
  }

  predicate GivenAway(ops: seq<Op>, n: Number) {
    exists i :: 0 <= i < |ops| && ops[i].OpCreate? && ops[i].choice.number == n
  }

  /** The promise: until the operator reinstates the number, no creation is or
      could be given it. */
  ghost predicate StaysOut(s: State, n: Number) {
    forall ops :: Runs(s, ops) && !Reinstates(ops, n) ==> !GivenAway(ops, n) && NotOnOffer(After(s, ops), n)
  }

  lemma UnclaimedIsIdle(s: State, n: Number)
    requires Inv(s) && !Claimed(s, n)
    ensures Idle(s.hosted, n)
  {
    forall sid ensures (n, sid) !in s.hosted {
      assert SessionOk(LedgersOf(s), sid);
    }
  }

  /** A number that is free and hosts nobody is on offer to every pair. */
  lemma FreeAndIdleIsOnOffer(s: State, r: Region, n: Number)
    requires (r, n) in s.pool.available && Idle(s.hosted, n)
    ensures !NotOnOffer(s, n)
  {
    var someone := HashPhone("", "");
    assert !Overlap(s, n, someone, someone);
    assert MayAllocate(s, r, someone, someone, Choice(n, true));
  }

  lemma OneStepRun(s: State, op: Op)
    requires Enabled(s, op)
    ensures Runs(s, [op]) && After(s, [op]) == Apply(s, op)
  {
    assert [op][1..] == [];
  }

  /** Quarantine leaves the cooldown running, and the reaper then ends both. */
  lemma ReapLiftsQuarantine(s: State, n: Number) returns (ops: seq<Op>)
    requires n in s.numbers && s.numbers[n].status != QUARANTINED && Cools(s, n) && Idle(s.hosted, n)
    ensures var q := Quarantine(s, n);
            && |ops| == 1 && ops[0].OpReap?
            && Runs(q, ops) && !Reinstates(ops, n) && !NotOnOffer(After(q, ops), n)
            && n in After(q, ops).numbers && After(q, ops).numbers[n].status == AVAILABLE
  {
    var q, slot := Quarantine(s, n), (RowRegion(s.numbers[n]), n);
    var until := s.pool.cooldown[slot];
    assert slot in Due(q.pool.cooldown, slot.0, until);
    var t := Reap(q, slot.0, until);
    OneStepRun(q, OpReap(slot.0, until));
    FreeAndIdleIsOnOffer(t, slot.0, n);
    ops := [OpReap(slot.0, until)];
  }

  /** A hosted session if there is one, else any row that claims the number. */
  lemma NextToExpire(s: State, n: Number) returns (sid: Sid)
    requires Inv(s) && Claimed(s, n)
    ensures Expires(s, sid) && s.sessions[sid].proxy == n
    ensures (n, sid) in s.hosted || Idle(s.hosted, n)
  {
    if Idle(s.hosted, n) {
      sid :| sid in s.sessions && s.sessions[sid].proxy == n && s.sessions[sid].state != EXPIRED;
    } else {
      sid :| (n, sid) in s.hosted;
      assert SessionOk(LedgersOf(s), sid);
    }
  }

  /** When the rows that claim a number have all expired, the last expiry has
      put it back into circulation. */
  lemma ExpiriesLiftQuarantine(s: State, n: Number) returns (ops: seq<Op>)
    requires Inv(s) && Claimed(s, n)
    ensures forall i :: 0 <= i < |ops| ==> ops[i].OpExpire?
    ensures Runs(s, ops) && !Reinstates(ops, n) && !NotOnOffer(After(s, ops), n)
    decreases MembersOf(s.hosted, n)
  {
    var sid := NextToExpire(s, n);
    var op := OpExpire(sid, 0, 0);
    var t := Apply(s, op);
    assert t.hosted == s.hosted - {(n, sid)};
    if Idle(t.hosted, n) {
      OneStepRun(s, op);
      FreeAndIdleIsOnOffer(t, ReleaseRegion(s.pool, None, n), n);
      ops := [op];
    } else {
      ExpireKeeps(s, sid, 0, 0);
      var other :| (n, other) in t.hosted;
      assert SessionOk(LedgersOf(t), other);
      assert sid in MembersOf(s.hosted, n) && MembersOf(t.hosted, n) <= MembersOf(s.hosted, n) - {sid};
      var more := ExpiriesLiftQuarantine(t, n);
      ops := [op] + more;
      assert ops[0] == op && ops[1..] == more;
    }
  }

  /** The promise is kept by a quarantine if and only if the number neither cools
      nor is claimed by an unexpired row when it is quarantined, whatever is true of
      other numbers. */
  lemma QuarantineHoldsExactly(s: State, n: Number)
    requires Inv(s) && ListedOnly(s, n) && n in s.numbers && s.numbers[n].status != QUARANTINED
    ensures StaysOut(Quarantine(s, n), n) <==> !Cools(s, n) && !Claimed(s, n)
  {
    var q := Quarantine(s, n);
    assert Inv(q) by { StepKeeps(s, OpQuarantine(n)); }
    if Claimed(s, n) {
      assert Claimed(q, n);
      var ops := ExpiriesLiftQuarantine(q, n);
      assert Runs(q, ops) && !NotOnOffer(After(q, ops), n);
    } else if Cools(s, n) {
      UnclaimedIsIdle(s, n);
      var ops := ReapLiftsQuarantine(s, n);
      assert Runs(q, ops) && !NotOnOffer(After(q, ops), n);
    } else {
      QuarantineSeals(s, n);
      forall ops | Runs(q, ops) && !Reinstates(ops, n) ensures !GivenAway(ops, n) && NotOnOffer(After(q, ops), n) {
        QuarantineIsKept(q, ops, n);
        forall r, a, b, c | MayAllocate(After(q, ops), r, a, b, c) ensures c.number != n {
          SealedNumberIsNotAllocated(After(q, ops), n, r, a, b, c);
        }
      }
    }
  }

  /** So it is after every run of any operations from the first load on. */
  lemma QuarantineHoldsExactlyAfterEveryRun(numbers: map<Number, NumberRow>, loaded: Pool, now: int, ops: seq<Op>,
                                            n: Number)
    requires Reconciled(EMPTY_POOL, loaded, BooksAt(EmptyState(numbers), now), numbers.Keys)
    requires Runs(EmptyState(numbers).(pool := loaded), ops)
    requires var s := After(EmptyState(numbers).(pool := loaded), ops);
             n in s.numbers && s.numbers[n].status != QUARANTINED
    ensures var s := After(EmptyState(numbers).(pool := loaded), ops);
            StaysOut(Quarantine(s, n), n) <==> !Cools(s, n) && !Claimed(s, n)
  {
    var boot := EmptyState(numbers).(pool := loaded);
    BootPlaces(numbers, loaded, now);
    PlacedIsListing(boot);
    RunsKeepListing(boot, ops);
    assert Boots(boot) && Inv(boot);
    EveryRunKeeps(boot, ops);
    QuarantineHoldsExactly(After(boot, ops), n);
  }
}
