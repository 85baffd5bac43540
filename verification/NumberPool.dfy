/** src/services/number-pool.ts: allocation, release, cooldown reaping and the
    boot-time rebuild of the pool from Postgres. */
module NumberPoolModel {
  import opened Types
  import opened StoreModel

  const MAX_ATTEMPTS := 8

  // ------------------------------------------------------------ allocation

  predicate Touches(h: SessionHash, a: PhoneHash, b: PhoneHash) {
    h.partyA == Some(a) || h.partyA == Some(b) || h.partyB == Some(a) || h.partyB == Some(b)
  }

  predicate SessionTouches(hashes: map<Sid, SessionHash>, sid: Sid, a: PhoneHash, b: PhoneHash) {
    sid in hashes && Touches(hashes[sid], a, b)
  }

  /** Some session recorded on the number has one of the two participants. */
  ghost predicate Overlap(s: State, n: Number, a: PhoneHash, b: PhoneHash) {
    exists sid :: (n, sid) in s.hosted && SessionTouches(s.hashes, sid, a, b)
  }

  /** The number a run of the script settled on, and from which phase. */
  datatype Choice = Choice(number: Number, fromAvailable: bool)

  ghost predicate NoFreeNumberFits(s: State, r: Region, a: PhoneHash, b: PhoneHash) {
    || (forall n :: (r, n) !in s.pool.available)
    || (exists n :: (r, n) in s.pool.available && Overlap(s, n, a, b))
  }

  /** The choices open to the script, over every behaviour of SRANDMEMBER. */
  ghost predicate MayAllocate(s: State, r: Region, a: PhoneHash, b: PhoneHash, c: Choice) {
    && !Overlap(s, c.number, a, b)
    && (if c.fromAvailable then (r, c.number) in s.pool.available
        else (r, c.number) in s.pool.inUse && NoFreeNumberFits(s, r, a, b))
  }

  ghost predicate MayRefuse(s: State, r: Region, a: PhoneHash, b: PhoneHash) {
    && NoFreeNumberFits(s, r, a, b)
    && forall n :: (r, n) in s.pool.inUse ==> Overlap(s, n, a, b)
  }

  function TakeIntoUse(pool: Pool, slot: Slot): Pool {
    pool.(available := pool.available - {slot}, inUse := pool.inUse + {slot})
  }

  /** The writes of the script once it has chosen. */
  ghost function Place(s: State, r: Region, c: Choice, a: PhoneHash, b: PhoneHash, sid: Sid): State {
    s.(pool := if c.fromAvailable && Idle(s.hosted, c.number) then TakeIntoUse(s.pool, (r, c.number)) else s.pool,
       hosted := s.hosted + {(c.number, sid)},
       phones := s.phones + {(a, sid), (b, sid)})
  }

  function CooldownUntil(now: int, minutes: int): int {
    if minutes > 0 then now + minutes * 60_000 else 0
  }

  function Rested(row: NumberRow, until: int): NumberRow {
    if until > 0 then row.(status := COOLDOWN, cooldownUntil := Some(until))
    else row.(status := AVAILABLE, cooldownUntil := None)
  }

  function Retire(pool: Pool, slot: Slot, until: int): Pool {
    if until > 0
    then pool.(inUse := pool.inUse - {slot}, available := pool.available - {slot},
               cooldown := pool.cooldown[slot := until])
    else pool.(inUse := pool.inUse - {slot}, available := pool.available + {slot})
  }

  /** Dropping `sid` from the number, and the number from use when it was last. */
  ghost function Release(s: State, r: Region, n: Number, sid: Sid, until: int): State {
    var left := s.hosted - {(n, sid)};
    if Idle(left, n)
    then s.(hosted := left,
            pool := Retire(s.pool, (r, n), until),
            numbers := if n in s.numbers then s.numbers[n := Rested(s.numbers[n], until)] else s.numbers)
    else s.(hosted := left)
  }

  /** What a release does, slot by slot and row by row, when it drains the number:
      it rests for the minutes asked for, or is available at once. */
  lemma ReleasesExactly(s: State, r: Region, n: Number, sid: Sid, minutes: int, now: int, m: Number, slot: Slot)
    requires forall other :: (n, other) in s.hosted ==> other == sid
    ensures var until := now + 60_000 * minutes;
            var t, rests := Release(s, r, n, sid, CooldownUntil(now, minutes)), minutes > 0 && until > 0;
            && t == s.(pool := t.pool, numbers := t.numbers, hosted := s.hosted - {(n, sid)})
            && t.pool.regionOf == s.pool.regionOf
            && (slot in t.pool.inUse <==> slot in s.pool.inUse && slot != (r, n))
            && (slot in t.pool.available <==> if slot == (r, n) then !rests else slot in s.pool.available)
            && (slot in t.pool.cooldown <==> slot in s.pool.cooldown || (rests && slot == (r, n)))
            && (slot in t.pool.cooldown ==>
                  t.pool.cooldown[slot] == if rests && slot == (r, n) then until else s.pool.cooldown[slot])
            && (m in t.numbers <==> m in s.numbers)
            && (m in s.numbers ==>
                  t.numbers[m] ==
                    if m != n then s.numbers[m]
                    else if rests then NumberRow(s.numbers[m].region, COOLDOWN, Some(until))
                    else NumberRow(s.numbers[m].region, AVAILABLE, None))
  {
    assert Idle(s.hosted - {(n, sid)}, n);
  }

  /** While other sessions are on the number a release only takes this one off. */
  lemma ReleaseOfOneOfMany(s: State, r: Region, n: Number, sid: Sid, until: int, other: Sid)
    requires (n, other) in s.hosted && other != sid
    ensures Release(s, r, n, sid, until) == s.(hosted := s.hosted - {(n, sid)})
  {
    assert (n, other) in s.hosted - {(n, sid)};
  }

  function Due(cooldown: map<Slot, int>, r: Region, now: int): set<Slot> {
    set slot | slot in cooldown && slot.0 == r && 0 <= cooldown[slot] <= now
  }

  function BackInService(row: NumberRow): NumberRow {
    row.(status := AVAILABLE, cooldownUntil := None)
  }

  /** UPDATE of the rows whose number is among the reaped ones. */
  function MarkAvailable(numbers: map<Number, NumberRow>, r: Region, due: set<Slot>): map<Number, NumberRow> {
    map n | n in numbers :: if (r, n) in due then BackInService(numbers[n]) else numbers[n]
  }

  function Thaw(pool: Pool, which: set<Slot>): Pool {
    pool.(cooldown := pool.cooldown - which, available := pool.available + which)
  }

  function Reap(s: State, r: Region, now: int): State {
    var due := Due(s.pool.cooldown, r, now);
    s.(pool := Thaw(s.pool, due), numbers := MarkAvailable(s.numbers, r, due))
  }

  /** What a reaping does, slot by slot and row by row. */
  lemma ReapsExactly(s: State, r: Region, now: int, n: Number, slot: Slot)
    ensures var t, over := Reap(s, r, now), slot in s.pool.cooldown && slot.0 == r && 0 <= s.pool.cooldown[slot] <= now;
            && t == s.(pool := t.pool, numbers := t.numbers)
            && t.pool.inUse == s.pool.inUse && t.pool.regionOf == s.pool.regionOf
            && (slot in t.pool.available <==> slot in s.pool.available || over)
            && (slot in t.pool.cooldown <==> slot in s.pool.cooldown && !over)
            && (slot in t.pool.cooldown ==> t.pool.cooldown[slot] == s.pool.cooldown[slot])
            && (n in t.numbers <==> n in s.numbers)
            && (n in s.numbers ==>
                  t.numbers[n] ==
                    if (r, n) in s.pool.cooldown && 0 <= s.pool.cooldown[(r, n)] <= now
                    then NumberRow(s.numbers[n].region, AVAILABLE, None) else s.numbers[n])
  {
  }

  /** Between its allocation and the write of its hash, a session is invisible
      to the overlap test of any other allocation. */
  lemma PlacedButUnwrittenIsInvisible(s: State, r: Region, c: Choice, a: PhoneHash, b: PhoneHash, sid: Sid,
                                      n: Number, x: PhoneHash, y: PhoneHash)
    requires sid !in s.hashes
    ensures Overlap(Place(s, r, c, a, b, sid), n, x, y) <==> Overlap(s, n, x, y)
  {
    var placed := Place(s, r, c, a, b, sid);
    forall other | (n, other) in s.hosted && SessionTouches(s.hashes, other, x, y)
      ensures (n, other) in placed.hosted && SessionTouches(placed.hashes, other, x, y)
    {
    }
  }

  /** So two creations of one pair that interleave there may share the last free
      number; as single steps they never do. */
  lemma InterleavedCreatesMayCollide(s: State, r: Region, n: Number, a: PhoneHash, b: PhoneHash, first: Sid)
    requires MayAllocate(s, r, a, b, Choice(n, true)) && Idle(s.hosted, n) && first !in s.hashes
    requires forall other :: (r, other) in s.pool.available ==> other == n
    ensures MayAllocate(Place(s, r, Choice(n, true), a, b, first), r, a, b, Choice(n, false))
  {
    PlacedButUnwrittenIsInvisible(s, r, Choice(n, true), a, b, first, n, a, b);
  }

  // --------------------------------------------------------------- release

  /** The region a release works on when the caller names none. */
  function ReleaseRegion(pool: Pool, region: Option<Region>, n: Number): Region {
    if region.Some? then region.value
    else if n in pool.regionOf then pool.regionOf[n]
    else DEFAULT_REGION
  }

  // ------------------------------------------------------------------ reap

  // ------------------------------------------------------------------ load

  /** Where a number belongs. */
  datatype Spot = Free | Busy | Cooling(until: int) | Nowhere

  /** The database's verdict: a number held by a live session is busy unless it
      is quarantined, and otherwise its status decides. */
  function SpotOf(row: NumberRow, held: bool, now: int): Spot {
    match row.status
    case QUARANTINED => Nowhere
    case AVAILABLE => if held then Busy else Free
    case IN_USE => Busy
    case COOLDOWN => if held then Busy else Cooling(row.cooldownUntil.GetOr(now))
  }

  /** Numbers that an ACTIVE or GRACE_PERIOD row points at. */
  function HeldNumbers(sessions: map<Sid, SessionRow>): (held: set<Number>)
    ensures forall n :: n in held <==>
              exists sid :: sid in sessions && IsLive(sessions[sid].state) && sessions[sid].proxy == n
  {
    set sid | sid in sessions && IsLive(sessions[sid].state) :: sessions[sid].proxy
  }

  /** What the database says at one instant: the rows and the held numbers. */
  datatype Books = Books(numbers: map<Number, NumberRow>, held: set<Number>, now: int) {

    /** The slot is the one its number's row names. */
    predicate Lists(slot: Slot) {
      slot.1 in numbers && slot.0 == RowRegion(numbers[slot.1])
    }

    function Verdict(n: Number): Spot
      requires n in numbers
    {
      SpotOf(numbers[n], n in held, now)
    }
  }

  function BooksAt(s: State, now: int): Books {
    Books(s.numbers, HeldNumbers(s.sessions), now)
  }

  ghost predicate AvailableReconciled(from: Pool, to: Pool, b: Books, which: set<Number>) {
    forall slot: Slot :: slot in to.available <==>
      if slot.1 in which && b.Lists(slot) then b.Verdict(slot.1) == Free else slot in from.available
  }

  ghost predicate InUseReconciled(from: Pool, to: Pool, b: Books, which: set<Number>) {
    forall slot: Slot :: slot in to.inUse <==>
      if slot.1 in which && b.Lists(slot) then b.Verdict(slot.1) == Busy else slot in from.inUse
  }

  ghost predicate CooldownReconciled(from: Pool, to: Pool, b: Books, which: set<Number>) {
    forall slot: Slot ::
      && (slot in to.cooldown <==>
            if slot.1 in which && b.Lists(slot) then b.Verdict(slot.1).Cooling? else slot in from.cooldown)
      && (slot in to.cooldown ==>
            if slot.1 in which && b.Lists(slot) then b.Verdict(slot.1) == Cooling(to.cooldown[slot])
            else to.cooldown[slot] == from.cooldown[slot])
  }

  ghost predicate RegionsReconciled(from: Pool, to: Pool, b: Books, which: set<Number>) {
    forall n ::
      && (n in to.regionOf <==> (n in which && n in b.numbers) || n in from.regionOf)
      && (n in to.regionOf ==>
            to.regionOf[n] == if n in which && n in b.numbers then RowRegion(b.numbers[n]) else from.regionOf[n])
  }

  /** `to` is `from` reconciled with the rows of `which`: their own slots sit
      where the database wants them and every other slot is where it was. */
  ghost predicate Reconciled(from: Pool, to: Pool, b: Books, which: set<Number>) {
    && AvailableReconciled(from, to, b, which)
    && InUseReconciled(from, to, b, which)
    && CooldownReconciled(from, to, b, which)
    && RegionsReconciled(from, to, b, which)
  }

  /** What one row of the load does. */
  function Settle(pool: Pool, slot: Slot, spot: Spot): Pool {
    pool.(available := if spot == Free then pool.available + {slot} else pool.available - {slot},
          inUse := if spot == Busy then pool.inUse + {slot} else pool.inUse - {slot},
          cooldown := if spot.Cooling? then pool.cooldown[slot := spot.until] else pool.cooldown - {slot},
          regionOf := pool.regionOf[slot.1 := slot.0])
  }

  lemma SettleReconcilesOneMore(from: Pool, mid: Pool, b: Books, which: set<Number>, n: Number)
    requires n in b.numbers && Reconciled(from, mid, b, which)
    ensures Reconciled(from, Settle(mid, (RowRegion(b.numbers[n]), n), b.Verdict(n)), b, which + {n})
  {
    var to := Settle(mid, (RowRegion(b.numbers[n]), n), b.Verdict(n));
    assert AvailableReconciled(from, to, b, which + {n});
    assert InUseReconciled(from, to, b, which + {n});
    assert CooldownReconciled(from, to, b, which + {n});
    assert RegionsReconciled(from, to, b, which + {n});
  }

  lemma ReapNothing(s: State, r: Region, now: int)
    requires Due(s.pool.cooldown, r, now) == {}
    ensures Reap(s, r, now) == s
  {
    var reaped := Reap(s, r, now);
    assert reaped.pool.cooldown == s.pool.cooldown;
    assert reaped.pool.available == s.pool.available;
    assert reaped.numbers == s.numbers;
  }

  lemma ThawTwice(pool: Pool, first: set<Slot>, second: set<Slot>)
    ensures Thaw(Thaw(pool, first), second) == Thaw(pool, first + second)
  {
    assert pool.cooldown - (first + second) == pool.cooldown - first - second;
    assert pool.available + (first + second) == pool.available + first + second;
  }

  // ----------------------------------------------------------- the service

  class NumberPool {
    const store: Store

    constructor (store: Store)
      ensures this.store == store
    {
      this.store := store;
    }

    /** The inner loop of both phases of the allocation script. */
    method FindOverlap(n: Number, a: PhoneHash, b: PhoneHash) returns (overlap: bool)
      ensures overlap == Overlap(store.Snapshot(), n, a, b)
    {
      var rest := MembersOf(store.hosted, n);
      overlap := false;
      while rest != {}
        invariant rest <= MembersOf(store.hosted, n)
        invariant forall sid :: sid in MembersOf(store.hosted, n) - rest ==> !SessionTouches(store.hashes, sid, a, b)
        decreases rest
      {
        var sid :| sid in rest;
        if SessionTouches(store.hashes, sid, a, b) {
          assert (n, sid) in store.Snapshot().hosted;
          return true;
        }
        rest := rest - {sid};
      }
    }

    /** The writes of the script in its first phase. */
    method PlaceFromAvailable(slot: Slot, a: PhoneHash, b: PhoneHash, sid: Sid)
      modifies store
      ensures store.Snapshot() == Place(old(store.Snapshot()), slot.0, Choice(slot.1, true), a, b, sid)
    {
      var sessions := MembersOf(store.hosted, slot.1);
      if sessions == {} {
        assert Idle(store.hosted, slot.1);
        store.pool := store.pool.(available := store.pool.available - {slot});
        store.pool := store.pool.(inUse := store.pool.inUse + {slot});
      } else {
        var other :| other in sessions;
        assert (slot.1, other) in store.hosted;
      }
      store.hosted := store.hosted + {(slot.1, sid)};
      store.phones := store.phones + {(a, sid), (b, sid)};
    }

    method Allocate(region: Option<Region>, a: PhoneHash, b: PhoneHash, sid: Sid)
      returns (number: Option<Number>, ghost fromAvailable: bool)
      modifies store
      ensures number.None? ==>
                && store.Snapshot() == old(store.Snapshot())
                && MayRefuse(old(store.Snapshot()), region.GetOr(DEFAULT_REGION), a, b)
      ensures number.Some? ==>
                var choice := Choice(number.value, fromAvailable);
                && MayAllocate(old(store.Snapshot()), region.GetOr(DEFAULT_REGION), a, b, choice)
                && store.Snapshot() == Place(old(store.Snapshot()), region.GetOr(DEFAULT_REGION), choice, a, b, sid)
    {
      var r := region.GetOr(DEFAULT_REGION);
      var tried: set<Number> := {};
      var attempt := 0;
      while attempt < MAX_ATTEMPTS
        invariant store.Snapshot() == old(store.Snapshot())
        invariant forall n :: n in tried ==> (r, n) in store.pool.available && Overlap(store.Snapshot(), n, a, b)
        invariant attempt > 0 ==> tried != {}
        decreases MAX_ATTEMPTS - attempt
      {
        var pool := MembersOf(store.pool.available, r);
        if pool == {} {
          break;
        }
        var candidate :| candidate in pool;
        if candidate !in tried {
          tried := tried + {candidate};
          var overlap := FindOverlap(candidate, a, b);
          if !overlap {
            PlaceFromAvailable((r, candidate), a, b, sid);
            return Some(candidate), true;
          }
        }
        attempt := attempt + 1;
      }
      assert NoFreeNumberFits(store.Snapshot(), r, a, b);

      var inUse := MembersOf(store.pool.inUse, r);
      while inUse != {}
        invariant store.Snapshot() == old(store.Snapshot())
        invariant forall n :: n in inUse ==> (r, n) in store.pool.inUse
        invariant forall n :: (r, n) in store.pool.inUse && n !in inUse ==> Overlap(store.Snapshot(), n, a, b)
        invariant forall n :: n in tried ==> Overlap(store.Snapshot(), n, a, b)
        decreases inUse
      {
        var candidate :| candidate in inUse;
        inUse := inUse - {candidate};
        if candidate !in tried {
          tried := tried + {candidate};
          var overlap := FindOverlap(candidate, a, b);
          if !overlap {
            store.hosted := store.hosted + {(candidate, sid)};
            store.phones := store.phones + {(a, sid), (b, sid)};
            return Some(candidate), false;
          }
        }
      }
      return None, false;
    }

    method ReleaseNumber(number: Number, sid: Sid, region: Option<Region>, cooldownMinutes: int, now: int)
      returns (returned: bool)
      modifies store
      ensures var r := ReleaseRegion(old(store.pool), region, number);
              store.Snapshot() == Release(old(store.Snapshot()), r, number, sid, CooldownUntil(now, cooldownMinutes))
      ensures returned <==> Idle(store.hosted, number)
    {
      var r := ReleaseRegion(store.pool, region, number);
      var slot := (r, number);
      var until := CooldownUntil(now, cooldownMinutes);
      store.hosted := store.hosted - {(number, sid)};
      var remaining := MembersOf(store.hosted, number);
      if remaining != {} {
        var other :| other in remaining;
        assert (number, other) in store.hosted;
        return false;
      }
      assert Idle(store.hosted, number);
      store.pool := store.pool.(inUse := store.pool.inUse - {slot});
      store.pool := store.pool.(available := store.pool.available - {slot});
      if until > 0 {
        store.pool := store.pool.(cooldown := store.pool.cooldown[slot := until]);
      } else {
        store.pool := store.pool.(available := store.pool.available + {slot});
        assert store.pool.available == old(store.pool).available + {slot};
      }
      if number in store.numbers {
        store.numbers := store.numbers[number := Rested(store.numbers[number], until)];
      }
      returned := true;
    }

    /** The pipelined ZREM and SADD of every expired member. */
    method ThawAll(expired: set<Slot>)
      modifies store`pool
      ensures store.pool == Thaw(old(store.pool), expired)
    {
      var rest := expired;
      ghost var done := {};
      while rest != {}
        invariant done == expired - rest && rest <= expired
        invariant store.pool == Thaw(old(store.pool), done)
        decreases rest
      {
        var slot :| slot in rest;
        ThawTwice(old(store.pool), done, {slot});
        rest := rest - {slot};
        done := done + {slot};
        store.pool := store.pool.(cooldown := store.pool.cooldown - {slot});
        store.pool := store.pool.(available := store.pool.available + {slot});
      }
      assert done == expired;
    }

    method ReapCooldown(r: Region, now: int) returns (count: nat)
      modifies store
      ensures store.Snapshot() == Reap(old(store.Snapshot()), r, now)
      ensures count == |Due(old(store.pool).cooldown, r, now)|
    {
      var expired := Due(store.pool.cooldown, r, now);
      if expired == {} {
        ReapNothing(store.Snapshot(), r, now);
        return 0;
      }
      ThawAll(expired);
      store.numbers := MarkAvailable(store.numbers, r, expired);
      count := |expired|;
    }

    /** One row of the boot-time pipeline. */
    method LoadRow(n: Number, row: NumberRow, held: bool, now: int)
      modifies store`pool
      ensures store.pool == Settle(old(store.pool), (RowRegion(row), n), SpotOf(row, held, now))
    {
      var region := RowRegion(row);
      var slot := (region, n);
      store.pool := store.pool.(regionOf := store.pool.regionOf[n := region]);
      if held && row.status != QUARANTINED {
        store.pool := store.pool.(inUse := store.pool.inUse + {slot});
        store.pool := store.pool.(available := store.pool.available - {slot});
        store.pool := store.pool.(cooldown := store.pool.cooldown - {slot});
      } else if row.status == AVAILABLE {
        store.pool := store.pool.(available := store.pool.available + {slot});
        store.pool := store.pool.(inUse := store.pool.inUse - {slot});
        store.pool := store.pool.(cooldown := store.pool.cooldown - {slot});
      } else if row.status == IN_USE {
        store.pool := store.pool.(inUse := store.pool.inUse + {slot});
        store.pool := store.pool.(available := store.pool.available - {slot});
        store.pool := store.pool.(cooldown := store.pool.cooldown - {slot});
      } else if row.status == COOLDOWN {
        var until := if row.cooldownUntil.Some? then row.cooldownUntil.value else now;
        store.pool := store.pool.(cooldown := store.pool.cooldown[slot := until]);
        store.pool := store.pool.(available := store.pool.available - {slot});
        store.pool := store.pool.(inUse := store.pool.inUse - {slot});
      } else {
        store.pool := store.pool.(available := store.pool.available - {slot});
        store.pool := store.pool.(inUse := store.pool.inUse - {slot});
        store.pool := store.pool.(cooldown := store.pool.cooldown - {slot});
      }
    }

    method LoadPoolFromDb(now: int) returns (loaded: nat)
      modifies store`pool
      ensures Reconciled(old(store.pool), store.pool, BooksAt(old(store.Snapshot()), now), old(store.numbers).Keys)
      ensures loaded == |old(store.numbers)|
    {
      var heldProxies := HeldNumbers(store.sessions);
      ghost var books := BooksAt(store.Snapshot(), now);
      var rest := store.numbers.Keys;
      while rest != {}
        invariant rest <= store.numbers.Keys
        invariant Reconciled(old(store.pool), store.pool, books, store.numbers.Keys - rest)
        decreases rest
      {
        var n :| n in rest;
        SettleReconcilesOneMore(old(store.pool), store.pool, books, store.numbers.Keys - rest, n);
        assert store.numbers.Keys - (rest - {n}) == store.numbers.Keys - rest + {n};
        rest := rest - {n};
        LoadRow(n, store.numbers[n], n in heldProxies, now);
      }
      assert store.numbers.Keys - rest == store.numbers.Keys;
      loaded := |store.numbers|;
    }
  }
}
