/** src/api/routes/admin.ts: the two operator commands on the number pool. */
module AdminPoolModel {
  import opened Types
  import opened StoreModel

  datatype AdminReply = Done | NotFound | Conflict

  function Withdraw(pool: Pool, slot: Slot): Pool {
    pool.(available := pool.available - {slot}, inUse := pool.inUse - {slot})
  }

  /** Marks the row and takes the number out of two of the three pool sets. */
  function Quarantine(s: State, n: Number): State {
    if n !in s.numbers || s.numbers[n].status == QUARANTINED then s
    else
      var row := s.numbers[n];
      s.(numbers := s.numbers[n := row.(status := QUARANTINED)], pool := Withdraw(s.pool, (RowRegion(row), n)))
  }

  function Reinstate(s: State, n: Number): State {
    if n !in s.numbers || s.numbers[n].status != QUARANTINED then s
    else
      var row := s.numbers[n];
      s.(numbers := s.numbers[n := row.(status := AVAILABLE, cooldownUntil := None)],
         pool := s.pool.(available := s.pool.available + {(RowRegion(row), n)}))
  }

  /** A quarantine marks the one row and takes its slot out of the free and the
      used numbers; every other row, slot and cooldown stays. */
  lemma QuarantinesExactly(s: State, n: Number, m: Number, slot: Slot)
    ensures var t, hit := Quarantine(s, n), n in s.numbers && s.numbers[n].status != QUARANTINED;
            && t.pool.cooldown == s.pool.cooldown && t.pool.regionOf == s.pool.regionOf
            && t == s.(pool := t.pool, numbers := t.numbers)
            && (m in t.numbers <==> m in s.numbers)
            && (m in s.numbers ==>
                  if hit && m == n then
                    && t.numbers[m].status == QUARANTINED && t.numbers[m].region == s.numbers[m].region
                    && t.numbers[m].cooldownUntil == s.numbers[m].cooldownUntil
                  else t.numbers[m] == s.numbers[m])
            && var own := hit && slot == (RowRegion(s.numbers[n]), n);
               && (slot in t.pool.available <==> slot in s.pool.available && !own)
               && (slot in t.pool.inUse <==> slot in s.pool.inUse && !own)
  {
  }

  /** A reinstatement makes the one number available, in its row and in the pool. */
  lemma ReinstatesExactly(s: State, n: Number, m: Number, slot: Slot)
    ensures var t, hit := Reinstate(s, n), n in s.numbers && s.numbers[n].status == QUARANTINED;
            && t.pool.inUse == s.pool.inUse && t.pool.cooldown == s.pool.cooldown && t.pool.regionOf == s.pool.regionOf
            && t == s.(pool := t.pool, numbers := t.numbers)
            && (m in t.numbers <==> m in s.numbers)
            && (m in s.numbers ==>
                  if hit && m == n then
                    && t.numbers[m].status == AVAILABLE && t.numbers[m].region == s.numbers[m].region
                    && t.numbers[m].cooldownUntil == None
                  else t.numbers[m] == s.numbers[m])
            && (slot in t.pool.available <==>
                  slot in s.pool.available || (hit && slot == (RowRegion(s.numbers[n]), n)))
  {
  }

  class AdminPool {
    const store: Store

    constructor (store: Store)
      ensures this.store == store
    {
      this.store := store;
    }

    method QuarantineNumber(n: Number) returns (reply: AdminReply)
      modifies store
      ensures store.Snapshot() == Quarantine(old(store.Snapshot()), n)
      ensures reply == NotFound <==> n !in old(store.numbers)
      ensures reply == Conflict <==> n in old(store.numbers) && old(store.numbers)[n].status == QUARANTINED
      ensures reply == Done <==> store.numbers != old(store.numbers)
    {
      if n !in store.numbers { return NotFound; }
      var row := store.numbers[n];
      if row.status == QUARANTINED { return Conflict; }
      var slot := (RowRegion(row), n);
      store.numbers := store.numbers[n := row.(status := QUARANTINED)];
      store.pool := store.pool.(available := store.pool.available - {slot});
      store.pool := store.pool.(inUse := store.pool.inUse - {slot});
      assert store.numbers[n] != old(store.numbers)[n];
      return Done;
    }

    method ReleaseNumber(n: Number) returns (reply: AdminReply)
      modifies store
      ensures store.Snapshot() == Reinstate(old(store.Snapshot()), n)
      ensures reply == NotFound <==> n !in old(store.numbers)
      ensures reply == Conflict <==> n in old(store.numbers) && old(store.numbers)[n].status != QUARANTINED
      ensures reply == Done <==> store.numbers != old(store.numbers)
    {
      if n !in store.numbers { return NotFound; }
      var row := store.numbers[n];
      if row.status != QUARANTINED { return Conflict; }
      store.numbers := store.numbers[n := row.(status := AVAILABLE, cooldownUntil := None)];
      store.pool := store.pool.(available := store.pool.available + {(RowRegion(row), n)});
      assert store.numbers[n] != old(store.numbers)[n];
      return Done;
    }
  }
}
