/** src/utils/cache.ts and loadTenantConfig of src/services/session-manager.ts:
    tenant defaults served from a cache that may lag behind the database. */
module ConfigCacheModel {
  import opened Types
  import opened SessionManagerModel

  const TENANT_CONFIG_TTL_MS := 60_000

  datatype Entry<T> = Entry(value: T, expiresAt: int)

  /** In-process cache with an expiry per entry and eviction on reading. */
  class TTLCache<T> {
    var store: map<string, Entry<T>>

    constructor ()
      ensures store == map[]
    {
      store := map[];
    }

    /** A read at `now` would be served from the cache. */
    predicate Holds(key: string, now: int)
      reads this
    {
      key in store && now <= store[key].expiresAt
    }

    method Get(key: string, now: int) returns (value: Option<T>)
      modifies this
      ensures old(Holds(key, now)) ==> value == Some(old(store)[key].value) && store == old(store)
      ensures !old(Holds(key, now)) ==> value == None && store == old(store) - {key}
    {
      if key !in store {
        assert store - {key} == store;
        return None;
      }
      var entry := store[key];
      if entry.expiresAt < now {
        store := store - {key};
        return None;
      }
      return Some(entry.value);
    }

    method Set(key: string, value: T, ttlMs: int, now: int)
      modifies this
      ensures store == old(store)[key := Entry(value, now + ttlMs)]
    {
      store := store[key := Entry(value, now + ttlMs)];
    }

    method Delete(key: string)
      modifies this
      ensures store == old(store) - {key}
    {
      store := store - {key};
    }

    method Clear()
      modifies this
      ensures store == map[]
    {
      store := map[];
    }
  }

  /** What a query gives back: the row or its absence, or a database failure. */
  datatype Read = Row(row: Option<TenantConfig>) | DatabaseDown

  /** What the service does about one tenant, and when. */
  datatype Access = Lookup(now: int, read: Read) | Invalidate(now: int)

  /** The tenant's cached entry; its value None stands for a missing tenant. */
  type Memo = Option<Entry<Option<TenantConfig>>>

  predicate Serves(memo: Memo, now: int) {
    memo.Some? && now <= memo.value.expiresAt
  }

  function Remembered(memo: Memo, access: Access): Memo {
    match access
    case Invalidate(_) => None
    case Lookup(now, read) =>
      if Serves(memo, now) then memo
      else if read.DatabaseDown? then None
      else Some(Entry(read.row, now + TENANT_CONFIG_TTL_MS))
  }

  /** The answer to a lookup. */
  function Answer(memo: Memo, now: int, read: Read): Option<TenantConfig> {
    if Serves(memo, now) then memo.value.value else if read.Row? then read.row else None
  }

  /** The entry a whole history of accesses leaves. */
  function MemoAfter(h: seq<Access>): Memo {
    if h == [] then None else Remembered(MemoAfter(h[..|h| - 1]), h[|h| - 1])
  }

  /** The session manager's lookups; `history` is everything done about each tenant. */
  class TenantConfigs {
    const cache: TTLCache<Option<TenantConfig>>
    ghost var history: map<Tenant, seq<Access>>

    constructor ()
      ensures Valid() && fresh(cache) && history == map[]
    {
      cache := new TTLCache();
      history := map[];
    }

    function MemoOf(tenant: Tenant): Memo
      reads this, cache
    {
      if tenant in cache.store then Some(cache.store[tenant]) else None
    }

    ghost function HistoryOf(tenant: Tenant): seq<Access>
      reads this
    {
      if tenant in history then history[tenant] else []
    }

    ghost predicate Valid()
      reads this, cache
    {
      forall tenant :: MemoOf(tenant) == MemoAfter(HistoryOf(tenant))
    }

    ghost method Log(tenant: Tenant, access: Access)
      requires MemoOf(tenant) == Remembered(MemoAfter(HistoryOf(tenant)), access)
      requires forall other :: other != tenant ==> MemoOf(other) == MemoAfter(HistoryOf(other))
      modifies this`history
      ensures Valid() && history == old(history)[tenant := old(HistoryOf(tenant)) + [access]]
    {
      assert (HistoryOf(tenant) + [access])[..|HistoryOf(tenant)|] == HistoryOf(tenant);
      history := history[tenant := HistoryOf(tenant) + [access]];
      forall other ensures MemoOf(other) == MemoAfter(HistoryOf(other)) {
        assert other != tenant ==> HistoryOf(other) == old(HistoryOf(other)) && MemoOf(other) == old(MemoOf(other));
      }
    }

    method LoadTenantConfig(tenant: Tenant, now: int, read: Read) returns (config: Option<TenantConfig>)
      requires Valid()
      modifies this, cache
      ensures Valid() && history == old(history)[tenant := old(HistoryOf(tenant)) + [Lookup(now, read)]]
      ensures config == Answer(MemoAfter(old(HistoryOf(tenant))), now, read)
    {
      var cached := cache.Get(tenant, now);
      if cached.Some? {
        config := cached.value;
      } else if read.DatabaseDown? {
        config := None;
      } else {
        cache.Set(tenant, read.row, TENANT_CONFIG_TTL_MS, now);
        config := read.row;
      }
      Log(tenant, Lookup(now, read));
    }

    /** PATCH /config drops the entry. */
    method InvalidateTenantConfig(tenant: Tenant, ghost now: int)
      requires Valid()
      modifies this, cache
      ensures Valid() && history == old(history)[tenant := old(HistoryOf(tenant)) + [Invalidate(now)]]
    {
      cache.Delete(tenant);
      Log(tenant, Invalidate(now));
    }
  }

  /** The clock never goes back and successful reads return the current row. */
  ghost predicate Honest(h: seq<Access>, rowAt: int -> Option<TenantConfig>) {
    && (forall i, j :: 0 <= i < j < |h| ==> h[i].now <= h[j].now)
    && (forall i :: 0 <= i < |h| && h[i].Lookup? && h[i].read.Row? ==> h[i].read.row == rowAt(h[i].now))
  }

  /** When the entry was read. */
  function BornAt(memo: Memo): int
    requires memo.Some?
  {
    memo.value.expiresAt - TENANT_CONFIG_TTL_MS
  }

  lemma {:induction false} MemoIsAPastRow(h: seq<Access>, rowAt: int -> Option<TenantConfig>)
    requires Honest(h, rowAt)
    ensures var memo := MemoAfter(h);
            memo.Some? ==>
              && h != [] && BornAt(memo) <= h[|h| - 1].now
              && memo.value.value == rowAt(BornAt(memo))
              && forall i :: 0 <= i < |h| && h[i].Invalidate? ==> h[i].now <= BornAt(memo)
  {
    if h != [] {
      var g := h[..|h| - 1];
      assert Honest(g, rowAt);
      MemoIsAPastRow(g, rowAt);
      assert g != [] ==> g[|g| - 1].now <= h[|h| - 1].now;
    }
  }

  /** Since the last invalidation every read has failed. */
  predicate AwaitsARead(h: seq<Access>) {
    && h != []
    && (h[|h| - 1].Invalidate? || (h[|h| - 1].read.DatabaseDown? && AwaitsARead(h[..|h| - 1])))
  }

  lemma {:induction false} NothingToServe(h: seq<Access>)
    requires AwaitsARead(h)
    ensures MemoAfter(h) == None
  {
    if h[|h| - 1].Lookup? {
      NothingToServe(h[..|h| - 1]);
    }
  }

  /** Staleness is bounded: unless the database fails, what a lookup answers is
      the row as it was at some instant of the last minute, and at or after the
      last invalidation; and the first successful read after one is current,
      however many failed before it. */
  lemma AnswersAreAtMostAMinuteOld(h: seq<Access>, now: int, read: Read, rowAt: int -> Option<TenantConfig>)
    requires Honest(h + [Lookup(now, read)], rowAt)
    requires Serves(MemoAfter(h), now) || read.Row?
    ensures exists asOf ::
              && now - 60_000 <= asOf <= now
              && Answer(MemoAfter(h), now, read) == rowAt(asOf)
              && forall i :: 0 <= i < |h| && h[i].Invalidate? ==> h[i].now <= asOf
    ensures AwaitsARead(h) ==> Answer(MemoAfter(h), now, read) == rowAt(now)
  {
    var all := h + [Lookup(now, read)];
    assert all[|h|] == Lookup(now, read);
    assert forall i :: 0 <= i < |h| ==> all[i] == h[i];
    assert Honest(h, rowAt);
    MemoIsAPastRow(h, rowAt);
    if AwaitsARead(h) { NothingToServe(h); }
    var asOf := if Serves(MemoAfter(h), now) then BornAt(MemoAfter(h)) else now;
    assert Answer(MemoAfter(h), now, read) == rowAt(asOf);
  }

  /** A row that was read serves the lookups of the next minute, the last
      millisecond included, and none after; a missing tenant is served as such. */
  lemma ServedForAMinute(h: seq<Access>, now: int, row: Option<TenantConfig>, at: int, read: Read)
    requires MemoAfter(h).Some? ==> MemoAfter(h).value.expiresAt < now
    ensures var memo := MemoAfter(h + [Lookup(now, Row(row))]);
            && Answer(MemoAfter(h), now, Row(row)) == row
            && Answer(memo, at, read) ==
                 if at <= now + 60_000 then row else if read.Row? then read.row else None
  {
    assert (h + [Lookup(now, Row(row))])[..|h|] == h;
  }
}
