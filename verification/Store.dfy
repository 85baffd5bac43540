/** Redis and Postgres as the services see them: one value for the whole state,
    and one object that holds it and that the services update in place. */
module StoreModel {
  import opened Types

  const DEFAULT_REGION: Region := "lagos"

  /** The keys `pool:{region}:{available,in_use,cooldown}` and `proxy:{n}:region`. */
  datatype Pool = Pool(
    available: set<Slot>,
    inUse: set<Slot>,
    cooldown: map<Slot, int>,
    regionOf: map<Number, Region>)

  /** What routing writes: the dedup keys, `call_records` and `sms_records`. */
  datatype Traffic = Traffic(dedup: map<EventId, Cached>, calls: seq<CallRecord>, messages: seq<SmsRecord>)

  /** A Redis set stored under a prefix is a relation: the pair (k, x) is a
      member exactly when x is in the set at k, and an empty set is no key. */
  datatype State = State(
    pool: Pool,
    hosted: set<(Number, Sid)>,      // proxy:{n}:sessions
    phones: set<(PhoneHash, Sid)>,   // phone:{h}:sessions
    active: set<(Tenant, Sid)>,      // tenant:{t}:active_sessions
    hashes: map<Sid, SessionHash>,   // session:{sid}
    numbers: map<Number, NumberRow>, // table proxy_numbers
    sessions: map<Sid, SessionRow>,  // table sessions
    traffic: Traffic)

  /** Redis right after it lost everything. */
  const EMPTY_POOL := Pool({}, {}, map[], map[])

  /** Empty Redis beside a provisioned database with no session yet. */
  function EmptyState(numbers: map<Number, NumberRow>): State {
    State(EMPTY_POOL, {}, {}, {}, map[], numbers, map[], Traffic(map[], [], []))
  }

  function RowRegion(row: NumberRow): Region {
    row.region.GetOr(DEFAULT_REGION)
  }

  /** The Redis set at one key of a relation: the sessions of a number, the
      numbers of a region's pool set, the active sessions of a tenant. */
  function MembersOf<K(==), V(!new)>(relation: set<(K, V)>, key: K): (members: set<V>)
    ensures forall v :: v in members <==> (key, v) in relation
  {
    var members := set pair | pair in relation && pair.0 == key :: pair.1;
    assert forall v :: (key, v) in relation ==> (key, v).1 in members;
    members
  }

  /** HSET reaches an existing hash or creates one. */
  function HashAt(hashes: map<Sid, SessionHash>, sid: Sid): SessionHash {
    if sid in hashes then hashes[sid] else EMPTY_HASH
  }

  /** The number hosts no session. */
  ghost predicate Idle(hosted: set<(Number, Sid)>, n: Number) {
    forall sid :: (n, sid) !in hosted
  }

  class Store {
    var pool: Pool
    var hosted: set<(Number, Sid)>
    var phones: set<(PhoneHash, Sid)>
    var active: set<(Tenant, Sid)>
    var hashes: map<Sid, SessionHash>
    var numbers: map<Number, NumberRow>
    var sessions: map<Sid, SessionRow>
    var traffic: Traffic

    constructor (numbers: map<Number, NumberRow>)
      ensures Snapshot() == EmptyState(numbers)
    {
      pool, hosted, phones, active, hashes := EMPTY_POOL, {}, {}, {}, map[];
      this.numbers, sessions, traffic := numbers, map[], Traffic(map[], [], []);
    }

    function Snapshot(): State
      reads this
    {
      State(pool, hosted, phones, active, hashes, numbers, sessions, traffic)
    }
  }
}
