/** src/api/middleware/tier-rate-limit.ts and src/services/tier-enforcer.ts: the
    sliding-window request limit and the cap on concurrent sessions. */
module TierLimitsModel {
  import opened Types
  import opened StoreModel
  import opened NumberPoolModel
  import opened SessionManagerModel
  import opened LifecycleModel

  const WINDOW_MS := 60_000

  datatype Tier = STARTER | GROWTH | ENTERPRISE | UNKNOWN

  function RequestLimit(tier: Tier): nat {
    match tier
    case GROWTH => 500
    case ENTERPRISE => 2000
    case _ => 100
  }

  function SessionLimit(tier: Tier): nat {
    match tier
    case GROWTH => 1000
    case ENTERPRISE => 10_000
    case _ => 100
  }

  // -------------------------------------------------------- request limit

  /** A request: its random sorted-set member and the time it came in. */
  type Request = (string, int)

  /** Requests come in order, each with a member of its own. */
  predicate Orderly(log: seq<Request>) {
    && (forall i :: 0 <= i < |log| ==> 0 <= log[i].1)
    && (forall i, j :: 0 <= i < j < |log| ==> log[i].1 <= log[j].1 && log[i].0 != log[j].0)
  }

  /** The requests of the last minute, admitted or not. */
  function Recent(log: seq<Request>, now: int): set<Request> {
    set request | request in log && request.1 > now - WINDOW_MS
  }

  /** Was request `i` let through? */
  predicate Admitted(log: seq<Request>, i: nat, limit: nat)
    requires i < |log|
  {
    |Recent(log[..i + 1], log[i].1)| <= limit
  }

  /** The places in the log of the requests of the minute up to the last one. */
  function LastMinute(log: seq<Request>): set<nat> {
    set i: nat | i < |log| && log[i].1 > log[|log| - 1].1 - 60_000
  }

  lemma {:induction false} IndicesCount(log: seq<Request>, indices: set<nat>, requests: set<Request>)
    requires Orderly(log)
    requires forall i :: i in indices ==> i < |log| && log[i] in requests
    requires forall request :: request in requests ==> exists i :: i in indices && log[i] == request
    ensures |indices| == |requests|
    decreases indices
  {
    if indices == {} {
      assert requests == {};
    } else {
      var i :| i in indices;
      forall j | j in indices - {i} ensures log[j] in requests - {log[i]} {
        assert log[j].0 != log[i].0;
      }
      forall request | request in requests - {log[i]} ensures exists j :: j in indices - {i} && log[j] == request {
        var j :| j in indices && log[j] == request;
        assert j in indices - {i};
      }
      IndicesCount(log, indices - {i}, requests - {log[i]});
    }
  }

  /** A request is let through exactly when it and those of the minute before it,
      refused ones included, are at most as many as the tier allows in a minute:
      2000, 500, or 100 for the lowest tier and for any other. */
  lemma LetThroughExactly(log: seq<Request>, tier: Tier)
    requires Orderly(log) && log != []
    ensures Admitted(log, |log| - 1, RequestLimit(tier)) <==>
              |LastMinute(log)| <= if tier == ENTERPRISE then 2000 else if tier == GROWTH then 500 else 100
  {
    var now := log[|log| - 1].1;
    assert log[..|log|] == log;
    forall request | request in Recent(log, now) ensures exists i :: i in LastMinute(log) && log[i] == request {
      var i: nat :| i < |log| && log[i] == request;
      assert i in LastMinute(log);
    }
    IndicesCount(log, LastMinute(log), Recent(log, now));
  }

  /** ZREMRANGEBYSCORE key 0 (now - window). */
  function Trim(entries: map<string, int>, now: int): map<string, int> {
    map m | m in entries && !(0 <= entries[m] <= now - WINDOW_MS) :: entries[m]
  }

  /** The sorted set has exactly these members with these scores. */
  ghost predicate Holds(entries: map<string, int>, requests: set<Request>) {
    forall m, at :: (m, at) in requests <==> m in entries && entries[m] == at
  }

  /** A sorted set that still holds every earlier request of the last minute,
      and holds nothing but earlier requests. */
  ghost predicate Covers(log: seq<Request>, entries: map<string, int>, now: int) {
    && (forall m :: m in entries ==> (m, entries[m]) in log)
    && (forall m, at :: (m, at) in Recent(log, now) ==> m in entries && entries[m] == at)
  }

  lemma EarlierRequests(log: seq<Request>, now: int, member: string)
    requires Orderly(log + [(member, now)])
    ensures Orderly(log) && now >= 0
    ensures forall request :: request in log ==> 0 <= request.1 <= log[|log| - 1].1 <= now && request.0 != member
  {
    var longer := log + [(member, now)];
    assert longer[|log|] == (member, now);
    forall i | 0 <= i < |log| ensures log[i] == longer[i] && log[i].1 <= log[|log| - 1].1 {
      assert longer[|log| - 1] == log[|log| - 1];
    }
  }

  /** Key expiry never drops an entry that still counts. */
  lemma AliveEntries(log: seq<Request>, entries: map<string, int>, expiresAt: int, now: int, member: string)
    requires Orderly(log + [(member, now)])
    requires log == [] ==> entries == map[]
    requires log != [] ==> Holds(entries, Recent(log, log[|log| - 1].1)) && expiresAt >= log[|log| - 1].1 + WINDOW_MS
    ensures Covers(log, if now < expiresAt then entries else map[], now)
  {
    EarlierRequests(log, now, member);
    forall m, at | (m, at) in Recent(log, now) ensures now < expiresAt && m in entries && entries[m] == at {
      assert (m, at) in Recent(log, log[|log| - 1].1);
    }
  }

  lemma AdmittedByCount(log: seq<Request>, now: int, member: string, limit: nat)
    ensures var longer := log + [(member, now)];
            && longer[|log|] == (member, now)
            && (Admitted(longer, |log|, limit) <==> |Recent(longer, now)| <= limit)
  {
    var longer := log + [(member, now)];
    assert longer[..|log| + 1] == longer;
  }

  lemma EntriesAreRecent(log: seq<Request>, before: map<string, int>, entries: map<string, int>, now: int,
                         member: string)
    requires Orderly(log + [(member, now)]) && Covers(log, before, now)
    requires entries == Trim(before, now)[member := now]
    ensures Holds(entries, Recent(log + [(member, now)], now))
    ensures |entries| == |Recent(log + [(member, now)], now)|
  {
    var longer := log + [(member, now)];
    EarlierRequests(log, now, member);
    forall m, at ensures (m, at) in Recent(longer, now) <==> (m in entries && entries[m] == at) {
      assert (m, at) in longer <==> (m, at) in log || (m, at) == (member, now);
      assert (m, at) in Recent(log, now) ==> m in before && before[m] == at;
    }
    forall p: Request ensures p in entries.Items <==> p in Recent(longer, now) {
      assert p == (p.0, p.1);
    }
    assert entries.Items == Recent(longer, now);
    assert |entries.Items| == |entries|;
  }

  /** Adding before trimming leaves the same set as trimming before adding. */
  lemma AddThenTrim(entries: map<string, int>, now: int, member: string)
    requires 0 <= now
    ensures Trim(entries[member := now], now) == Trim(entries, now)[member := now]
  {
  }

  lemma AddedThenTrimmed(log: seq<Request>, before: map<string, int>, now: int, member: string)
    requires Orderly(log + [(member, now)]) && Covers(log, before, now)
    ensures var entries := Trim(before[member := now], now);
            && Holds(entries, Recent(log + [(member, now)], now))
            && |entries| == |Recent(log + [(member, now)], now)|
  {
    EarlierRequests(log, now, member);
    AddThenTrim(before, now, member);
    EntriesAreRecent(log, before, Trim(before, now)[member := now], now, member);
  }

  // ---------------------------------------------------------- the limiters

  class SlidingWindow {
    var entries: map<string, int> // the sorted set tenant:{t}:api_calls
    var expiresAt: int            // when Redis drops the whole key
    ghost var log: seq<Request>   // every request so far

    constructor ()
      ensures Valid() && log == []
    {
      entries, expiresAt, log := map[], 0, [];
    }

    /** The set holds the requests of the minute before the last one, and the
        key outlives every one of them. */
    ghost predicate Valid()
      reads this
    {
      && Orderly(log)
      && (log == [] ==> entries == map[])
      && (log != [] ==>
            && Holds(entries, Recent(log, log[|log| - 1].1))
            && expiresAt >= log[|log| - 1].1 + WINDOW_MS)
    }

    /** The set as the next command finds it. */
    function Alive(now: int): map<string, int>
      reads this
    {
      if now < expiresAt then entries else map[]
    }

    ghost predicate Accepts(now: int, member: string)
      reads this
    {
      Orderly(log + [(member, now)])
    }

    /** The middleware: trim, add, count, expire in 65 seconds. */
    method TierRateLimit(now: int, member: string, tier: Tier) returns (admitted: bool)
      requires Valid() && Accepts(now, member)
      modifies this
      ensures Valid() && log == old(log) + [(member, now)]
      ensures admitted <==>
                |LastMinute(log)| <= if tier == ENTERPRISE then 2000 else if tier == GROWTH then 500 else 100
    {
      ghost var before := Alive(now);
      AliveEntries(log, entries, expiresAt, now, member);
      var trimmed := Trim(Alive(now), now);
      entries := trimmed[member := now];
      var count := |entries|;
      expiresAt := now + WINDOW_MS + 5000;
      log := log + [(member, now)];
      EntriesAreRecent(old(log), before, entries, now, member);
      AdmittedByCount(old(log), now, member, RequestLimit(tier));
      LetThroughExactly(log, tier);
      admitted := count <= RequestLimit(tier);
    }

    /** The enforcer: add, trim, count, expire in 120 seconds. */
    method EnforceApiRateLimit(now: int, member: string, tier: Tier) returns (admitted: bool)
      requires Valid() && Accepts(now, member)
      modifies this
      ensures Valid() && log == old(log) + [(member, now)]
      ensures admitted <==>
                |LastMinute(log)| <= if tier == ENTERPRISE then 2000 else if tier == GROWTH then 500 else 100
    {
      ghost var before := Alive(now);
      AliveEntries(log, entries, expiresAt, now, member);
      AddedThenTrimmed(log, before, now, member);
      var added := Alive(now)[member := now];
      entries := Trim(added, now);
      var count := |entries|;
      expiresAt := now + 120_000;
      log := log + [(member, now)];
      AdmittedByCount(old(log), now, member, RequestLimit(tier));
      LetThroughExactly(log, tier);
      admitted := count <= RequestLimit(tier);
    }
  }

  // ------------------------------------------------------- the hard bound

  lemma {:induction false} IndicesInto(log: seq<Request>, indices: set<nat>, requests: set<Request>)
    requires Orderly(log)
    requires forall i :: i in indices ==> i < |log| && log[i] in requests
    ensures |indices| <= |requests|
    decreases indices
  {
    if indices != {} {
      var i :| i in indices;
      forall j | j in indices - {i} ensures log[j] in requests - {log[i]} {
        assert log[j].0 != log[i].0;
      }
      IndicesInto(log, indices - {i}, requests - {log[i]});
    }
  }

  lemma {:induction false} HasMaximum(indices: set<nat>) returns (top: nat)
    requires indices != {}
    ensures top in indices && forall i :: i in indices ==> i <= top
    decreases indices
  {
    var one :| one in indices;
    top := one;
    if indices != {one} {
      var rest := HasMaximum(indices - {one});
      top := if rest < one then one else rest;
      forall i | i in indices ensures i <= top {
        if i != one { assert i in indices - {one}; }
      }
    }
  }

  /** In no half-open minute [from, from + 60 s) does the limiter let more than
      `limit` requests of a tenant through, whatever their times. */
  lemma AtMostLimitPerMinute(log: seq<Request>, limit: nat, from: int, admitted: set<nat>)
    requires Orderly(log)
    requires forall i :: i in admitted ==> i < |log| && from <= log[i].1 < from + 60_000 && Admitted(log, i, limit)
    ensures |admitted| <= limit
  {
    if admitted != {} {
      var last := HasMaximum(admitted);
      var seen := log[..last + 1];
      forall i | i in admitted ensures log[i] in Recent(seen, log[last].1) {
        assert seen[i] == log[i];
      }
      IndicesInto(log, admitted, Recent(seen, log[last].1));
    }
  }

  // -------------------------------------------------------- session limit

  /** enforceSessionLimit, asked before a creation. */
  predicate MayOpen(s: State, tenant: Tenant, tier: Tier) {
    |MembersOf(s.active, tenant)| < SessionLimit(tier)
  }

  /** The documented number of sessions a tenant may have at a time. */
  function SessionCap(tier: Tier): nat {
    if tier == ENTERPRISE then 10_000 else if tier == GROWTH then 1000 else 100
  }

  lemma MayOpenExactly(s: State, tenant: Tenant, tier: Tier)
    ensures MayOpen(s, tenant, tier) <==> |MembersOf(s.active, tenant)| < SessionCap(tier)
  {
  }

  /** Every creation of the tenant was allowed by the limit when it happened. */
  ghost predicate LimitedRun(s: State, ops: seq<Op>, tenant: Tenant, tier: Tier)
    requires Runs(s, ops)
    decreases |ops|
  {
    ops == [] || (
      && (ops[0].OpCreate? && ops[0].args.tenant == tenant ==> MayOpen(s, tenant, tier))
      && LimitedRun(Apply(s, ops[0]), ops[1..], tenant, tier))
  }

  lemma CreateOpensOne(s: State, args: CreateArgs, sid: Sid, c: Choice, graceMin: int, maxMin: int, now: int,
                       failAt: Option<Stage>)
    ensures Create(s, args, sid, c, graceMin, maxMin, now, failAt).active <= s.active + {(args.tenant, sid)}
  {
  }

  lemma StepOpensAtMostOne(s: State, op: Op, tenant: Tenant)
    requires Enabled(s, op)
    ensures op.OpCreate? && op.args.tenant == tenant ==> Apply(s, op).active <= s.active + {(tenant, op.sid)}
    ensures !(op.OpCreate? && op.args.tenant == tenant) ==>
              MembersOf(Apply(s, op).active, tenant) <= MembersOf(s.active, tenant)
  {
    match op
    case OpCreate(args, sid, c, graceMin, maxMin, now, failAt) =>
      CreateOpensOne(s, args, sid, c, graceMin, maxMin, now, failAt);
    case OpCall(call, m, fallback) => assert Apply(s, op).active == s.active;
    case _ => assert Apply(s, op).active <= s.active;
  }

  lemma {:induction false} SubsetCount<T>(small: set<T>, large: set<T>)
    requires small <= large
    ensures |small| <= |large|
    decreases small
  {
    if small != {} {
      var x :| x in small;
      SubsetCount(small - {x}, large - {x});
    }
  }

  /** A tenant never hosts more sessions at once than its tier permits. */
  lemma {:induction false} SessionsStayWithinTheTier(s: State, ops: seq<Op>, tenant: Tenant, tier: Tier,
                                                     hosted: set<Sid>)
    requires Inv(s) && Runs(s, ops) && LimitedRun(s, ops, tenant, tier)
    requires |MembersOf(s.active, tenant)| <= SessionCap(tier)
    requires forall sid :: sid in hosted ==>
               && sid in After(s, ops).sessions && After(s, ops).sessions[sid].tenant == tenant
               && (After(s, ops).sessions[sid].proxy, sid) in After(s, ops).hosted
    ensures |hosted| <= SessionCap(tier)
    decreases |ops|
  {
    if ops == [] {
      forall sid | sid in hosted ensures sid in MembersOf(s.active, tenant) {
        assert SessionOk(LedgersOf(s), sid);
      }
      SubsetCount(hosted, MembersOf(s.active, tenant));
    } else {
      var op := ops[0];
      MayOpenExactly(s, tenant, tier);
      StepOpensAtMostOne(s, op, tenant);
      if op.OpCreate? && op.args.tenant == tenant {
        SubsetCount(MembersOf(Apply(s, op).active, tenant), MembersOf(s.active, tenant) + {op.sid});
      } else {
        SubsetCount(MembersOf(Apply(s, op).active, tenant), MembersOf(s.active, tenant));
      }
      StepKeeps(s, op);
      SessionsStayWithinTheTier(Apply(s, op), ops[1..], tenant, tier, hosted);
    }
  }
}
