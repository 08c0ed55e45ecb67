/** Origin selection with passive quarantine (src/services/load-balancer-service.ts). */
module LoadBalancer {
  import opened Options
  import opened Origins
  import Smooth = SmoothRoundRobin

  datatype Health = Healthy | Unhealthy | Unknown
  datatype Algorithm = Failover | RoundRobin | Weighted

  datatype Origin = Origin(
    id: OriginId, enabled: bool, draining: bool, health: Health,
    priority: int, isPrimary: int, createdAt: int, weight: int)

  /** load-balancing settings of a site; monitor is `health_check_failure_mode === "monitor"`. */
  datatype Site = Site(algorithm: Algorithm, affinity: bool, monitor: bool)

  const PASSIVE_FAILURE_QUARANTINE_MS := 15_000

  /** An origin that may be given to a new visitor, whatever its health. */
  predicate Offered(o: Origin, excluded: set<OriginId>) {
    o.enabled && o.id !in excluded && !o.draining
  }

  predicate Quarantined(quarantine: map<OriginId, int>, id: OriginId, now: int) {
    id in quarantine && quarantine[id] > now
  }

  predicate Expired(quarantine: map<OriginId, int>, id: OriginId, now: int) {
    id in quarantine && 0 < quarantine[id] <= now
  }

  predicate Eligible(o: Origin, excluded: set<OriginId>, quarantine: map<OriginId, int>, now: int,
                     allowQuarantined: bool) {
    Offered(o, excluded) && (allowQuarantined || !Quarantined(quarantine, o.id, now))
  }

  predicate DistinctIds(s: seq<Origin>) {
    forall i, j :: 0 <= i < j < |s| ==> s[i].id != s[j].id
  }

  function Where(s: seq<Origin>, p: Origin -> bool): (r: seq<Origin>)
    ensures forall o :: o in r <==> o in s && p(o)
    ensures DistinctIds(s) ==> DistinctIds(r)
  {
    if s == [] then []
    else
      var rest := Where(s[1..], p);
      assert forall i :: 0 <= i < |rest| ==> rest[i] in s[1..];
      if p(s[0]) then [s[0]] + rest else rest
  }

  // ---------------------------------------------------------------------------------------------
  // The pool

  /** `candidates`, in the order of the site's origins: the eligible origins, narrowed by health and, for failover,
      to the best priority. */
  function Pool(site: Site, origins: seq<Origin>, excluded: set<OriginId>, quarantine: map<OriginId, int>, now: int,
                allowQuarantined: bool): (pool: seq<Origin>)
    ensures DistinctIds(origins) ==> DistinctIds(pool)
  {
    var eligible := EligibleIn(origins, excluded, quarantine, now, allowQuarantined);
    var preferred := ByHealth(eligible, site.monitor);
    if site.algorithm.Failover? then ByPriority(preferred) else preferred
  }

  function EligibleIn(origins: seq<Origin>, excluded: set<OriginId>, quarantine: map<OriginId, int>, now: int,
                      allowQuarantined: bool): (eligible: seq<Origin>)
    ensures DistinctIds(origins) ==> DistinctIds(eligible)
    ensures forall o :: o in eligible <==> o in origins && Eligible(o, excluded, quarantine, now, allowQuarantined)
  {
    Where(origins, (o: Origin) => Eligible(o, excluded, quarantine, now, allowQuarantined))
  }

  function ByHealth(eligible: seq<Origin>, monitor: bool): (preferred: seq<Origin>)
    ensures DistinctIds(eligible) ==> DistinctIds(preferred)
  {
    var healthy := Where(eligible, (o: Origin) => o.health.Healthy?);
    var notUnhealthy := Where(eligible, (o: Origin) => !o.health.Unhealthy?);
    if |healthy| > 0 then healthy else if |notUnhealthy| > 0 then notUnhealthy else if monitor then eligible else []
  }

  function ByPriority(origins: seq<Origin>): (best: seq<Origin>)
    ensures DistinctIds(origins) ==> DistinctIds(best)
  {
    if |origins| < 2 then origins
    else
      var priority := LeastPriority(origins);
      Where(origins, (o: Origin) => o.priority == priority)
  }

  function LeastPriority(origins: seq<Origin>): (p: int)
    requires origins != []
    ensures (exists o <- origins :: o.priority == p) && forall o <- origins :: p <= o.priority
  {
    if |origins| == 1 then assert origins[0] in origins; origins[0].priority
    else
      var rest := LeastPriority(origins[1..]);
      assert origins[0] in origins && forall o <- origins :: o == origins[0] || o in origins[1..];
      if origins[0].priority < rest then origins[0].priority else rest
  }

  function HealthRank(h: Health): nat {
    match h case Healthy => 0 case Unknown => 1 case Unhealthy => 2
  }

  /** o is as healthy as any eligible origin, and for failover of least priority value among those as healthy. An
      unhealthy origin is only acceptable to a site that merely monitors. */
  ghost predicate Preferred(site: Site, eligible: set<Origin>, o: Origin) {
    && o in eligible && (o.health.Unhealthy? ==> site.monitor)
    && (forall p <- eligible :: HealthRank(o.health) <= HealthRank(p.health))
    && (site.algorithm.Failover? ==> forall p <- eligible :: p.health == o.health ==> o.priority <= p.priority)
  }

  ghost function EligibleSet(origins: seq<Origin>, excluded: set<OriginId>, quarantine: map<OriginId, int>, now: int,
                             allowQuarantined: bool): set<Origin>
  {
    set o <- origins | Eligible(o, excluded, quarantine, now, allowQuarantined)
  }

  /** The pool holds exactly the preferred origins. */
  lemma PoolIsPreferred(site: Site, origins: seq<Origin>, excluded: set<OriginId>, quarantine: map<OriginId, int>,
                        now: int, allowQuarantined: bool, o: Origin)
    ensures o in Pool(site, origins, excluded, quarantine, now, allowQuarantined) <==>
            Preferred(site, EligibleSet(origins, excluded, quarantine, now, allowQuarantined), o)
  {
    hide ByHealth, ByPriority;
    var eligible := EligibleIn(origins, excluded, quarantine, now, allowQuarantined);
    var preferred := ByHealth(eligible, site.monitor);
    forall p ensures p in preferred <==> HealthPreferred(site.monitor, eligible, p) {
      HealthiestOnly(eligible, site.monitor, p);
    }
    if site.algorithm.Failover? {
      BestPriorityOnly(preferred, o);
    }
  }

  ghost predicate HealthPreferred(monitor: bool, eligible: seq<Origin>, o: Origin) {
    && o in eligible && (o.health.Unhealthy? ==> monitor)
    && forall p <- eligible :: HealthRank(o.health) <= HealthRank(p.health)
  }

  lemma HealthiestOnly(eligible: seq<Origin>, monitor: bool, o: Origin)
    ensures o in ByHealth(eligible, monitor) <==> HealthPreferred(monitor, eligible, o)
  {
    var healthy := Where(eligible, (o: Origin) => o.health.Healthy?);
    var notUnhealthy := Where(eligible, (o: Origin) => !o.health.Unhealthy?);
    if |healthy| > 0 {
      assert healthy[0] in healthy;
    } else if |notUnhealthy| > 0 {
      assert notUnhealthy[0] in notUnhealthy;
      assert forall p <- eligible :: !p.health.Healthy? by {
        forall p <- eligible ensures !p.health.Healthy? { assert p !in healthy; }
      }
    } else {
      forall p <- eligible ensures p.health.Unhealthy? { assert p !in notUnhealthy; }
    }
  }

  /** `byPriority` keeps exactly the origins of least priority value. */
  lemma BestPriorityOnly(origins: seq<Origin>, o: Origin)
    ensures o in ByPriority(origins) <==> o in origins && forall p <- origins :: o.priority <= p.priority
  {
    if |origins| == 1 {
      assert origins == [origins[0]];
    }
  }

  // ---------------------------------------------------------------------------------------------
  // IP affinity

  /** What an origin counts for: its clamped weight, or 1. */
  function Share(o: Origin, weighted: bool): (share: nat)
    ensures share >= 1
  {
    if weighted && o.weight >= 1 then o.weight else 1
  }

  /** The shares of the pool's origins that come before the given id. */
  function SharesBelow(pool: seq<Origin>, weighted: bool, id: OriginId): nat {
    if pool == [] then 0
    else (if pool[0].id < id then Share(pool[0], weighted) else 0) + SharesBelow(pool[1..], weighted, id)
  }

  function Shares(pool: seq<Origin>, weighted: bool): nat {
    if pool == [] then 0 else Share(pool[0], weighted) + Shares(pool[1..], weighted)
  }

  /** Of the buckets, dealt out by id order, o has the one the hash falls into. Nothing here depends on the order in
      which the pool lists its origins. */
  predicate OwnsBucket(pool: seq<Origin>, weighted: bool, hash: nat, o: Origin) {
    && o in pool && Shares(pool, weighted) > 0
    && var below, bucket := SharesBelow(pool, weighted, o.id), hash % Shares(pool, weighted);
       below <= bucket < below + Share(o, weighted)
  }

  function InsertById(o: Origin, sorted: seq<Origin>): (r: seq<Origin>)
    ensures |r| == |sorted| + 1 && forall p :: p in r <==> p == o || p in sorted
  {
    if sorted == [] || o.id <= sorted[0].id then [o] + sorted
    else
      var rest := InsertById(o, sorted[1..]);
      assert forall p :: p in sorted <==> p == sorted[0] || p in sorted[1..];
      [sorted[0]] + rest
  }

  /** `[...origins].sort(...)` by id. */
  function SortById(pool: seq<Origin>): (r: seq<Origin>)
    ensures |r| == |pool| && forall p :: p in r <==> p in pool
  {
    if pool == [] then [] else InsertById(pool[0], SortById(pool[1..]))
  }

  predicate AscendingIds(s: seq<Origin>) {
    forall i, j :: 0 <= i < j < |s| ==> s[i].id < s[j].id
  }

  lemma AscendingAreDistinct(s: seq<Origin>)
    requires AscendingIds(s)
    ensures DistinctIds(s)
  {
  }

  lemma {:induction false} InsertKeepsShares(o: Origin, sorted: seq<Origin>, weighted: bool, id: OriginId)
    ensures SharesBelow(InsertById(o, sorted), weighted, id) == SharesBelow([o] + sorted, weighted, id)
    ensures Shares(InsertById(o, sorted), weighted) == Shares([o] + sorted, weighted)
  {
    assert ([o] + sorted)[1..] == sorted;
    if sorted != [] && o.id > sorted[0].id {
      var rest := InsertById(o, sorted[1..]);
      InsertKeepsShares(o, sorted[1..], weighted, id);
      assert ([o] + sorted[1..])[1..] == sorted[1..];
      assert ([sorted[0]] + rest)[1..] == rest;
    }
  }

  lemma {:induction false} InsertKeepsOrder(o: Origin, sorted: seq<Origin>)
    requires AscendingIds(sorted) && forall p <- sorted :: p.id != o.id
    ensures AscendingIds(InsertById(o, sorted))
  {
    if sorted != [] && o.id > sorted[0].id {
      var rest := InsertById(o, sorted[1..]);
      InsertKeepsOrder(o, sorted[1..]);
      forall j | 0 <= j < |rest| ensures sorted[0].id < rest[j].id {
        assert rest[j] in rest;
      }
    }
  }

  /** Sorting changes no share and, with distinct ids, leaves them ascending. */
  lemma {:induction false} SortedById(pool: seq<Origin>, weighted: bool, id: OriginId)
    ensures SharesBelow(SortById(pool), weighted, id) == SharesBelow(pool, weighted, id)
    ensures Shares(SortById(pool), weighted) == Shares(pool, weighted)
    ensures DistinctIds(pool) ==> AscendingIds(SortById(pool))
  {
    if pool != [] {
      var rest := SortById(pool[1..]);
      SortedById(pool[1..], weighted, id);
      InsertKeepsShares(pool[0], rest, weighted, id);
      assert ([pool[0]] + rest)[1..] == rest;
      if DistinctIds(pool) {
        forall p <- rest ensures p.id != pool[0].id {
          assert p in pool[1..];
        }
        InsertKeepsOrder(pool[0], rest);
      }
    }
  }

  /** In a list ascending by id, the shares below an origin are those listed before it. */
  lemma {:induction false} BelowIsBefore(sorted: seq<Origin>, weighted: bool, k: nat)
    requires AscendingIds(sorted) && k < |sorted|
    ensures SharesBelow(sorted, weighted, sorted[k].id) == Shares(sorted[..k], weighted)
  {
    if k == 0 {
      NoneBelow(sorted, weighted, sorted[0].id);
    } else {
      BelowIsBefore(sorted[1..], weighted, k - 1);
      assert sorted[..k][1..] == sorted[1..][..k - 1];
    }
  }

  lemma {:induction false} NoneBelow(s: seq<Origin>, weighted: bool, id: OriginId)
    requires forall p <- s :: p.id >= id
    ensures SharesBelow(s, weighted, id) == 0
  {
    if s != [] {
      assert forall p <- s[1..] :: p in s;
      NoneBelow(s[1..], weighted, id);
    }
  }

  /** At most one origin owns a bucket, so the choice does not depend on how the pool is ordered. */
  lemma OneOwner(pool: seq<Origin>, weighted: bool, hash: nat, o: Origin, p: Origin)
    requires DistinctIds(pool) && OwnsBucket(pool, weighted, hash, o) && OwnsBucket(pool, weighted, hash, p)
    ensures o == p
  {
    if o.id < p.id {
      BelowGrows(pool, weighted, o, p.id);
    } else if p.id < o.id {
      BelowGrows(pool, weighted, p, o.id);
    } else {
      var i :| 0 <= i < |pool| && pool[i] == o;
      var j :| 0 <= j < |pool| && pool[j] == p;
    }
  }

  lemma {:induction false} BelowGrows(pool: seq<Origin>, weighted: bool, o: Origin, id: OriginId)
    requires o in pool && o.id < id
    ensures SharesBelow(pool, weighted, o.id) + Share(o, weighted) <= SharesBelow(pool, weighted, id)
  {
    if pool[0] == o {
      BelowMonotone(pool[1..], weighted, o.id, id);
    } else {
      BelowGrows(pool[1..], weighted, o, id);
    }
  }

  lemma {:induction false} BelowMonotone(pool: seq<Origin>, weighted: bool, a: OriginId, b: OriginId)
    requires a <= b
    ensures SharesBelow(pool, weighted, a) <= SharesBelow(pool, weighted, b)
  {
    if pool != [] {
      BelowMonotone(pool[1..], weighted, a, b);
    }
  }

  lemma {:induction false} SharesAtLeast(pool: seq<Origin>, weighted: bool)
    ensures Shares(pool, weighted) >= |pool| && (!weighted ==> Shares(pool, weighted) == |pool|)
  {
    if pool != [] {
      SharesAtLeast(pool[1..], weighted);
    }
  }

  lemma {:induction false} SharesSnoc(pool: seq<Origin>, weighted: bool, k: nat)
    requires k < |pool|
    ensures Shares(pool[..k + 1], weighted) == Shares(pool[..k], weighted) + Share(pool[k], weighted)
  {
    if k == 0 {
      assert pool[..1][1..] == [] && pool[..0] == [];
    } else {
      SharesSnoc(pool[1..], weighted, k - 1);
      assert pool[..k + 1][1..] == pool[1..][..k] && pool[..k][1..] == pool[1..][..k - 1];
    }
  }

  /** The hashes of one round of buckets that fall to an origin. */
  function Owned(pool: seq<Origin>, weighted: bool, o: Origin): set<nat> {
    set h: nat | 0 <= h < Shares(pool, weighted) && OwnsBucket(pool, weighted, h, o)
  }

  /** Of as many consecutive hashes as there are buckets, each origin gets as many as its weight says, and at least
      one; without weights each gets one. */
  lemma OwnedIs(pool: seq<Origin>, weighted: bool, o: Origin)
    requires o in pool
    ensures |Owned(pool, weighted, o)| == if weighted && o.weight >= 1 then o.weight else 1
  {
    hide SharesBelow, Shares, Interval;
    var below, share := SharesBelow(pool, weighted, o.id), Share(o, weighted);
    BelowWithin(pool, weighted, o);
    IntervalIs(below, below + share);
    forall h: nat | h < Shares(pool, weighted)
      ensures OwnsBucket(pool, weighted, h, o) <==> below <= h < below + share
    {
      SmallModulo(h, Shares(pool, weighted));
    }
    assert Owned(pool, weighted, o) == Interval(below, below + share);
  }

  lemma SmallModulo(h: nat, n: nat)
    requires h < n
    ensures h % n == h
  {
  }

  function Interval(a: nat, b: nat): set<nat>
    requires a <= b
    decreases b - a
  {
    if a == b then {} else Interval(a, b - 1) + {b - 1}
  }

  lemma {:induction false} IntervalIs(a: nat, b: nat)
    requires a <= b
    ensures |Interval(a, b)| == b - a && forall h: nat :: h in Interval(a, b) <==> a <= h < b
    decreases b - a
  {
    if a < b {
      IntervalIs(a, b - 1);
    }
  }

  lemma {:induction false} BelowWithin(pool: seq<Origin>, weighted: bool, o: Origin)
    requires o in pool
    ensures SharesBelow(pool, weighted, o.id) + Share(o, weighted) <= Shares(pool, weighted)
  {
    if pool[0] == o {
      BelowAtMost(pool[1..], weighted, o.id);
    } else {
      BelowWithin(pool[1..], weighted, o);
    }
  }

  lemma {:induction false} BelowAtMost(pool: seq<Origin>, weighted: bool, id: OriginId)
    ensures SharesBelow(pool, weighted, id) <= Shares(pool, weighted)
  {
    if pool != [] {
      BelowAtMost(pool[1..], weighted, id);
    }
  }

  /** `ipAffinityOrigin`; hash is `stableHash(ip)`. */
  method IpAffinityOrigin(pool: seq<Origin>, hash: nat, weighted: bool) returns (chosen: Option<Origin>)
    requires DistinctIds(pool)
    ensures if pool == [] then chosen.None? else chosen.Some? && OwnsBucket(pool, weighted, hash, chosen.value)
  {
    hide SharesBelow, OwnsBucket, SortById, DistinctIds;
    if |pool| == 0 {
      return None;
    }
    var ordered := SortById(pool);
    SharesAtLeast(pool, weighted);
    SortedById(pool, weighted, 0);
    if !weighted {
      var k := hash % |ordered|;
      BucketOwner(pool, weighted, hash, k);
      return Some(ordered[k]);
    }
    var total := Shares(ordered, weighted);
    assert ordered[..|ordered|] == ordered;
    var bucket: int := hash % total;
    for k := 0 to |ordered|
      invariant bucket == hash % total - Shares(ordered[..k], weighted) && bucket >= 0
    {
      SharesSnoc(ordered, weighted, k);
      bucket := bucket - Share(ordered[k], weighted);
      if bucket < 0 {
        BucketOwner(pool, weighted, hash, k);
        return Some(ordered[k]);
      }
    }
    assert false;
  }

  lemma BucketOwner(pool: seq<Origin>, weighted: bool, hash: nat, k: nat)
    requires DistinctIds(pool) && k < |pool| && Shares(pool, weighted) > 0
    requires var ordered, bucket := SortById(pool), hash % Shares(pool, weighted);
      if weighted then Shares(ordered[..k], weighted) <= bucket < Shares(ordered[..k + 1], weighted) else k == bucket
    ensures OwnsBucket(pool, weighted, hash, SortById(pool)[k])
  {
    var ordered := SortById(pool);
    SortedById(pool, weighted, ordered[k].id);
    BelowIsBefore(ordered, weighted, k);
    SharesSnoc(ordered, weighted, k);
    SharesAtLeast(ordered[..k], weighted);
    assert ordered[k] in ordered;
  }

  // ---------------------------------------------------------------------------------------------
  // The balancer

  /** The failover order: lower priority value, then primary first, then older first. */
  predicate Before(a: Origin, b: Origin) {
    || a.priority < b.priority
    || (a.priority == b.priority && a.isPrimary > b.isPrimary)
    || (a.priority == b.priority && a.isPrimary == b.isPrimary && a.createdAt < b.createdAt)
  }

  function Clamped(pool: seq<Origin>): (w: seq<Smooth.Origin>)
    ensures |w| == |pool|
    ensures pool != [] && DistinctIds(pool) ==> Smooth.Usable(w)
  {
    seq(|pool|, i requires 0 <= i < |pool| => Smooth.Origin(pool[i].id, Share(pool[i], true)))
  }

  /** A session's assigned origin, still usable for that session: draining does not matter. */
  predicate AssignedUsable(site: Site, session: Option<Option<OriginId>>, origins: seq<Origin>, excluded: set<OriginId>,
                           quarantine: map<OriginId, int>, now: int, o: Origin)
  {
    && site.affinity && session.Some? && session.value == Some(o.id) && o in origins
    && o.enabled && o.id !in excluded && !o.health.Unhealthy? && !Quarantined(quarantine, o.id, now)
  }

  /** The pool a visitor without a usable assignment gets: quarantined origins only when there are no others. */
  function Choices(site: Site, origins: seq<Origin>, excluded: set<OriginId>, quarantine: map<OriginId, int>,
                   now: int): (pool: seq<Origin>)
    ensures DistinctIds(origins) ==> DistinctIds(pool)
  {
    var pool := Pool(site, origins, excluded, quarantine, now, false);
    if pool != [] then pool else Pool(site, origins, excluded, quarantine, now, true)
  }

  class Balancer {
    var origins: seq<Origin>
    var cursor: nat
    var quarantine: map<OriginId, int>

    const smooth: Smooth.Balancer

    constructor (origins: seq<Origin>)
      ensures this.origins == origins && cursor == 0 && quarantine == map[] && fresh(smooth)
      ensures forall id :: smooth.Current(id) == 0
    {
      this.origins, cursor, quarantine := origins, 0, map[];
      smooth := new Smooth.Balancer();
    }

    method ReportPassiveFailure(id: OriginId, now: int) returns (newlyQuarantined: bool)
      requires now >= 0
      modifies this`quarantine
      ensures newlyQuarantined <==> !old(Quarantined(quarantine, id, now))
      ensures quarantine == old(quarantine)[id := now + 15_000]
    {
      newlyQuarantined := (if id in quarantine then quarantine[id] else 0) <= now;
      quarantine := quarantine[id := now + PASSIVE_FAILURE_QUARANTINE_MS];
    }

    method ClearPassiveFailure(id: OriginId) returns (cleared: bool)
      modifies this`quarantine
      ensures cleared <==> id in old(quarantine)
      ensures quarantine == old(quarantine) - {id}
    {
      cleared := id in quarantine;
      quarantine := quarantine - {id};
    }

    /** `originAvailable`: also forgets a quarantine that has run out, once the checks before it have passed. */
    method OriginAvailable(o: Origin, existingAffinity: bool, excluded: set<OriginId>, allowUnhealthy: bool,
                           allowQuarantined: bool, now: int) returns (available: bool)
      modifies this`quarantine
      ensures available <==>
              && o.enabled && o.id !in excluded && (existingAffinity || !o.draining)
              && (allowUnhealthy || !o.health.Unhealthy?)
              && (allowQuarantined || !old(Quarantined(quarantine, o.id, now)))
      ensures quarantine ==
              if available && old(o.id in quarantine && 0 < quarantine[o.id] <= now) then old(quarantine) - {o.id}
              else old(quarantine)
    {
      if !o.enabled || o.id in excluded {
        return false;
      }
      if !existingAffinity && o.draining {
        return false;
      }
      if !allowUnhealthy && o.health.Unhealthy? {
        return false;
      }
      if Quarantined(quarantine, o.id, now) {
        return allowQuarantined;
      } else if Expired(quarantine, o.id, now) {
        quarantine := quarantine - {o.id};
      }
      return true;
    }

    /** `candidates`: the pool, and every offered origin's quarantine is forgotten once it has run out. */
    method Candidates(site: Site, excluded: set<OriginId>, now: int, allowQuarantined: bool) returns (pool: seq<Origin>)
      requires DistinctIds(origins)
      modifies this`quarantine
      ensures pool == Pool(site, origins, excluded, old(quarantine), now, allowQuarantined)
      ensures quarantine == old(quarantine) - Forgotten(origins, excluded, old(quarantine), now)
    {
      var available := AvailableOrigins(excluded, now, allowQuarantined);
      pool := ByHealth(available, site.monitor);
      if site.algorithm.Failover? {
        pool := ByPriority(pool);
      }
    }

    method AvailableOrigins(excluded: set<OriginId>, now: int, allowQuarantined: bool) returns (available: seq<Origin>)
      requires DistinctIds(origins)
      modifies this`quarantine
      ensures available == EligibleIn(origins, excluded, old(quarantine), now, allowQuarantined)
      ensures quarantine == old(quarantine) - Forgotten(origins, excluded, old(quarantine), now)
    {
      hide EligibleIn, Forgotten, DistinctIds;
      ghost var q := quarantine;
      available := [];
      NothingDone(origins, excluded, q, now, allowQuarantined);
      for i := 0 to |origins|
        invariant available == EligibleIn(origins[..i], excluded, q, now, allowQuarantined)
        invariant quarantine == q - Forgotten(origins[..i], excluded, q, now)
      {
        var o := origins[i];
        OneMore(origins, i, excluded, q, now, allowQuarantined);
        var ok := OriginAvailable(o, false, excluded, true, allowQuarantined, now);
        if ok {
          available := available + [o];
        }
      }
      assert origins[..|origins|] == origins;
    }

    /** `selectOrigin`. session is the visitor's session, if any, with the origin it is assigned to, if any; hash is
        `stableHash(ip)`; assignment is what the session is newly assigned to, if anything. */
    method SelectOrigin(site: Site, session: Option<Option<OriginId>>, hash: nat, excluded: set<OriginId>, now: int)
        returns (selected: Option<Origin>, assignment: Option<OriginId>)
      requires DistinctIds(origins)
      modifies this`cursor, this`quarantine, smooth
      ensures forall o :: AssignedUsable(site, session, origins, excluded, old(quarantine), now, o) ==>
                selected == Some(o) && assignment.None? && cursor == old(cursor)
      ensures (forall o :: !AssignedUsable(site, session, origins, excluded, old(quarantine), now, o)) ==>
                var pool := Choices(site, origins, excluded, old(quarantine), now);
                if pool == [] then selected.None?
                else selected.Some? && Chosen(site, session, hash, pool, old(cursor),
                                              old(smooth.Vector(Clamped(pool))), selected.value)
      ensures assignment ==
              if site.affinity && session.Some? && selected.Some? && session.value != Some(selected.value.id)
              then Some(selected.value.id) else None
      ensures forall id :: Quarantined(quarantine, id, now) <==> old(Quarantined(quarantine, id, now))
      ensures selected.Some? ==> selected.value in origins && selected.value.enabled && selected.value.id !in excluded
      ensures selected.Some? && selected.value.draining ==> site.affinity && session == Some(Some(selected.value.id))
      ensures selected.Some? && selected.value.health == Unhealthy ==> site.monitor
      ensures selected.None? ==> forall o <- origins :: !Usable(site, o, excluded)
    {
      hide Pool, Chosen, ByAlgorithm, OwnsBucket, Clamped, Choices;
      ChoiceLaws(site, origins, excluded, quarantine, now);
      assignment := None;
      selected := AssignedOrigin(site, session, excluded, now);
      if selected.Some? {
        return;
      }
      var pool := CurrentChoices(site, excluded, now);
      if site.affinity && session.None? {
        selected := IpAffinityOrigin(pool, hash, site.algorithm.Weighted?);
      } else {
        selected := NextByAlgorithm(site, pool);
      }
      if selected.Some? {
        ChosenIs(site, session, hash, pool, old(cursor), old(smooth.Vector(Clamped(pool))), selected.value);
        ChosenFromPool(site, session, hash, pool, old(cursor), old(smooth.Vector(Clamped(pool))), selected.value);
      }
      if site.affinity && session.Some? && selected.Some? && session.value != Some(selected.value.id) {
        assignment := Some(selected.value.id);
      }
    }

    /** The assigned origin of the visitor's session, if it can be kept. */
    method AssignedOrigin(site: Site, session: Option<Option<OriginId>>, excluded: set<OriginId>, now: int)
        returns (kept: Option<Origin>)
      requires DistinctIds(origins)
      modifies this`quarantine
      ensures kept.Some? ==> AssignedUsable(site, session, origins, excluded, old(quarantine), now, kept.value)
      ensures forall o :: AssignedUsable(site, session, origins, excluded, old(quarantine), now, o) ==> kept == Some(o)
      ensures kept.None? ==> quarantine == old(quarantine)
      ensures forall id :: Quarantined(quarantine, id, now) <==> old(Quarantined(quarantine, id, now))
    {
      hide DistinctIds;
      kept := None;
      if site.affinity && session.Some? && session.value.Some? {
        var found := Find(origins, session.value.value);
        if found.Some? {
          var ok := OriginAvailable(found.value, true, excluded, false, false, now);
          if ok {
            kept := found;
          }
        }
      }
    }

    method CurrentChoices(site: Site, excluded: set<OriginId>, now: int) returns (pool: seq<Origin>)
      requires DistinctIds(origins)
      modifies this`quarantine
      ensures pool == Choices(site, origins, excluded, old(quarantine), now)
      ensures forall id :: Quarantined(quarantine, id, now) <==> old(Quarantined(quarantine, id, now))
    {
      hide Pool;
      pool := Candidates(site, excluded, now, false);
      if pool == [] {
        PoolIgnoresQuarantine(site, origins, excluded, quarantine, old(quarantine), now);
        pool := Candidates(site, excluded, now, true);
      }
    }

    method NextByAlgorithm(site: Site, pool: seq<Origin>) returns (selected: Option<Origin>)
      requires DistinctIds(pool)
      modifies this`cursor, smooth
      ensures if pool == [] then selected.None?
              else selected.Some? && ByAlgorithm(site, pool, old(cursor), old(smooth.Vector(Clamped(pool))),
                                                 selected.value)
      ensures cursor == if pool != [] && site.algorithm.RoundRobin? then old(cursor) + 1 else old(cursor)
      ensures site.algorithm.Weighted? && pool != [] ==>
                WeightedPick(pool, old(smooth.Vector(Clamped(pool))), smooth.Vector(Clamped(pool)), selected.value)
    {
      hide WeightedPick, Clamped, FirstInOrder, Smooth.Paid;
      if |pool| == 0 {
        return None;
      }
      match site.algorithm {
        case Failover =>
          var k := FirstOfOrder(pool);
          selected := Some(pool[k]);
        case RoundRobin =>
          selected := Some(pool[cursor % |pool|]);
          cursor := cursor + 1;
        case Weighted =>
          var k := smooth.Next(Clamped(pool));
          selected := Some(pool[k]);
          PickIs(pool, old(smooth.Vector(Clamped(pool))), smooth.Vector(Clamped(pool)), k);
      }
    }

    /** `sort(...)[0]` by the failover order. */
    method FirstOfOrder(pool: seq<Origin>) returns (k: nat)
      requires pool != []
      ensures k < |pool| && FirstInOrder(pool, k)
    {
      k := 0;
      for i := 1 to |pool|
        invariant k < i && forall j :: 0 <= j < i ==> !Before(pool[j], pool[k])
        invariant forall j :: 0 <= j < k ==> Before(pool[k], pool[j])
      {
        if Before(pool[i], pool[k]) {
          k := i;
        }
      }
    }

    /** Selecting by weight from cleared smooth weights, as often as the weights add up to: every origin of the pool
        is selected as often as its weight says, and at least once. */
    method WeightedTurn(site: Site, pool: seq<Origin>) returns (picks: seq<Origin>)
      requires site.algorithm.Weighted? && pool != [] && DistinctIds(pool)
      requires forall i :: 0 <= i < |pool| ==> smooth.Vector(Clamped(pool))[i] == 0
      modifies this`cursor, smooth
      ensures forall o <- pool :: multiset(picks)[o] == if o.weight >= 1 then o.weight else 1
      ensures forall o <- picks :: o in pool
      ensures forall i :: 0 <= i < |pool| ==> smooth.Vector(Clamped(pool))[i] == 0
    {
      hide Clamped, ByAlgorithm, Smooth.Sum, Smooth.Count, Smooth.StateAfter, Smooth.SmoothRun, DistinctIds;
      var w := Smooth.Weights(Clamped(pool));
      Smooth.SumPositive(w);
      picks := [];
      ghost var ks: seq<nat> := [];
      Smooth.EmptyRun(w, smooth.Vector(Clamped(pool)));
      for n := 0 to Smooth.Sum(w)
        invariant |picks| == |ks| == n && Smooth.SmoothRun(w, ks) && PicksOf(pool, ks, picks)
        invariant Smooth.StateAfter(w, ks) == smooth.Vector(Clamped(pool))
      {
        var selected := NextByAlgorithm(site, pool);
        ghost var k := PickedIndex(pool, Smooth.StateAfter(w, ks), smooth.Vector(Clamped(pool)), selected.value);
        Smooth.ExtendRun(w, ks, k);
        picks, ks := picks + [selected.value], ks + [k];
      }
      Smooth.SharesAreExact(w, ks);
      forall i: nat | i < |pool| ensures multiset(picks)[pool[i]] == if pool[i].weight >= 1 then pool[i].weight else 1 {
        PickCount(pool, ks, picks, i);
        ClampedWeight(pool, i);
      }
    }
  }

  /** The weighted choice and what it leaves of the smooth weights. */
  ghost predicate WeightedPick(pool: seq<Origin>, before: seq<int>, after: seq<int>, o: Origin)
    requires |before| == |pool|
  {
    exists k: nat :: IsPick(pool, before, after, o, k)
  }

  ghost predicate IsPick(pool: seq<Origin>, before: seq<int>, after: seq<int>, o: Origin, k: nat)
    requires |before| == |pool|
  {
    var w := Smooth.Weights(Clamped(pool));
    k < |pool| && pool[k] == o && Smooth.FirstMaximum(Smooth.Added(before, w), k) && after == Smooth.Paid(w, before, k)
  }

  lemma PickIs(pool: seq<Origin>, before: seq<int>, after: seq<int>, k: nat)
    requires |before| == |pool| && k < |pool| && IsPick(pool, before, after, pool[k], k)
    ensures WeightedPick(pool, before, after, pool[k])
  {
  }

  lemma PickedIndex(pool: seq<Origin>, before: seq<int>, after: seq<int>, o: Origin) returns (k: nat)
    requires |before| == |pool| && WeightedPick(pool, before, after, o)
    ensures IsPick(pool, before, after, o, k)
  {
    k :| IsPick(pool, before, after, o, k);
  }

  ghost predicate PicksOf(pool: seq<Origin>, ks: seq<nat>, picks: seq<Origin>) {
    |picks| == |ks| && forall n :: 0 <= n < |ks| ==> ks[n] < |pool| && picks[n] == pool[ks[n]]
  }

  lemma {:induction false} PickCount(pool: seq<Origin>, ks: seq<nat>, picks: seq<Origin>, i: nat)
    requires DistinctIds(pool) && PicksOf(pool, ks, picks) && i < |pool|
    ensures multiset(picks)[pool[i]] == Smooth.Count(ks, i)
  {
    if ks != [] {
      var n := |ks| - 1;
      PickCount(pool, ks[..n], picks[..n], i);
      assert picks == picks[..n] + [picks[n]];
    }
  }

  lemma ClampedWeight(pool: seq<Origin>, i: nat)
    requires i < |pool|
    ensures Smooth.Weights(Clamped(pool))[i] == if pool[i].weight >= 1 then pool[i].weight else 1
  {
  }

  /** What each algorithm picks from a pool: the first origin of the failover order, the cursor's, or the first with
      the largest raised smooth weight. */
  ghost predicate ByAlgorithm(site: Site, pool: seq<Origin>, cursor: nat, weights: seq<int>, o: Origin)
    requires pool != [] && |weights| == |pool|
  {
    match site.algorithm
    case Failover => exists k: nat :: k < |pool| && pool[k] == o && FirstInOrder(pool, k)
    case RoundRobin => o == pool[cursor % |pool|]
    case Weighted =>
      exists k: nat :: k < |pool| && pool[k] == o
                       && Smooth.FirstMaximum(Smooth.Added(weights, Smooth.Weights(Clamped(pool))), k)
  }

  ghost predicate FirstInOrder(pool: seq<Origin>, k: nat)
    requires k < |pool|
  {
    (forall j :: 0 <= j < |pool| ==> !Before(pool[j], pool[k])) && forall j :: 0 <= j < k ==> Before(pool[k], pool[j])
  }

  /** The first origin of the failover order has the lowest priority value; among those it is a primary one if there
      is one, and among those the oldest; and of several alike it is the first listed. */
  lemma FailoverOrder(pool: seq<Origin>, k: nat)
    requires k < |pool| && FirstInOrder(pool, k)
    ensures forall p <- pool :: pool[k].priority <= p.priority
    ensures forall p <- pool :: p.priority == pool[k].priority ==> pool[k].isPrimary >= p.isPrimary
    ensures forall p <- pool :: p.priority == pool[k].priority && p.isPrimary == pool[k].isPrimary ==>
                                  pool[k].createdAt <= p.createdAt
    ensures forall j :: 0 <= j < k ==> pool[j].priority != pool[k].priority || pool[j].isPrimary != pool[k].isPrimary
                                       || pool[j].createdAt != pool[k].createdAt
  {
    forall p <- pool ensures !Before(p, pool[k]) {
      var j :| 0 <= j < |pool| && pool[j] == p;
    }
  }

  ghost predicate Chosen(site: Site, session: Option<Option<OriginId>>, hash: nat, pool: seq<Origin>, cursor: nat,
                         weights: seq<int>, o: Origin)
    requires pool != [] && |weights| == |pool|
  {
    if site.affinity && session.None? then OwnsBucket(pool, site.algorithm.Weighted?, hash, o)
    else ByAlgorithm(site, pool, cursor, weights, o)
  }

  lemma ChosenIs(site: Site, session: Option<Option<OriginId>>, hash: nat, pool: seq<Origin>, cursor: nat,
                 weights: seq<int>, o: Origin)
    requires pool != [] && |weights| == |pool|
    requires if site.affinity && session.None? then OwnsBucket(pool, site.algorithm.Weighted?, hash, o)
             else ByAlgorithm(site, pool, cursor, weights, o)
    ensures Chosen(site, session, hash, pool, cursor, weights, o)
  {
  }

  /** There is never more than one right choice. */
  lemma OneChoice(site: Site, session: Option<Option<OriginId>>, hash: nat, pool: seq<Origin>, cursor: nat,
                  weights: seq<int>, o: Origin, p: Origin)
    requires pool != [] && |weights| == |pool| && DistinctIds(pool)
    requires Chosen(site, session, hash, pool, cursor, weights, o)
    requires Chosen(site, session, hash, pool, cursor, weights, p)
    ensures o == p
  {
    if site.affinity && session.None? {
      OneOwner(pool, site.algorithm.Weighted?, hash, o, p);
    } else if site.algorithm.Failover? {
      var i: nat :| i < |pool| && pool[i] == o && FirstInOrder(pool, i);
      var j: nat :| j < |pool| && pool[j] == p && FirstInOrder(pool, j);
      assert i == j;
    } else if site.algorithm.Weighted? {
      var raised := Smooth.Added(weights, Smooth.Weights(Clamped(pool)));
      var i: nat :| i < |pool| && pool[i] == o && Smooth.FirstMaximum(raised, i);
      var j: nat :| j < |pool| && pool[j] == p && Smooth.FirstMaximum(raised, j);
      assert i == j;
    }
  }

  lemma ChosenFromPool(site: Site, session: Option<Option<OriginId>>, hash: nat, pool: seq<Origin>, cursor: nat,
                       weights: seq<int>, o: Origin)
    requires pool != [] && |weights| == |pool| && Chosen(site, session, hash, pool, cursor, weights, o)
    ensures o in pool
  {
  }

  function Find(origins: seq<Origin>, id: OriginId): (found: Option<Origin>)
    ensures found.Some? ==> found.value in origins && found.value.id == id
    ensures found.None? ==> forall o <- origins :: o.id != id
    ensures found.Some? && DistinctIds(origins) ==> forall o <- origins :: o.id == id ==> o == found.value
  {
    if origins == [] then None
    else if origins[0].id == id then Some(origins[0])
    else Find(origins[1..], id)
  }

  /** The quarantines that looking at the origins for a new visitor forgets. */
  function Forgotten(origins: seq<Origin>, excluded: set<OriginId>, quarantine: map<OriginId, int>,
                     now: int): set<OriginId> {
    set o <- origins | Offered(o, excluded) && Expired(quarantine, o.id, now) :: o.id
  }

  lemma NothingDone(origins: seq<Origin>, excluded: set<OriginId>, q: map<OriginId, int>, now: int,
                    allowQuarantined: bool)
    ensures EligibleIn(origins[..0], excluded, q, now, allowQuarantined) == []
    ensures q - Forgotten(origins[..0], excluded, q, now) == q
  {
  }

  lemma OneMore(origins: seq<Origin>, i: nat, excluded: set<OriginId>, q: map<OriginId, int>, now: int,
                allowQuarantined: bool)
    requires DistinctIds(origins) && i < |origins|
    ensures origins[i].id !in Forgotten(origins[..i], excluded, q, now)
    ensures Forgotten(origins[..i + 1], excluded, q, now) == Forgotten(origins[..i], excluded, q, now)
              + if Offered(origins[i], excluded) && Expired(q, origins[i].id, now) then {origins[i].id} else {}
    ensures EligibleIn(origins[..i + 1], excluded, q, now, allowQuarantined)
         == EligibleIn(origins[..i], excluded, q, now, allowQuarantined)
              + if Eligible(origins[i], excluded, q, now, allowQuarantined) then [origins[i]] else []
  {
    var before, o := origins[..i], origins[i];
    assert origins[..i + 1] == before + [o];
    forall j | 0 <= j < i ensures before[j].id != o.id {
      assert before[j] == origins[j];
    }
    WhereSnoc(before, o, (o: Origin) => Eligible(o, excluded, q, now, allowQuarantined));
  }

  lemma {:induction false} WhereSnoc(s: seq<Origin>, o: Origin, p: Origin -> bool)
    ensures Where(s + [o], p) == if p(o) then Where(s, p) + [o] else Where(s, p)
  {
    if s == [] {
      assert s + [o] == [o];
    } else {
      WhereSnoc(s[1..], o, p);
      WhereSnocCons(s, o, p);
    }
  }

  lemma WhereSnocCons(s: seq<Origin>, o: Origin, p: Origin -> bool)
    requires s != []
    requires Where(s[1..] + [o], p) == if p(o) then Where(s[1..], p) + [o] else Where(s[1..], p)
    ensures Where(s + [o], p) == if p(o) then Where(s, p) + [o] else Where(s, p)
  {
    hide Where;
    WhereCons(s, p);
    WhereCons(s + [o], p);
    assert (s + [o])[1..] == s[1..] + [o];
  }

  lemma WhereCons(s: seq<Origin>, p: Origin -> bool)
    requires s != []
    ensures Where(s, p) == (if p(s[0]) then [s[0]] else []) + Where(s[1..], p)
  {
  }

  lemma {:induction false} WhereCongruent(s: seq<Origin>, p: Origin -> bool, q: Origin -> bool)
    requires forall o :: p(o) == q(o)
    ensures Where(s, p) == Where(s, q)
  {
    if s != [] {
      WhereCongruent(s[1..], p, q);
    }
  }

  lemma PoolIgnoresQuarantine(site: Site, origins: seq<Origin>, excluded: set<OriginId>, q: map<OriginId, int>,
                              r: map<OriginId, int>, now: int)
    ensures Pool(site, origins, excluded, q, now, true) == Pool(site, origins, excluded, r, now, true)
  {
    WhereCongruent(origins, (o: Origin) => Eligible(o, excluded, q, now, true),
                   (o: Origin) => Eligible(o, excluded, r, now, true));
    assert EligibleIn(origins, excluded, q, now, true) == EligibleIn(origins, excluded, r, now, true);
  }

  // ---------------------------------------------------------------------------------------------
  // What a caller may rely on

  /** An origin that a new visitor may be given: on, not draining, not excluded, and of acceptable health. */
  predicate Usable(site: Site, o: Origin, excluded: set<OriginId>) {
    o.enabled && !o.draining && o.id !in excluded && (site.monitor || o.health != Unhealthy)
  }

  /** Choices are usable origins; there are none only if nothing is usable, since quarantine delays an origin but never
      removes the last one; and a quarantined one is among them only if every usable one is quarantined. */
  lemma ChoiceLaws(site: Site, origins: seq<Origin>, excluded: set<OriginId>, quarantine: map<OriginId, int>, now: int)
    ensures var pool := Choices(site, origins, excluded, quarantine, now);
      && (forall o <- pool :: o in origins && Usable(site, o, excluded))
      && (pool != [] <==> exists o <- origins :: Usable(site, o, excluded))
      && ((exists o <- pool :: o.id in quarantine && quarantine[o.id] > now) ==>
            forall o <- origins :: Usable(site, o, excluded) ==> o.id in quarantine && quarantine[o.id] > now)
  {
    PoolLaws(site, origins, excluded, quarantine, now, false);
    PoolLaws(site, origins, excluded, quarantine, now, true);
  }

  lemma PoolLaws(site: Site, origins: seq<Origin>, excluded: set<OriginId>, quarantine: map<OriginId, int>, now: int,
                 allowQuarantined: bool)
    ensures var pool := Pool(site, origins, excluded, quarantine, now, allowQuarantined);
      && (forall o <- pool :: o in origins && Eligible(o, excluded, quarantine, now, allowQuarantined)
                              && (site.monitor || !o.health.Unhealthy?))
      && (pool == [] <==> forall o <- origins :: Eligible(o, excluded, quarantine, now, allowQuarantined)
                                                 ==> !site.monitor && o.health.Unhealthy?)
  {
    var eligible := EligibleIn(origins, excluded, quarantine, now, allowQuarantined);
    var healthy := Where(eligible, (o: Origin) => o.health.Healthy?);
    var notUnhealthy := Where(eligible, (o: Origin) => !o.health.Unhealthy?);
    NonEmptyHas(eligible);
    NonEmptyHas(healthy);
    NonEmptyHas(notUnhealthy);
    var preferred := ByHealth(eligible, site.monitor);
    NonEmptyHas(preferred);
    if preferred != [] {
      PriorityNonEmpty(preferred);
    }
  }

  lemma PriorityNonEmpty(origins: seq<Origin>)
    requires origins != []
    ensures ByPriority(origins) != [] && forall o <- ByPriority(origins) :: o in origins
  {
    if |origins| >= 2 {
      var p := LeastPriority(origins);
      assert exists o <- origins :: o.priority == p;
      var o :| o in origins && o.priority == p;
      assert o in ByPriority(origins);
    }
  }

  lemma NonEmptyHas(s: seq<Origin>)
    ensures s != [] <==> exists o :: o in s
  {
    if s != [] {
      assert s[0] in s;
    }
  }
}
