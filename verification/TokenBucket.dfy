/** The per-tenant token bucket (api/app.py, lines 99-187). */
module TokenBucket {
  import opened Common
  import opened Tenancy

  datatype Level = Level(capacity: real, refill: real, tokens: real, updatedAt: real)

  /** What the refill brings between two clock readings: elapsed time times rate. */
  function Inflow(r: real, start: real, end: real): real { (end - start) * r }

  function Refilled(b: Level, now: real): Level {
    if now - b.updatedAt > 0.0
    then b.(tokens := Min(b.capacity, b.tokens + Inflow(b.refill, b.updatedAt, now)), updatedAt := now)
    else b
  }

  function Consumed(b: Level, amount: real, now: real): (Level, bool) {
    var r := Refilled(b, now);
    if r.tokens >= amount then (r.(tokens := r.tokens - amount), true) else (r, false)
  }

  function Full(capacity: real, refill: real, created: real): Level {
    Level(capacity, refill, capacity, created)
  }

  class Bucket {
    const capacity: real
    const refillPerSec: real
    var tokens: real
    var updatedAt: real

    ghost function View(): Level
      reads this
    {
      Level(capacity, refillPerSec, tokens, updatedAt)
    }

    constructor (capacity: real, refillPerSec: real, now: real)
      ensures View() == Full(capacity, refillPerSec, now)
    {
      this.capacity, this.refillPerSec, tokens, updatedAt := capacity, refillPerSec, capacity, now;
    }

    method Consume(amount: real, now: real) returns (ok: bool)
      modifies this
      ensures (View(), ok) == Consumed(old(View()), amount, now)
    {
      var elapsed := now - updatedAt;
      if elapsed > 0.0 {
        tokens := Min(capacity, tokens + elapsed * refillPerSec);
        updatedAt := now;
      }
      if tokens >= amount {
        tokens := tokens - amount;
        return true;
      }
      return false;
    }
  }

  // ------------------------------------------------------------ whole runs

  datatype Call = Call(amount: real, at: real)

  function Used(b: Level, c: Call): Level {
    Consumed(b, c.amount, c.at).0
  }

  function Grant(b: Level, c: Call): real {
    if Consumed(b, c.amount, c.at).1 then c.amount else 0.0
  }

  ghost predicate Follows(ls: seq<Level>, calls: seq<Call>, j: nat)
    requires j < |calls| < |ls|
  {
    ls[j + 1] == Used(ls[j], calls[j])
  }

  /** The level before each call, and after the last. */
  ghost predicate AreLevels(b: Level, calls: seq<Call>, ls: seq<Level>) {
    |ls| == |calls| + 1 && ls[0] == b && forall j :: 0 <= j < |calls| ==> Follows(ls, calls, j)
  }

  lemma {:induction false} LevelsExist(b: Level, calls: seq<Call>)
    ensures exists ls :: AreLevels(b, calls, ls)
  {
    if calls == [] {
      assert AreLevels(b, calls, [b]);
    } else {
      var n := |calls| - 1;
      LevelsExist(b, calls[..n]);
      var ls :| AreLevels(b, calls[..n], ls);
      var all := ls + [Used(ls[n], calls[n])];
      forall j | 0 <= j < |calls|
        ensures Follows(all, calls, j)
      {
        assert j < n ==> Follows(ls, calls[..n], j);
      }
      assert AreLevels(b, calls, all);
    }
  }

  ghost function Levels(b: Level, calls: seq<Call>): (ls: seq<Level>)
    ensures AreLevels(b, calls, ls)
  {
    LevelsExist(b, calls);
    var ls :| AreLevels(b, calls, ls);
    ls
  }

  /** A run of a bucket created full: nonnegative amounts, and a clock that never goes back. */
  ghost predicate IsRun(b: Level, calls: seq<Call>) {
    && b.capacity >= 0.0 && b.refill >= 0.0 && b.tokens == b.capacity
    && (forall j :: 0 <= j < |calls| ==> calls[j].amount >= 0.0 && b.updatedAt <= calls[j].at)
    && (forall j, k :: 0 <= j < k < |calls| ==> calls[j].at <= calls[k].at)
  }

  /** What each call finds after the refill, what it is granted, and what the refill added before it. */
  ghost predicate AreAvailable(ls: seq<Level>, calls: seq<Call>, a: seq<real>)
    requires |ls| == |calls| + 1
  {
    |a| == |calls| && forall j :: 0 <= j < |a| ==> a[j] == Refilled(ls[j], calls[j].at).tokens
  }

  ghost predicate AreGrants(ls: seq<Level>, calls: seq<Call>, g: seq<real>)
    requires |ls| == |calls| + 1
  {
    |g| == |calls| && forall j :: 0 <= j < |g| ==> g[j] == Grant(ls[j], calls[j])
  }

  ghost predicate AreGains(r: real, calls: seq<Call>, d: seq<real>) {
    |d| == |calls| && forall j :: 1 <= j < |d| ==> d[j] == Inflow(r, calls[j - 1].at, calls[j].at)
  }

  lemma AvailableExist(ls: seq<Level>, calls: seq<Call>)
    requires |ls| == |calls| + 1
    ensures exists a :: AreAvailable(ls, calls, a)
  {
    assert AreAvailable(ls, calls, seq(|calls|, j requires 0 <= j < |calls| => Refilled(ls[j], calls[j].at).tokens));
  }

  lemma GrantsExist(ls: seq<Level>, calls: seq<Call>)
    requires |ls| == |calls| + 1
    ensures exists g :: AreGrants(ls, calls, g)
  {
    assert AreGrants(ls, calls, seq(|calls|, j requires 0 <= j < |calls| => Grant(ls[j], calls[j])));
  }

  lemma {:induction false} GainsExist(r: real, calls: seq<Call>)
    ensures exists d :: AreGains(r, calls, d)
  {
    if calls == [] {
      assert AreGains(r, calls, []);
    } else {
      var n := |calls| - 1;
      GainsExist(r, calls[..n]);
      var d :| AreGains(r, calls[..n], d);
      assert AreGains(r, calls, d + [if n == 0 then 0.0 else Inflow(r, calls[n - 1].at, calls[n].at)]);
    }
  }

  ghost function Available(b: Level, calls: seq<Call>): (a: seq<real>)
    ensures AreAvailable(Levels(b, calls), calls, a)
  {
    AvailableExist(Levels(b, calls), calls);
    var a :| AreAvailable(Levels(b, calls), calls, a);
    a
  }

  ghost function Grants(b: Level, calls: seq<Call>): (g: seq<real>)
    ensures AreGrants(Levels(b, calls), calls, g)
  {
    GrantsExist(Levels(b, calls), calls);
    var g :| AreGrants(Levels(b, calls), calls, g);
    g
  }

  ghost function Gains(r: real, calls: seq<Call>): (d: seq<real>)
    ensures AreGains(r, calls, d)
  {
    GainsExist(r, calls);
    var d :| AreGains(r, calls, d);
    d
  }

  /** The amount granted by the calls at positions i, ..., n - 1. */
  ghost function Granted(b: Level, calls: seq<Call>, i: nat, n: nat): real
    requires i <= n <= |calls|
  {
    Sum(Grants(b, calls), i, n)
  }

  /** A reservoir of size `cap` that starts full, gains d[j] before call j and loses g[j] at it. */
  ghost predicate Leaky(cap: real, d: seq<real>, g: seq<real>, a: seq<real>) {
    && |d| == |g| == |a|
    && (a != [] ==> a[0] == cap)
    && forall j :: 1 <= j < |a| ==> a[j] == Min(cap, a[j - 1] - g[j - 1] + d[j])
  }

  /** What it holds at call `n` is exactly the least slack over all intervals that end there. */
  lemma {:induction false} LevelIsLeastSlack(cap: real, d: seq<real>, g: seq<real>, a: seq<real>, n: nat)
      returns (tight: nat)
    requires Leaky(cap, d, g, a) && n < |a|
    ensures forall i :: 0 <= i <= n ==> a[n] <= cap + Sum(d, i + 1, n + 1) - Sum(g, i, n)
    ensures tight <= n && a[n] == cap + Sum(d, tight + 1, n + 1) - Sum(g, tight, n)
  {
    if n == 0 {
      tight := 0;
    } else {
      tight := LevelIsLeastSlack(cap, d, g, a, n - 1);
      if a[n] == cap { tight := n; }
      forall i | 0 <= i <= n
        ensures a[n] <= cap + Sum(d, i + 1, n + 1) - Sum(g, i, n)
      {
        if i < n { assert a[n - 1] <= cap + Sum(d, i + 1, n) - Sum(g, i, n - 1); }
      }
    }
  }

  lemma Refill(s: Level, now: real)
    requires s.refill >= 0.0 && 0.0 <= s.tokens <= s.capacity && s.updatedAt <= now
    ensures Refilled(s, now) == Level(s.capacity, s.refill, Refilled(s, now).tokens, now)
    ensures Refilled(s, now).tokens == Min(s.capacity, s.tokens + Inflow(s.refill, s.updatedAt, now))
    ensures s.tokens <= Refilled(s, now).tokens
  {
    RefillMonotone(s.refill, s.updatedAt, s.updatedAt, now);
  }

  /** The stored level stays between empty and full. */
  lemma {:induction false} LevelInRange(b: Level, calls: seq<Call>, n: nat)
    requires IsRun(b, calls) && n <= |calls|
    ensures var s := Levels(b, calls)[n];
            && s.capacity == b.capacity && s.refill == b.refill && 0.0 <= s.tokens <= s.capacity
            && s.updatedAt == if n == 0 then b.updatedAt else calls[n - 1].at
  {
    if n > 0 {
      LevelInRange(b, calls, n - 1);
      var s, c := Levels(b, calls)[n - 1], calls[n - 1];
      if n > 1 { assert calls[n - 2].at <= c.at; }
      Refill(s, c.at);
      assert Follows(Levels(b, calls), calls, n - 1);
    }
  }

  lemma Serve(s: Level, c: Call)
    requires s.refill >= 0.0 && 0.0 <= s.tokens <= s.capacity && s.updatedAt <= c.at && c.amount >= 0.0
    ensures Used(s, c).tokens == Refilled(s, c.at).tokens - Grant(s, c)
  {
  }

  lemma AvailableStep(b: Level, calls: seq<Call>, ls: seq<Level>, n: nat)
    requires IsRun(b, calls) && ls == Levels(b, calls) && n < |calls|
    ensures Refilled(ls[n], calls[n].at).tokens ==
            if n == 0 then b.capacity
            else Min(b.capacity, Refilled(ls[n - 1], calls[n - 1].at).tokens - Grant(ls[n - 1], calls[n - 1]) +
                                 Inflow(b.refill, calls[n - 1].at, calls[n].at))
  {
    LevelInRange(b, calls, n);
    Refill(ls[n], calls[n].at);
    if n > 0 {
      LevelInRange(b, calls, n - 1);
      if n > 1 { assert calls[n - 2].at <= calls[n - 1].at; }
      assert Follows(ls, calls, n - 1);
      Serve(ls[n - 1], calls[n - 1]);
    }
  }

  lemma RunIsLeaky(b: Level, calls: seq<Call>, d: seq<real>, g: seq<real>, a: seq<real>)
    requires IsRun(b, calls) && AreGains(b.refill, calls, d)
    requires AreGrants(Levels(b, calls), calls, g) && AreAvailable(Levels(b, calls), calls, a)
    ensures Leaky(b.capacity, d, g, a)
  {
    forall n | 0 <= n < |calls|
      ensures a[n] == if n == 0 then b.capacity else Min(b.capacity, a[n - 1] - g[n - 1] + d[n])
    {
      AvailableStep(b, calls, Levels(b, calls), n);
    }
  }

  lemma {:induction false} GainsAddUp(r: real, calls: seq<Call>, d: seq<real>, i: nat, n: nat)
    requires AreGains(r, calls, d) && i <= n < |calls|
    ensures Sum(d, i + 1, n + 1) == Inflow(r, calls[i].at, calls[n].at)
    decreases n
  {
    if i < n {
      GainsAddUp(r, calls, d, i, n - 1);
      InflowSplits(r, calls[n - 1].at, calls[i].at, calls[n].at);
    }
  }

  lemma InflowSplits(r: real, x: real, y: real, z: real)
    ensures Inflow(r, y, x) + Inflow(r, x, z) == Inflow(r, y, z)
  {
  }

  ghost predicate IsGranted(b: Level, calls: seq<Call>, n: nat)
    requires n < |calls|
  {
    Consumed(Levels(b, calls)[n], calls[n].amount, calls[n].at).1
  }

  /** With call `n` granted, the grants from call `i` on would stay within capacity plus refill. */
  ghost predicate Within(b: Level, calls: seq<Call>, i: nat, n: nat)
    requires i <= n < |calls|
  {
    Granted(b, calls, i, n) + calls[n].amount <= b.capacity + Inflow(b.refill, calls[i].at, calls[n].at)
  }

  lemma WithinSlack(b: Level, calls: seq<Call>, i: nat, n: nat)
    requires i <= n < |calls|
    ensures Within(b, calls, i, n) <==>
            calls[n].amount <= b.capacity + Sum(Gains(b.refill, calls), i + 1, n + 1) - Sum(Grants(b, calls), i, n)
  {
    GainsAddUp(b.refill, calls, Gains(b.refill, calls), i, n);
  }

  /** The bucket is exact: a call is granted if and only if, for every interval that ends with it, the amount
      granted in that interval stays within capacity plus refill times the interval's length. */
  lemma GrantedIffWithinEveryInterval(b: Level, calls: seq<Call>, n: nat)
    requires IsRun(b, calls) && n < |calls|
    ensures IsGranted(b, calls, n) <==> forall i :: 0 <= i <= n ==> Within(b, calls, i, n)
  {
    var a, g, d := Available(b, calls), Grants(b, calls), Gains(b.refill, calls);
    assert IsGranted(b, calls, n) <==> calls[n].amount <= a[n];
    RunIsLeaky(b, calls, d, g, a);
    var tight := LevelIsLeastSlack(b.capacity, d, g, a, n);
    WithinSlack(b, calls, tight, n);
    forall i | 0 <= i <= n
      ensures calls[n].amount <= a[n] ==> Within(b, calls, i, n)
    {
      WithinSlack(b, calls, i, n);
    }
  }

  lemma RefillMonotone(r: real, start: real, x: real, y: real)
    requires r >= 0.0 && start <= x <= y
    ensures 0.0 <= Inflow(r, start, x) <= Inflow(r, start, y)
  {
    assert Inflow(r, start, y) - Inflow(r, start, x) == Inflow(r, x, y);
  }

  lemma GrantedStep(b: Level, calls: seq<Call>, i: nat, m: nat)
    requires i <= m < |calls|
    ensures Granted(b, calls, i, m + 1) ==
            Granted(b, calls, i, m) + if IsGranted(b, calls, m) then calls[m].amount else 0.0
  {
  }

  /** Over any contiguous part of any run, at most capacity plus refill times elapsed time is granted. */
  lemma {:induction false} IntervalBound(b: Level, calls: seq<Call>, i: nat, n: nat)
    requires IsRun(b, calls) && i < n <= |calls|
    ensures Granted(b, calls, i, n) <= b.capacity + Inflow(b.refill, calls[i].at, calls[n - 1].at)
    decreases n
  {
    var m := n - 1;
    GrantedStep(b, calls, i, m);
    if IsGranted(b, calls, m) {
      GrantedIffWithinEveryInterval(b, calls, m);
      assert Within(b, calls, i, m);
    } else if i == m {
      assert Granted(b, calls, i, m) == 0.0;
      assert Inflow(b.refill, calls[i].at, calls[m].at) == 0.0;
    } else {
      IntervalBound(b, calls, i, m);
      RefillMonotone(b.refill, calls[i].at, calls[m - 1].at, calls[m].at);
    }
  }

  // --------------------------------------------------------------- tenants

  /** One `check`: the tenant's current limit, and the clock when a missing bucket is created and when it is used. */
  datatype Visit = Visit(rpm: real, created: real, now: real)

  /** A missing bucket is created full, with one minute of burst at the tenant's limit as its capacity. */
  function BucketOf(b: Option<Level>, v: Visit): Level {
    if b.Some? then b.value else Full(v.rpm, v.rpm / 60.0, v.created)
  }

  function Limited(b: Option<Level>, v: Visit): (Level, bool) {
    Consumed(BucketOf(b, v), 1.0, v.now)
  }

  class TenantRateLimiter {
    const defaultRpm: nat
    const overrides: map<string, nat>
    var buckets: map<string, Bucket>
    var allowed: map<string, nat>
    var throttled: map<string, nat>

    constructor (defaultRpm: nat, overrides: map<string, nat>)
      ensures this.defaultRpm == defaultRpm && this.overrides == overrides
      ensures Valid() && Views() == map[] && allowed == map[] && throttled == map[]
    {
      this.defaultRpm, this.overrides := defaultRpm, overrides;
      buckets, allowed, throttled := map[], map[], map[];
    }

    ghost predicate Valid()
      reads this`buckets
    {
      forall k, l :: k in buckets && l in buckets && k != l ==> buckets[k] != buckets[l]
    }

    ghost function Views(): (views: map<string, Level>)
      reads this`buckets, buckets.Values
      ensures views.Keys == buckets.Keys
      ensures forall k :: k in buckets ==> views[k] == buckets[k].View()
    {
      map k | k in buckets :: buckets[k].View()
    }

    /** An override of zero counts as none. */
    function LimitRpm(tenant: string): nat {
      if tenant in overrides && overrides[tenant] != 0 then overrides[tenant] else defaultRpm
    }

    function Count(m: map<string, nat>, k: string): nat {
      if k in m then m[k] else 0
    }

    method BucketFor(tenant: string, created: real) returns (bucket: Bucket)
      requires Valid()
      modifies this`buckets
      ensures Valid() && (fresh(bucket) || bucket in old(buckets.Values))
      ensures buckets == old(buckets)[tenant := bucket]
      ensures Views() == old(Views())[tenant :=
        BucketOf(Lookup(old(Views()), tenant), Visit(LimitRpm(tenant) as real, created, created))]
    {
      if tenant !in buckets {
        var rpm := LimitRpm(tenant) as real;
        bucket := new Bucket(rpm, rpm / 60.0, created);
        buckets := buckets[tenant := bucket];
      } else {
        bucket := buckets[tenant];
      }
    }

    method CountOutcome(tenant: string, ok: bool)
      modifies this`allowed, this`throttled
      ensures allowed == if ok then old(allowed)[tenant := Count(old(allowed), tenant) + 1] else old(allowed)
      ensures throttled == if ok then old(throttled) else old(throttled)[tenant := Count(old(throttled), tenant) + 1]
    {
      if ok {
        allowed := allowed[tenant := Count(allowed, tenant) + 1];
      } else {
        throttled := throttled[tenant := Count(throttled, tenant) + 1];
      }
    }

    method ConsumeFrom(tenant: string, bucket: Bucket, now: real) returns (ok: bool)
      requires Valid() && tenant in buckets && buckets[tenant] == bucket
      modifies bucket
      ensures Valid()
      ensures var (level, granted) := Consumed(old(Views())[tenant], 1.0, now);
              ok == granted && Views() == old(Views())[tenant := level]
    {
      ok := bucket.Consume(1.0, now);
    }

    method Serve(tenant: string, created: real, now: real) returns (ok: bool)
      requires Valid()
      modifies this`buckets, buckets.Values
      ensures Valid() && fresh(buckets.Values - old(buckets.Values))
      ensures var visit := Visit(LimitRpm(tenant) as real, created, now);
              var (level, granted) := Limited(Lookup(old(Views()), tenant), visit);
              ok == granted && Views() == old(Views())[tenant := level]
    {
      ghost var before := Views();
      var bucket := BucketFor(tenant, created);
      ok := ConsumeFrom(tenant, bucket, now);
      assert Views() == before[tenant := Views()[tenant]];
    }

    method Check(tenant: string, created: real, now: real) returns (ok: bool)
      requires Valid()
      modifies this, buckets.Values
      ensures Valid() && fresh(buckets.Values - old(buckets.Values))
      ensures var visit := Visit(LimitRpm(tenant) as real, created, now);
              var (level, granted) := Limited(Lookup(old(Views()), tenant), visit);
              ok == granted && Views() == old(Views())[tenant := level]
      ensures allowed == if ok then old(allowed)[tenant := Count(old(allowed), tenant) + 1] else old(allowed)
      ensures throttled == if ok then old(throttled) else old(throttled)[tenant := Count(old(throttled), tenant) + 1]
    {
      ok := Serve(tenant, created, now);
      CountOutcome(tenant, ok);
    }
  }

  // ------------------------------------------------------- many requests

  function LimitStep(b: Option<Level>, v: Visit): (Option<Level>, bool) {
    var (level, ok) := Limited(b, v);
    (Some(level), ok)
  }

  /** The clock readings of one request. */
  datatype Arrival = Arrival(created: real, now: real)

  ghost function Visits(limiter: TenantRateLimiter, reqs: seq<Request<Arrival>>): (vs: seq<Request<Visit>>)
    ensures |vs| == |reqs|
    ensures forall i :: 0 <= i < |reqs| ==> vs[i] == Request(
      reqs[i].tenant, Visit(limiter.LimitRpm(reqs[i].tenant) as real, reqs[i].body.created, reqs[i].body.now))
  {
    if reqs == [] then []
    else
      var n := |reqs| - 1;
      Visits(limiter, reqs[..n]) + [Request(
        reqs[n].tenant, Visit(limiter.LimitRpm(reqs[n].tenant) as real, reqs[n].body.created, reqs[n].body.now))]
  }

  /** A limiter that serves many tenants answers each as if its requests came alone. */
  method ServeAll(limiter: TenantRateLimiter, reqs: seq<Request<Arrival>>) returns (answers: seq<bool>)
    requires limiter.Valid()
    modifies limiter, limiter.buckets.Values
    ensures limiter.Valid() && |answers| == |reqs|
    ensures answers == Answers(LimitStep, Visits(limiter, reqs), old(limiter.Views()))
    ensures forall k :: Picked(Visits(limiter, reqs), answers, k) ==
                        Answers(LimitStep, Own(Visits(limiter, reqs), k), old(limiter.Views()))
  {
    ghost var visits, before := Visits(limiter, reqs), limiter.Views();
    answers := [];
    assert visits[0..] == visits;
    for i := 0 to |reqs|
      invariant limiter.Valid() && fresh(limiter.buckets.Values - old(limiter.buckets.Values))
      invariant |answers| == i
      invariant Answers(LimitStep, visits, before) == answers + Answers(LimitStep, visits[i..], limiter.Views())
    {
      ghost var m := limiter.Views();
      var ok := limiter.Check(reqs[i].tenant, reqs[i].body.created, reqs[i].body.now);
      assert visits[i..][0] == visits[i] && visits[i..][1..] == visits[i + 1..];
      AnswersStep(LimitStep, visits[i..], m, answers, ok, limiter.Views());
      answers := answers + [ok];
    }
    assert visits[|reqs|..] == [];
    AllServed(LimitStep, visits, before, answers, limiter.Views());
  }

  /** Each tenant gets the answers it would get if its requests came alone to a fresh limiter. */
  lemma RateLimitsAreIsolated(reqs: seq<Request<Visit>>, k: string)
    ensures Picked(reqs, Answers(LimitStep, reqs, map[]), k) == Answers(LimitStep, Own(reqs, k), map[])
  {
    TenantsAreIsolated(LimitStep, reqs, map[], map[], k);
  }
}
