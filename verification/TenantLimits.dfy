/** The bounds of the token bucket, for each tenant of a limiter that serves many (api/app.py, lines 93-187). */
module TenantLimits {
  import opened Common
  import opened Tenancy
  import opened TokenBucket

  /** A tenant's visits under one limit, on a clock that never goes back. */
  ghost predicate AreVisits(own: seq<Request<Visit>>, rpm: real) {
    && rpm >= 0.0 && (forall j :: 0 <= j < |own| ==> own[j].body.rpm == rpm)
    && (forall j :: 0 <= j < |own| ==> own[0].body.created <= own[j].body.now)
    && forall i, j :: 0 <= i < j < |own| ==> own[i].body.now <= own[j].body.now
  }

  ghost function CallsOf(own: seq<Request<Visit>>): (calls: seq<Call>)
    ensures |calls| == |own| && forall j :: 0 <= j < |own| ==> calls[j] == Call(1.0, own[j].body.now)
  {
    if own == [] then [] else CallsOf(own[..|own| - 1]) + [Call(1.0, own[|own| - 1].body.now)]
  }

  /** The tenant's bucket as it is made for its first visit. */
  ghost function FirstBucket(own: seq<Request<Visit>>, rpm: real): Level
    requires own != []
  {
    Full(rpm, rpm / 60.0, own[0].body.created)
  }

  lemma VisitsRun(own: seq<Request<Visit>>, rpm: real)
    requires own != [] && AreVisits(own, rpm)
    ensures IsRun(FirstBucket(own, rpm), CallsOf(own))
  {
  }

  /** Before the first visit there is no bucket; afterwards the levels of the run. */
  ghost function Stored(ls: seq<Level>): (ss: seq<Option<Level>>)
    requires ls != []
    ensures |ss| == |ls| && ss[0] == None && forall j :: 0 < j < |ls| ==> ss[j] == Some(ls[j])
  {
    if |ls| == 1 then [None] else Stored(ls[..|ls| - 1]) + [Some(ls[|ls| - 1])]
  }

  lemma LimitStepIs(s: Option<Level>, v: Visit, b: Level)
    requires b == BucketOf(s, v)
    ensures var c := Call(1.0, v.now); LimitStep(s, v) == (Some(Used(b, c)), Consumed(b, c.amount, c.at).1)
  {
  }

  lemma StoredStep(own: seq<Request<Visit>>, rpm: real, j: nat)
    requires own != [] && AreVisits(own, rpm) && j < |own|
    ensures var b, calls := FirstBucket(own, rpm), CallsOf(own);
            var ls := Levels(b, calls);
            LimitStep(Stored(ls)[j], own[j].body) == (Some(ls[j + 1]), IsGranted(b, calls, j))
  {
    var calls := CallsOf(own);
    var ls := Levels(FirstBucket(own, rpm), calls);
    assert Follows(ls, calls, j);
    LimitStepIs(Stored(ls)[j], own[j].body, ls[j]);
  }

  /** However tenants are interleaved, the answers to one of them are those of the bucket's run on its own calls, so all
      that is proved of such runs holds of each tenant. */
  lemma AnswersAreOfRun(reqs: seq<Request<Visit>>, k: string, rpm: real, j: nat)
    requires j < |Own(reqs, k)| && AreVisits(Own(reqs, k), rpm)
    ensures var own, answers := Own(reqs, k), Picked(reqs, Answers(LimitStep, reqs, map[]), k);
            |answers| == |own| && (answers[j] <==> IsGranted(FirstBucket(own, rpm), CallsOf(own), j))
  {
    var own := Own(reqs, k);
    var ss := Stored(Levels(FirstBucket(own, rpm), CallsOf(own)));
    RateLimitsAreIsolated(reqs, k);
    OwnAreOf(reqs, k);
    forall i | 0 <= i < |own|
      ensures Leads(LimitStep, own, ss, i)
    {
      StoredStep(own, rpm, i);
    }
    assert AreStates(LimitStep, own, k, ss);
    AnswersByState(LimitStep, own, map[], k, ss);
    StoredStep(own, rpm, j);
  }

  /** How many of the answers i, ..., n - 1 are yes. */
  ghost function CountYes(answers: seq<bool>, i: nat, n: nat): nat
    requires i <= n <= |answers|
    decreases n
  {
    if i == n then 0 else CountYes(answers, i, n - 1) + if answers[n - 1] then 1 else 0
  }

  lemma {:induction false} YesAreGrants(
    answers: seq<bool>, b: Level, calls: seq<Call>, i: nat, n: nat)
    requires i <= n <= |calls| == |answers| && forall j :: 0 <= j < |calls| ==> calls[j].amount == 1.0
    requires forall j: nat :: j < |calls| ==> (answers[j] <==> IsGranted(b, calls, j))
    ensures CountYes(answers, i, n) as real == Granted(b, calls, i, n)
    decreases n
  {
    if i < n {
      YesAreGrants(answers, b, calls, i, n - 1);
      GrantedStep(b, calls, i, n - 1);
    }
  }

  lemma YesWithinBound(answers: seq<bool>, b: Level, calls: seq<Call>, i: nat, n: nat)
    requires IsRun(b, calls) && i < n <= |calls| == |answers| && forall j :: 0 <= j < |calls| ==> calls[j].amount == 1.0
    requires forall j: nat :: j < |calls| ==> (answers[j] <==> IsGranted(b, calls, j))
    ensures CountYes(answers, i, n) as real <= b.capacity + Inflow(b.refill, calls[i].at, calls[n - 1].at)
  {
    YesAreGrants(answers, b, calls, i, n);
    IntervalBound(b, calls, i, n);
  }

  /** Over any part of a tenant's own visits, whatever other tenants do meanwhile, at most its limit per minute and one
      minute's burst on top is let through. */
  lemma EachTenantIsLimited(reqs: seq<Request<Visit>>, k: string, rpm: real, i: nat, n: nat)
    requires var own := Own(reqs, k); i < n <= |own| && AreVisits(own, rpm)
    ensures var own, answers := Own(reqs, k), Picked(reqs, Answers(LimitStep, reqs, map[]), k);
            n <= |answers| &&
            CountYes(answers, i, n) as real <= rpm + Inflow(rpm / 60.0, own[i].body.now, own[n - 1].body.now)
  {
    var own, answers := Own(reqs, k), Picked(reqs, Answers(LimitStep, reqs, map[]), k);
    AnswersAreOfRun(reqs, k, rpm, i);
    forall j: nat | j < |own|
      ensures answers[j] <==> IsGranted(FirstBucket(own, rpm), CallsOf(own), j)
    {
      AnswersAreOfRun(reqs, k, rpm, j);
    }
    VisitsRun(own, rpm);
    YesWithinBound(answers, FirstBucket(own, rpm), CallsOf(own), i, n);
  }

  /** What a limit in requests per minute refills in this many seconds. */
  function RefilledIn(rpm: real, elapsed: real): real { elapsed * (rpm / 60.0) }

  /** Counted from request `i` on, no more than the limit and what has been refilled since is used. */
  ghost predicate HasRoomFrom(own: seq<Request<Visit>>, answers: seq<bool>, rpm: real, i: nat, n: nat)
    requires i <= n < |own| == |answers|
  {
    CountYes(answers, i, n) as real + 1.0 <= rpm + RefilledIn(rpm, own[n].body.now - own[i].body.now)
  }

  lemma InflowIsRefill(rpm: real, start: real, end: real)
    ensures Inflow(rpm / 60.0, start, end) == RefilledIn(rpm, end - start)
  {
  }

  lemma {:induction false} WithinIsRoom(
    own: seq<Request<Visit>>, answers: seq<bool>, rpm: real, b: Level, calls: seq<Call>, i: nat, n: nat)
    requires i <= n < |own| == |answers| == |calls| && b.capacity == rpm && b.refill == rpm / 60.0
    requires calls[i].at == own[i].body.now && calls[n] == Call(1.0, own[n].body.now)
    requires CountYes(answers, i, n) as real == Granted(b, calls, i, n)
    ensures Within(b, calls, i, n) <==> HasRoomFrom(own, answers, rpm, i, n)
  {
    InflowIsRefill(rpm, calls[i].at, calls[n].at);
    assert Within(b, calls, i, n) <==>
           Granted(b, calls, i, n) + 1.0 <= rpm + Inflow(rpm / 60.0, calls[i].at, calls[n].at);
  }

  /** A request is let through if and only if it has room, counted from whatever earlier one. */
  lemma LetThroughIff(reqs: seq<Request<Visit>>, k: string, rpm: real, n: nat)
    requires n < |Own(reqs, k)| && AreVisits(Own(reqs, k), rpm)
    ensures var own, answers := Own(reqs, k), Picked(reqs, Answers(LimitStep, reqs, map[]), k);
            && |answers| == |own|
            && (answers[n] <==> forall i :: 0 <= i <= n ==> HasRoomFrom(own, answers, rpm, i, n))
  {
    var own, answers := Own(reqs, k), Picked(reqs, Answers(LimitStep, reqs, map[]), k);
    var b, calls := FirstBucket(own, rpm), CallsOf(own);
    AnswersAreOfRun(reqs, k, rpm, n);
    forall j: nat | j < |own|
      ensures answers[j] <==> IsGranted(b, calls, j)
    {
      AnswersAreOfRun(reqs, k, rpm, j);
    }
    VisitsRun(own, rpm);
    GrantedIffWithinEveryInterval(b, calls, n);
    forall i | 0 <= i <= n
      ensures Within(b, calls, i, n) <==> HasRoomFrom(own, answers, rpm, i, n)
    {
      YesAreGrants(answers, b, calls, i, n);
      WithinIsRoom(own, answers, rpm, b, calls, i, n);
    }
  }

  // ----------------------------------------------------- the limit of a tenant

  /** The limit in requests per minute is the tenant's override, or the default if it has none or it is zero. */
  ghost predicate IsLimitOf(limiter: TenantRateLimiter, k: string, rpm: real) {
    if k in limiter.overrides && limiter.overrides[k] > 0 then rpm == limiter.overrides[k] as real
    else rpm == limiter.defaultRpm as real
  }

  lemma {:induction false} OwnVisits(limiter: TenantRateLimiter, vs: seq<Request<Visit>>, k: string)
    requires forall j :: 0 <= j < |vs| ==> vs[j].body.rpm == limiter.LimitRpm(vs[j].tenant) as real
    ensures forall j :: 0 <= j < |Own(vs, k)| ==> Own(vs, k)[j].body.rpm == limiter.LimitRpm(k) as real
  {
    if vs != [] { OwnVisits(limiter, vs[1..], k); }
  }

  /** The clock readings of a tenant's visits do not go back. */
  ghost predicate InTime(own: seq<Request<Visit>>) {
    && (forall j :: 0 <= j < |own| ==> own[0].body.created <= own[j].body.now)
    && forall i, j :: 0 <= i < j < |own| ==> own[i].body.now <= own[j].body.now
  }

  /** So in a limiter that serves many tenants, each one's requests are let through if and only if they have room under
      its own override or the default. */
  lemma ServedUnderOwnLimit(limiter: TenantRateLimiter, reqs: seq<Request<Arrival>>, k: string, rpm: real, n: nat)
    requires IsLimitOf(limiter, k, rpm)
    requires var own := Own(Visits(limiter, reqs), k); n < |own| && InTime(own)
    ensures var visits := Visits(limiter, reqs);
            var own, answers := Own(visits, k), Picked(visits, Answers(LimitStep, visits, map[]), k);
            && |answers| == |own|
            && (answers[n] <==> forall i :: 0 <= i <= n ==> HasRoomFrom(own, answers, rpm, i, n))
  {
    OwnVisits(limiter, Visits(limiter, reqs), k);
    LetThroughIff(Visits(limiter, reqs), k, rpm, n);
  }
}
