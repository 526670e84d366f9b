/** Per-tenant cost budgets (api/app.py, lines 228-291; api/__init__.py, lines 85-163). Both classes keep, for each
    tenant, when its window began and what it has spent since, and follow the one rule `Charged`. */
module Quotas {
  import opened Common
  import opened Tenancy

  datatype Usage = Usage(start: real, cost: real)

  datatype Policy = Policy(budget: real, window: real)

  /** `created` is the clock reading when a missing record is made, `now` the one the charge goes by. */
  datatype Bill = Bill(cost: real, created: real, now: real)

  datatype Answer = Admitted(remaining: real) | Rejected(retryAfter: int)

  function Rolled(p: Policy, u: Option<Usage>, created: real, now: real): Usage {
    var s := if u.Some? then u.value else Usage(created, 0.0);
    if now - s.start >= p.window then Usage(now, 0.0) else s
  }

  /** Conversion to an integer drops the fraction. */
  function Trunc(x: real): int { if x >= 0.0 then x.Floor else -(-x).Floor }

  function RetryAfter(left: real): int { if Trunc(left) > 1 then Trunc(left) else 1 }

  /** One charge against a current window. */
  function Settled(p: Policy, s: Usage, c: Bill): (Usage, Answer) {
    if s.cost + c.cost > p.budget then (s, Rejected(RetryAfter(p.window - (c.now - s.start))))
    else (Usage(s.start, s.cost + c.cost), Admitted(p.budget - (s.cost + c.cost)))
  }

  function Charged(p: Policy, u: Option<Usage>, c: Bill): (Usage, Answer) {
    Settled(p, Rolled(p, u, c.created, c.now), c)
  }

  /** What a caller sees of an answer: what remains, or an exception with the seconds to wait. */
  function Raised(a: Answer): Result<real, int> {
    match a
    case Admitted(left) => Ok(left)
    case Rejected(after) => Err(after)
  }

  function Peeked(p: Policy, u: Option<Usage>, now: real): (Option<Usage>, real) {
    if u.None? then (None, p.budget)
    else
      var s := Rolled(p, u, now, now);
      (Some(s), if p.budget - s.cost > 0.0 then p.budget - s.cost else 0.0)
  }

  // ------------------------------------------------------------ the two classes

  class RequestCostAccountant {
    const budget: real
    const window: real
    const overrides: map<string, real>
    var state: map<string, Usage>
    var consumed: map<string, real>
    var rejected: map<string, nat>

    constructor (budget: real, window: real, overrides: map<string, real>)
      ensures this.budget == budget && this.window == window && this.overrides == overrides
      ensures state == map[] && consumed == map[] && rejected == map[]
    {
      this.budget, this.window, this.overrides := budget, window, overrides;
      state, consumed, rejected := map[], map[], map[];
    }

    /** An override of zero counts as none. */
    function PolicyFor(tenant: string): Policy {
      Policy(if tenant in overrides && overrides[tenant] != 0.0 then overrides[tenant] else budget, window)
    }

    method Roll(tenant: string, now: real) returns (s: Usage)
      modifies this`state
      ensures s == Rolled(PolicyFor(tenant), Lookup(old(state), tenant), now, now)
      ensures state == old(state)[tenant := s]
    {
      if tenant !in state || now - state[tenant].start >= window {
        state := state[tenant := Usage(now, 0.0)];
      }
      s := state[tenant];
    }

    method Charge(tenant: string, cost: real, now: real) returns (r: Result<real, int>)
      modifies this
      ensures var (s, a) := Charged(PolicyFor(tenant), Lookup(old(state), tenant), Bill(cost, now, now));
              && state == old(state)[tenant := s]
              && r == Raised(a)
      ensures consumed == if r.Err? then old(consumed)
                          else old(consumed)[tenant := Lookup(old(consumed), tenant).GetOr(0.0) + cost]
      ensures rejected == if r.Ok? then old(rejected)
                          else old(rejected)[tenant := Lookup(old(rejected), tenant).GetOr(0) + 1]
    {
      var s := Roll(tenant, now);
      var limit := PolicyFor(tenant).budget;
      if s.cost + cost > limit {
        rejected := rejected[tenant := Lookup(rejected, tenant).GetOr(0) + 1];
        return Err(RetryAfter(window - (now - s.start)));
      }
      state := state[tenant := s.(cost := s.cost + cost)];
      consumed := consumed[tenant := Lookup(consumed, tenant).GetOr(0.0) + cost];
      return Ok(limit - (s.cost + cost));
    }
  }

  class TenantUsage {
    var cost: real
    var windowStart: real

    ghost function View(): Usage
      reads this
    {
      Usage(windowStart, cost)
    }

    constructor (now: real)
      ensures View() == Usage(now, 0.0)
    {
      cost, windowStart := 0.0, now;
    }
  }

  class QuotaTracker {
    const budget: real
    const window: real
    var usage: map<string, TenantUsage>

    constructor (budget: real, window: real)
      ensures this.budget == budget && this.window == window
      ensures Valid() && Views() == map[]
    {
      this.budget, this.window := budget, window;
      usage := map[];
    }

    ghost predicate Valid()
      reads this`usage
    {
      forall k, l :: k in usage && l in usage && k != l ==> usage[k] != usage[l]
    }

    ghost function Views(): (views: map<string, Usage>)
      reads this`usage, usage.Values
      ensures views.Keys == usage.Keys
      ensures forall k :: k in usage ==> views[k] == usage[k].View()
    {
      map k | k in usage :: usage[k].View()
    }

    function OwnPolicy(): Policy {
      Policy(budget, window)
    }

    method ResetIfExpired(tenant: string, u: TenantUsage, now: real)
      requires Valid() && tenant in usage && usage[tenant] == u
      modifies u
      ensures Views() == old(Views())[tenant := Rolled(OwnPolicy(), Some(old(u.View())), now, now)]
    {
      if now - u.windowStart >= window {
        u.cost := 0.0;
        u.windowStart := now;
      }
    }

    /** The tenant's record, made if missing, with its window current. */
    method Current(tenant: string, created: real, now: real) returns (u: TenantUsage)
      requires Valid()
      modifies this`usage, usage.Values
      ensures Valid() && (fresh(u) || u in old(usage.Values))
      ensures usage == old(usage)[tenant := u]
      ensures Views() == old(Views())[tenant := Rolled(OwnPolicy(), Lookup(old(Views()), tenant), created, now)]
    {
      ghost var before := Views();
      if tenant !in usage {
        u := new TenantUsage(created);
        usage := usage[tenant := u];
        assert Views() == before[tenant := Usage(created, 0.0)];
      } else {
        u := usage[tenant];
        assert Views() == before;
      }
      ResetIfExpired(tenant, u, now);
      assert Views() == before[tenant := Views()[tenant]];
    }

    method Settle(tenant: string, u: TenantUsage, c: Bill) returns (r: Result<real, int>)
      requires Valid() && tenant in usage && usage[tenant] == u
      modifies u
      ensures var (s, a) := Settled(OwnPolicy(), old(Views())[tenant], c);
              r == Raised(a) && Views() == old(Views())[tenant := s]
    {
      ghost var before := Views();
      if u.cost + c.cost > budget {
        assert before == before[tenant := before[tenant]];
        return Err(RetryAfter(window - (c.now - u.windowStart)));
      }
      u.cost := u.cost + c.cost;
      return Ok(budget - u.cost);
    }

    method Charge(tenant: string, cost: real, created: real, now: real) returns (r: Result<real, int>)
      requires Valid()
      modifies this`usage, usage.Values
      ensures Valid() && fresh(usage.Values - old(usage.Values))
      ensures var (s, a) := Charged(OwnPolicy(), Lookup(old(Views()), tenant), Bill(cost, created, now));
              && Views() == old(Views())[tenant := s]
              && r == Raised(a)
    {
      ghost var before := Views();
      var u := Current(tenant, created, now);
      r := Settle(tenant, u, Bill(cost, created, now));
      assert Views() == before[tenant := Views()[tenant]];
    }

    method Remaining(tenant: string, now: real) returns (left: real)
      requires Valid()
      modifies usage.Values
      ensures usage == old(usage)
      ensures var (s, l) := Peeked(OwnPolicy(), Lookup(old(Views()), tenant), now);
              && left == l
              && Views() == if s.None? then old(Views()) else old(Views())[tenant := s.value]
    {
      if tenant !in usage {
        return budget;
      }
      var u := usage[tenant];
      ResetIfExpired(tenant, u, now);
      assert u.View() == Views()[tenant];
      left := if budget - u.cost > 0.0 then budget - u.cost else 0.0;
    }
  }

  // ------------------------------------------------------------- whole runs

  ghost predicate Follows(p: Policy, us: seq<Option<Usage>>, cs: seq<Bill>, j: nat)
    requires j < |cs| < |us|
  {
    us[j + 1] == Some(Charged(p, us[j], cs[j]).0)
  }

  /** What is recorded for one tenant before each of its charges, and after the last. */
  ghost predicate AreUsages(p: Policy, cs: seq<Bill>, us: seq<Option<Usage>>) {
    |us| == |cs| + 1 && us[0] == None && forall j :: 0 <= j < |cs| ==> Follows(p, us, cs, j)
  }

  lemma {:induction false} UsagesExist(p: Policy, cs: seq<Bill>)
    ensures exists us :: AreUsages(p, cs, us)
  {
    if cs == [] {
      assert AreUsages(p, cs, [None]);
    } else {
      var n := |cs| - 1;
      UsagesExist(p, cs[..n]);
      var us :| AreUsages(p, cs[..n], us);
      var all := us + [Some(Charged(p, us[n], cs[n]).0)];
      forall j | 0 <= j < |cs|
        ensures Follows(p, all, cs, j)
      {
        assert j < n ==> Follows(p, us, cs[..n], j);
      }
      assert AreUsages(p, cs, all);
    }
  }

  ghost function Usages(p: Policy, cs: seq<Bill>): (us: seq<Option<Usage>>)
    ensures AreUsages(p, cs, us)
  {
    UsagesExist(p, cs);
    var us :| AreUsages(p, cs, us);
    us
  }

  ghost predicate IsAdmitted(p: Policy, cs: seq<Bill>, n: nat)
    requires n < |cs|
  {
    Charged(p, Usages(p, cs)[n], cs[n]).1.Admitted?
  }

  /** The cost admitted by the charges at positions i, ..., n - 1. */
  ghost function Spent(p: Policy, cs: seq<Bill>, i: nat, n: nat): real
    requires i <= n <= |cs|
    decreases n - i
  {
    if i == n then 0.0 else Spent(p, cs, i, n - 1) + if IsAdmitted(p, cs, n - 1) then cs[n - 1].cost else 0.0
  }

  /** Costs are not negative, and the clock never goes back: a record is made after the charge read the clock. */
  ghost predicate IsRun(p: Policy, cs: seq<Bill>) {
    && p.budget >= 0.0 && p.window > 0.0
    && (forall j :: 0 <= j < |cs| ==> cs[j].cost >= 0.0 && cs[j].now <= cs[j].created)
    && (forall j, k :: 0 <= j < k < |cs| ==> cs[j].created <= cs[k].now)
  }

  // --------------------------------- the windows, told from the clock alone

  /** When the window that charge `o` opens begins. */
  function Begin(cs: seq<Bill>, o: nat): real
    requires o < |cs|
  {
    if o == 0 then cs[0].created else cs[o].now
  }

  /** The charge that opened the window of charge `n`: the first one opens a window, and so does each later one that
      comes a full window length or more after the last opening. */
  ghost function Opening(p: Policy, cs: seq<Bill>, n: nat): (o: nat)
    requires n < |cs|
    ensures o <= n
  {
    if n == 0 then 0
    else
      var last := Opening(p, cs, n - 1);
      if cs[n].now - Begin(cs, last) >= p.window then n else last
  }

  lemma {:induction false} UsageIsSpentInWindow(p: Policy, cs: seq<Bill>, n: nat)
    requires IsRun(p, cs) && n < |cs|
    ensures var o := Opening(p, cs, n);
            && Rolled(p, Usages(p, cs)[n], cs[n].created, cs[n].now) == Usage(Begin(cs, o), Spent(p, cs, o, n))
            && Usages(p, cs)[n + 1] == Some(Usage(Begin(cs, o), Spent(p, cs, o, n + 1)))
            && Spent(p, cs, o, n + 1) <= p.budget
  {
    assert Follows(p, Usages(p, cs), cs, n);
    if n > 0 {
      UsageIsSpentInWindow(p, cs, n - 1);
    }
  }

  /** A charge is admitted if and only if it fits what its window has left. */
  lemma AdmittedIffWindowHasRoom(p: Policy, cs: seq<Bill>, n: nat)
    requires IsRun(p, cs) && n < |cs|
    ensures IsAdmitted(p, cs, n) <==> Spent(p, cs, Opening(p, cs, n), n) + cs[n].cost <= p.budget
  {
    UsageIsSpentInWindow(p, cs, n);
  }

  lemma {:induction false} SpentSplits(p: Policy, cs: seq<Bill>, i: nat, m: nat, n: nat)
    requires i <= m <= n <= |cs|
    ensures Spent(p, cs, i, n) == Spent(p, cs, i, m) + Spent(p, cs, m, n)
    decreases n - m
  {
    if m < n { SpentSplits(p, cs, i, m, n - 1); }
  }

  lemma {:induction false} SpentNonNegative(p: Policy, cs: seq<Bill>, i: nat, n: nat)
    requires IsRun(p, cs) && i <= n <= |cs|
    ensures 0.0 <= Spent(p, cs, i, n)
    decreases n - i
  {
    if i < n { SpentNonNegative(p, cs, i, n - 1); }
  }

  /** Charges i, ..., n belong to one window when no window opens after charge `i`. */
  lemma WindowBound(p: Policy, cs: seq<Bill>, i: nat, n: nat)
    requires IsRun(p, cs) && i <= n < |cs| && Opening(p, cs, n) <= i
    ensures Spent(p, cs, i, n + 1) <= p.budget
  {
    var o := Opening(p, cs, n);
    UsageIsSpentInWindow(p, cs, n);
    SpentSplits(p, cs, o, i, n + 1);
    SpentNonNegative(p, cs, o, i);
  }

  /** The charge before an opening belongs to a window that began a full length earlier. */
  lemma {:induction false} WindowsAreApart(p: Policy, cs: seq<Bill>, n: nat)
    requires IsRun(p, cs) && n < |cs| && Opening(p, cs, n) > 0
    ensures var o := Opening(p, cs, n); cs[o].now - Begin(cs, Opening(p, cs, o - 1)) >= p.window
  {
    if Opening(p, cs, n) < n { WindowsAreApart(p, cs, n - 1); }
  }

  lemma BeginsAfter(p: Policy, cs: seq<Bill>, i: nat, q: nat)
    requires IsRun(p, cs) && i < |cs| && q < |cs|
    ensures i <= q ==> cs[i].now <= Begin(cs, q)
  {
    assert i < q ==> cs[i].created <= cs[q].now;
  }

  /** At most one window opens within a span shorter than the window. */
  lemma OpensOnce(p: Policy, cs: seq<Bill>, i: nat, n: nat)
    requires IsRun(p, cs) && i <= n < |cs| && cs[n].now - cs[i].now < p.window && Opening(p, cs, n) > i
    ensures Opening(p, cs, Opening(p, cs, n) - 1) <= i
  {
    var o := Opening(p, cs, n);
    var q := Opening(p, cs, o - 1);
    WindowsAreApart(p, cs, n);
    assert o < n ==> cs[o].created <= cs[n].now;
    BeginsAfter(p, cs, i, q);
  }

  /** Any span of time shorter than the window admits at most twice the budget. */
  lemma {:induction false} TwiceTheBudget(p: Policy, cs: seq<Bill>, i: nat, n: nat)
    requires IsRun(p, cs) && i <= n < |cs| && cs[n].now - cs[i].now < p.window
    ensures Spent(p, cs, i, n + 1) <= 2.0 * p.budget
  {
    var o := Opening(p, cs, n);
    if o <= i {
      WindowBound(p, cs, i, n);
    } else {
      OpensOnce(p, cs, i, n);
      WindowBound(p, cs, i, o - 1);
      WindowBound(p, cs, o, n);
      SpentSplits(p, cs, i, o, n + 1);
    }
  }

  /** Twice is reached: the window begins with the first charge and does not roll, so a budget spent at its end and a
      budget spent right after both count, however close together they come. */
  lemma TwiceIsReached(p: Policy, eps: real)
    requires p.budget >= 0.0 && 0.0 < eps < p.window
    ensures var cs := [Bill(0.0, 0.0, 0.0), Bill(p.budget, p.window - eps, p.window - eps),
                       Bill(p.budget, p.window, p.window)];
            IsRun(p, cs) && cs[2].now - cs[1].now == eps && Spent(p, cs, 1, 3) == 2.0 * p.budget
  {
    var cs := [Bill(0.0, 0.0, 0.0), Bill(p.budget, p.window - eps, p.window - eps),
               Bill(p.budget, p.window, p.window)];
    assert Opening(p, cs, 0) == 0 && Opening(p, cs, 1) == 0 && Opening(p, cs, 2) == 2;
    AdmittedIffWindowHasRoom(p, cs, 0);
    AdmittedIffWindowHasRoom(p, cs, 1);
    AdmittedIffWindowHasRoom(p, cs, 2);
    assert Spent(p, cs, 0, 1) == 0.0;
    assert Spent(p, cs, 1, 2) == p.budget;
  }

  // --------------------------------------- when the budget holds for a rolling window

  /** The same charges at the same times, whatever they cost. */
  ghost predicate SameClock(cs: seq<Bill>, ds: seq<Bill>) {
    |cs| == |ds| && forall j :: 0 <= j < |cs| ==> cs[j].created == ds[j].created && cs[j].now == ds[j].now
  }

  lemma {:induction false} OpeningByClock(p: Policy, cs: seq<Bill>, ds: seq<Bill>, n: nat)
    requires SameClock(cs, ds) && n < |cs|
    ensures Opening(p, cs, n) == Opening(p, ds, n)
  {
    if n > 0 { OpeningByClock(p, cs, ds, n - 1); }
  }

  lemma {:induction false} OpeningOpensItself(p: Policy, cs: seq<Bill>, n: nat)
    requires n < |cs|
    ensures Opening(p, cs, Opening(p, cs, n)) == Opening(p, cs, n)
  {
    if Opening(p, cs, n) < n { OpeningOpensItself(p, cs, n - 1); }
  }

  /** On the clock of `cs`, charges `o - 1` and `o` cost the whole budget and all others nothing. */
  ghost predicate SpendsAround(p: Policy, cs: seq<Bill>, o: nat, ds: seq<Bill>) {
    && SameClock(cs, ds)
    && forall j :: 0 <= j < |ds| ==> ds[j].cost == if j == o || j + 1 == o then p.budget else 0.0
  }

  lemma {:induction false} SpendingAroundExists(p: Policy, cs: seq<Bill>, o: nat, m: nat)
    requires m <= |cs|
    ensures exists ds :: SpendsAround(p, cs[..m], o, ds)
  {
    if m == 0 {
      assert SpendsAround(p, cs[..m], o, []);
    } else {
      SpendingAroundExists(p, cs, o, m - 1);
      var ds :| SpendsAround(p, cs[..m - 1], o, ds);
      var last := Bill(if m - 1 == o || m == o then p.budget else 0.0, cs[m - 1].created, cs[m - 1].now);
      assert SpendsAround(p, cs[..m], o, ds + [last]);
    }
  }

  lemma {:induction false} NothingSpent(p: Policy, cs: seq<Bill>, i: nat, n: nat)
    requires i <= n <= |cs| && forall j :: i <= j < n ==> cs[j].cost == 0.0
    ensures Spent(p, cs, i, n) == 0.0
    decreases n
  {
    if i < n { NothingSpent(p, cs, i, n - 1); }
  }

  lemma FirstSpendingAdmitted(p: Policy, ds: seq<Bill>, j: nat)
    requires IsRun(p, ds) && j < |ds| && ds[j].cost == p.budget
    requires forall m :: Opening(p, ds, j) <= m < j ==> ds[m].cost == 0.0
    ensures Spent(p, ds, j, j + 1) == p.budget
  {
    NothingSpent(p, ds, Opening(p, ds, j), j);
    AdmittedIffWindowHasRoom(p, ds, j);
    assert Spent(p, ds, j, j) == 0.0;
  }

  lemma SpendingAroundRuns(p: Policy, cs: seq<Bill>, o: nat, ds: seq<Bill>)
    requires IsRun(p, cs) && SpendsAround(p, cs, o, ds)
    ensures IsRun(p, ds)
  {
  }

  lemma BothAdmitted(p: Policy, cs: seq<Bill>, o: nat, ds: seq<Bill>)
    requires IsRun(p, cs) && 0 < o < |cs| && Opening(p, cs, o) == o && SpendsAround(p, cs, o, ds)
    ensures IsRun(p, ds) && Spent(p, ds, o - 1, o) == p.budget && Spent(p, ds, o, o + 1) == p.budget
  {
    SpendingAroundRuns(p, cs, o, ds);
    OpeningByClock(p, cs, ds, o);
    FirstSpendingAdmitted(p, ds, o);
    FirstSpendingAdmitted(p, ds, o - 1);
  }

  lemma SpentGrows(p: Policy, cs: seq<Bill>, i: nat, a: nat, b: nat, n: nat)
    requires IsRun(p, cs) && i <= a <= b <= n <= |cs|
    ensures Spent(p, cs, a, b) <= Spent(p, cs, i, n)
  {
    SpentSplits(p, cs, i, a, n);
    SpentSplits(p, cs, a, b, n);
    SpentNonNegative(p, cs, i, a);
    SpentNonNegative(p, cs, b, n);
  }

  /** A window that opens inside a span lets the span spend twice the budget. */
  lemma OpeningInsideSpendsTwice(p: Policy, cs: seq<Bill>, i: nat, n: nat, ds: seq<Bill>)
    requires IsRun(p, cs) && i <= n < |cs| && Opening(p, cs, n) > i && SpendsAround(p, cs, Opening(p, cs, n), ds)
    ensures IsRun(p, ds) && Spent(p, ds, i, n + 1) >= 2.0 * p.budget
  {
    var o := Opening(p, cs, n);
    OpeningOpensItself(p, cs, n);
    BothAdmitted(p, cs, o, ds);
    SpentSplits(p, ds, o - 1, o, o + 1);
    SpentGrows(p, ds, i, o - 1, o + 1, n + 1);
  }

  lemma {:induction false} NoBudgetNothingSpent(p: Policy, cs: seq<Bill>, i: nat, n: nat)
    requires IsRun(p, cs) && p.budget == 0.0 && i <= n <= |cs|
    ensures Spent(p, cs, i, n) == 0.0
    decreases n
  {
    if i < n {
      NoBudgetNothingSpent(p, cs, i, n - 1);
      AdmittedIffWindowHasRoom(p, cs, n - 1);
      SpentNonNegative(p, cs, Opening(p, cs, n - 1), n - 1);
    }
  }

  /** The exact condition for the documented rolling budget, told from the clock alone: a span keeps the budget whatever
      its charges cost if and only if no window opens inside it (or there is nothing to spend at all). */
  lemma RollingIff(p: Policy, cs: seq<Bill>, i: nat, n: nat)
    requires IsRun(p, cs) && i <= n < |cs|
    ensures (forall ds :: SameClock(cs, ds) && IsRun(p, ds) ==> Spent(p, ds, i, n + 1) <= p.budget) <==>
            Opening(p, cs, n) <= i || p.budget == 0.0
  {
    if Opening(p, cs, n) <= i || p.budget == 0.0 {
      forall ds | SameClock(cs, ds) && IsRun(p, ds)
        ensures Spent(p, ds, i, n + 1) <= p.budget
      {
        OpeningByClock(p, cs, ds, n);
        if p.budget == 0.0 { NoBudgetNothingSpent(p, ds, i, n + 1); } else { WindowBound(p, ds, i, n); }
      }
    } else {
      assert cs[..|cs|] == cs;
      SpendingAroundExists(p, cs, Opening(p, cs, n), |cs|);
      var ds :| SpendsAround(p, cs, Opening(p, cs, n), ds);
      OpeningInsideSpendsTwice(p, cs, i, n, ds);
    }
  }

  // ---------------------------------------------------- rejections and reads

  /** A rejected charge that fits the budget succeeds at the advised time, if nothing else is charged meanwhile, exactly
      when the time left is a whole number of seconds or at most one: the fraction is dropped, not rounded up. */
  lemma RetryAfterSufficesIff(p: Policy, u: Option<Usage>, c: Bill)
    requires p.window > 0.0 && Charged(p, u, c).1.Rejected? && c.cost <= p.budget
    ensures var (s, a) := Charged(p, u, c);
            var left := p.window - (c.now - s.start);
            var again := c.now + a.retryAfter as real;
            Charged(p, Some(s), Bill(c.cost, again, again)).1.Admitted? <==> left <= 1.0 || left == left.Floor as real
  {
    var s := Charged(p, u, c).0;
    var left := p.window - (c.now - s.start);
    assert left > 0.0;
  }

  /** `remaining` tells exactly which charges the same instant would admit. */
  lemma RemainingIsExact(p: Policy, u: Option<Usage>, cost: real, created: real, now: real)
    requires p.budget >= 0.0 && cost >= 0.0 && (u.Some? ==> u.value.cost <= p.budget)
    ensures Charged(p, u, Bill(cost, created, now)).1.Admitted? <==> cost <= Peeked(p, u, now).1
  {
  }

  /** On a known tenant reading what remains is recorded like a charge of nothing; but a read of an expired window opens
      the next one, and only then can it change later answers. */
  lemma PeekIsZeroCharge(p: Policy, u: Usage, now: real)
    requires u.cost <= p.budget && p.budget >= 0.0
    ensures Peeked(p, Some(u), now).0 == Some(Charged(p, Some(u), Bill(0.0, now, now)).0)
    ensures Peeked(p, Some(u), now).0 == Some(u) <==>
            now - u.start < p.window || u == Usage(now, 0.0)
  {
  }

  // ------------------------------------------------------- many requests

  /** What a tenant may ask: to be charged, or what remains. */
  datatype Demand = Pay(bill: Bill) | Ask(now: real)

  datatype Reply = Paid(result: Result<real, int>) | Told(left: real)

  function QuotaStep(u: Option<Usage>, r: (Policy, Demand)): (Option<Usage>, Reply) {
    match r.1
    case Pay(bill) =>
      var (s, a) := Charged(r.0, u, bill);
      (Some(s), Paid(Raised(a)))
    case Ask(now) =>
      var (s, left) := Peeked(r.0, u, now);
      (s, Told(left))
  }

  ghost function UnderPolicy(p: Policy, reqs: seq<Request<Demand>>): (rs: seq<Request<(Policy, Demand)>>)
    ensures |rs| == |reqs|
    ensures forall i :: 0 <= i < |reqs| ==> rs[i] == Request(reqs[i].tenant, (p, reqs[i].body))
  {
    if reqs == [] then []
    else
      var n := |reqs| - 1;
      UnderPolicy(p, reqs[..n]) + [Request(reqs[n].tenant, (p, reqs[n].body))]
  }

  method Demanded(tracker: QuotaTracker, tenant: string, d: Demand) returns (reply: Reply)
    requires tracker.Valid()
    modifies tracker`usage, tracker.usage.Values
    ensures tracker.Valid() && fresh(tracker.usage.Values - old(tracker.usage.Values))
    ensures var (s, r) := QuotaStep(Lookup(old(tracker.Views()), tenant), (tracker.OwnPolicy(), d));
            reply == r && tracker.Views() == Put(old(tracker.Views()), tenant, s)
  {
    match d
    case Pay(bill) =>
      var result := tracker.Charge(tenant, bill.cost, bill.created, bill.now);
      reply := Paid(result);
    case Ask(now) =>
      var left := tracker.Remaining(tenant, now);
      reply := Told(left);
  }

  /** A tracker that serves many tenants, charges and reads alike, answers each as if its requests came alone. */
  method TrackAll(tracker: QuotaTracker, reqs: seq<Request<Demand>>) returns (answers: seq<Reply>)
    requires tracker.Valid()
    modifies tracker`usage, tracker.usage.Values
    ensures tracker.Valid() && |answers| == |reqs|
    ensures answers == Answers(QuotaStep, UnderPolicy(tracker.OwnPolicy(), reqs), old(tracker.Views()))
    ensures var rs := UnderPolicy(tracker.OwnPolicy(), reqs);
            forall k :: Picked(rs, answers, k) == Answers(QuotaStep, Own(rs, k), old(tracker.Views()))
  {
    ghost var rs, before := UnderPolicy(tracker.OwnPolicy(), reqs), tracker.Views();
    answers := [];
    assert rs[0..] == rs;
    for i := 0 to |reqs|
      invariant tracker.Valid() && fresh(tracker.usage.Values - old(tracker.usage.Values))
      invariant |answers| == i
      invariant Answers(QuotaStep, rs, before) == answers + Answers(QuotaStep, rs[i..], tracker.Views())
    {
      ghost var m := tracker.Views();
      var reply := Demanded(tracker, reqs[i].tenant, reqs[i].body);
      assert rs[i..][0] == rs[i] && rs[i..][1..] == rs[i + 1..];
      AnswersStep(QuotaStep, rs[i..], m, answers, reply, tracker.Views());
      answers := answers + [reply];
    }
    assert rs[|reqs|..] == [];
    AllServed(QuotaStep, rs, before, answers, tracker.Views());
  }

  /** A request to the accountant, which reads the clock once. */
  datatype Expense = Expense(cost: real, now: real)

  ghost function Accounts(accountant: RequestCostAccountant, reqs: seq<Request<Expense>>):
    (rs: seq<Request<(Policy, Demand)>>)
    ensures |rs| == |reqs|
    ensures forall i :: 0 <= i < |reqs| ==> var b := reqs[i].body; rs[i] == Request(
      reqs[i].tenant, (accountant.PolicyFor(reqs[i].tenant), Pay(Bill(b.cost, b.now, b.now))))
  {
    if reqs == [] then []
    else
      var n := |reqs| - 1;
      var b := reqs[n].body;
      Accounts(accountant, reqs[..n]) + [Request(
        reqs[n].tenant, (accountant.PolicyFor(reqs[n].tenant), Pay(Bill(b.cost, b.now, b.now))))]
  }

  /** The same for the accountant, under each tenant's own budget. */
  method AccountAll(accountant: RequestCostAccountant, reqs: seq<Request<Expense>>) returns (answers: seq<Reply>)
    modifies accountant
    ensures |answers| == |reqs|
    ensures answers == Answers(QuotaStep, Accounts(accountant, reqs), old(accountant.state))
    ensures var rs := Accounts(accountant, reqs);
            forall k :: Picked(rs, answers, k) == Answers(QuotaStep, Own(rs, k), old(accountant.state))
  {
    ghost var rs, before := Accounts(accountant, reqs), accountant.state;
    answers := [];
    assert rs[0..] == rs;
    for i := 0 to |reqs|
      invariant |answers| == i
      invariant Answers(QuotaStep, rs, before) == answers + Answers(QuotaStep, rs[i..], accountant.state)
    {
      ghost var m := accountant.state;
      var result := accountant.Charge(reqs[i].tenant, reqs[i].body.cost, reqs[i].body.now);
      assert rs[i..][0] == rs[i] && rs[i..][1..] == rs[i + 1..];
      AnswersStep(QuotaStep, rs[i..], m, answers, Paid(result), accountant.state);
      answers := answers + [Paid(result)];
    }
    assert rs[|reqs|..] == [];
    AllServed(QuotaStep, rs, before, answers, accountant.state);
  }

  /** Each tenant gets the answers it would get if its requests came alone to a fresh budget. */
  lemma ChargesAreIsolated(reqs: seq<Request<(Policy, Demand)>>, k: string)
    ensures Picked(reqs, Answers(QuotaStep, reqs, map[]), k) == Answers(QuotaStep, Own(reqs, k), map[])
  {
    TenantsAreIsolated(QuotaStep, reqs, map[], map[], k);
  }
}
