/** The bounds of the cost budgets, for each tenant of a tracker that serves charges and reads of many
    (api/__init__.py, lines 111-163; api/app.py, lines 240-291). */
module TenantBudgets {
  import opened Common
  import opened Quotas
  import opened Tenancy

  /** A read is like a charge of nothing. */
  function BillOf(d: Demand): Bill {
    match d
    case Pay(bill) => bill
    case Ask(now) => Bill(0.0, now, now)
  }

  ghost function Bills(ds: seq<Demand>): (cs: seq<Bill>)
    ensures |cs| == |ds| && forall j :: 0 <= j < |ds| ==> cs[j] == BillOf(ds[j])
  {
    seq(|ds|, j requires 0 <= j < |ds| => BillOf(ds[j]))
  }

  /** The demands of a tenant from its first charge on; reads before it are dropped, see `LeadingReads`. */
  ghost predicate AreDemands(p: Policy, ds: seq<Demand>) {
    IsRun(p, Bills(ds)) && (ds != [] ==> ds[0].Pay?)
  }

  // ----------------------------------------------------- one tenant's replies

  ghost function Alone(p: Policy, ds: seq<Demand>, k: string): (rs: seq<Request<(Policy, Demand)>>)
    ensures |rs| == |ds| && forall j :: 0 <= j < |ds| ==> rs[j] == Request(k, (p, ds[j]))
  {
    seq(|ds|, j requires 0 <= j < |ds| => Request(k, (p, ds[j])))
  }

  ghost function Replies(p: Policy, ds: seq<Demand>, k: string): (replies: seq<Reply>)
    ensures |replies| == |ds|
  {
    Answers(QuotaStep, Alone(p, ds, k), map[])
  }

  /** Reads of a tenant that has not been charged yet are told the whole budget, and leave no trace. */
  lemma {:induction false} LeadingReads(p: Policy, peeks: seq<Demand>, ds: seq<Demand>, k: string)
    requires forall j :: 0 <= j < |peeks| ==> peeks[j].Ask?
    ensures Replies(p, peeks + ds, k)[|peeks|..] == Replies(p, ds, k)
    ensures forall j :: 0 <= j < |peeks| ==> Replies(p, peeks + ds, k)[j] == Told(p.budget)
  {
    if peeks == [] {
      assert peeks + ds == ds;
    } else {
      LeadingReads(p, peeks[1..], ds, k);
      assert (peeks + ds)[1..] == peeks[1..] + ds;
      assert Alone(p, peeks + ds, k)[1..] == Alone(p, peeks[1..] + ds, k);
      assert Replies(p, peeks + ds, k) == [Told(p.budget)] + Replies(p, peeks[1..] + ds, k);
    }
  }

  lemma RecordedWithinBudget(p: Policy, cs: seq<Bill>, n: nat)
    requires IsRun(p, cs) && 0 < n <= |cs|
    ensures Usages(p, cs)[n].Some? && Usages(p, cs)[n].value.cost <= p.budget
  {
    UsageIsSpentInWindow(p, cs, n - 1);
  }

  lemma StepIsCharge(p: Policy, u: Option<Usage>, d: Demand)
    requires p.budget >= 0.0 && (d.Ask? ==> u.Some? && u.value.cost <= p.budget)
    ensures var (s, a) := Charged(p, u, BillOf(d));
            QuotaStep(u, (p, d)).0 == Some(s) && (d.Pay? ==> QuotaStep(u, (p, d)).1 == Paid(Raised(a)))
  {
    if d.Ask? { PeekIsZeroCharge(p, u.value, d.now); }
  }

  ghost predicate IsPaid(reply: Reply) { reply.Paid? && reply.result.Ok? }

  lemma RecordStep(p: Policy, ds: seq<Demand>, k: string, j: nat)
    requires AreDemands(p, ds) && j < |ds|
    ensures var us := Usages(p, Bills(ds));
            && Leads(QuotaStep, Alone(p, ds, k), us, j)
            && (ds[j].Pay? ==> (IsPaid(QuotaStep(us[j], (p, ds[j])).1) <==> IsAdmitted(p, Bills(ds), j)))
  {
    if j > 0 { RecordedWithinBudget(p, Bills(ds), j); }
    StepIsCharge(p, Usages(p, Bills(ds))[j], ds[j]);
    assert Follows(p, Usages(p, Bills(ds)), Bills(ds), j);
  }

  /** A tenant's charge is paid exactly if it is admitted in the run of its own charges and reads. */
  lemma PaidIffAdmitted(p: Policy, ds: seq<Demand>, k: string, j: nat)
    requires AreDemands(p, ds) && j < |ds| && ds[j].Pay?
    ensures IsPaid(Replies(p, ds, k)[j]) <==> IsAdmitted(p, Bills(ds), j)
  {
    var us, own := Usages(p, Bills(ds)), Alone(p, ds, k);
    forall i | 0 <= i < |own|
      ensures Leads(QuotaStep, own, us, i)
    {
      RecordStep(p, ds, k, i);
    }
    assert AreStates(QuotaStep, own, k, us);
    AnswersByState(QuotaStep, own, map[], k, us);
    RecordStep(p, ds, k, j);
  }

  /** What the demands at positions i, ..., n - 1 have paid. */
  ghost function PaidIn(ds: seq<Demand>, replies: seq<Reply>, i: nat, n: nat): real
    requires i <= n <= |ds| == |replies|
    decreases n
  {
    if i == n then 0.0
    else PaidIn(ds, replies, i, n - 1) +
         if ds[n - 1].Pay? && IsPaid(replies[n - 1]) then ds[n - 1].bill.cost else 0.0
  }

  lemma PaidStep(p: Policy, ds: seq<Demand>, k: string, i: nat, n: nat)
    requires AreDemands(p, ds) && i <= n < |ds|
    ensures var cs := Bills(ds);
            && Spent(p, cs, i, n + 1) == Spent(p, cs, i, n) + (if IsAdmitted(p, cs, n) then cs[n].cost else 0.0)
            && PaidIn(ds, Replies(p, ds, k), i, n + 1) ==
               PaidIn(ds, Replies(p, ds, k), i, n) + if IsAdmitted(p, cs, n) then cs[n].cost else 0.0
  {
    if ds[n].Pay? { PaidIffAdmitted(p, ds, k, n); }
  }

  lemma {:induction false} PaidIsSpent(p: Policy, ds: seq<Demand>, k: string, i: nat, n: nat)
    requires AreDemands(p, ds) && i <= n <= |ds|
    ensures PaidIn(ds, Replies(p, ds, k), i, n) == Spent(p, Bills(ds), i, n)
    decreases n
  {
    if i < n {
      PaidIsSpent(p, ds, k, i, n - 1);
      PaidStep(p, ds, k, i, n - 1);
    }
  }

  /** Whatever other tenants ask, and however the tenant itself mixes charges and reads: within any span shorter than
      the window it pays at most twice its budget. */
  lemma EachTenantPaysAtMostTwice(
    p: Policy, reqs: seq<Request<(Policy, Demand)>>, k: string, peeks: seq<Demand>, ds: seq<Demand>, i: nat, n: nat)
    requires Own(reqs, k) == Alone(p, peeks + ds, k) && (forall j :: 0 <= j < |peeks| ==> peeks[j].Ask?)
    requires AreDemands(p, ds) && i <= n < |ds| && BillOf(ds[n]).now - BillOf(ds[i]).now < p.window
    ensures var replies := Picked(reqs, Answers(QuotaStep, reqs, map[]), k);
            && |replies| == |peeks| + |ds|
            && PaidIn(ds, replies[|peeks|..], i, n + 1) <= 2.0 * p.budget
  {
    ChargesAreIsolated(reqs, k);
    LeadingReads(p, peeks, ds, k);
    PaidIsSpent(p, ds, k, i, n + 1);
    TwiceTheBudget(p, Bills(ds), i, n);
  }

  // ----------------------------------------- the rolling window, with reads

  /** The same charges and reads at the same times, whatever the charges cost. */
  ghost predicate SameDemands(ds: seq<Demand>, es: seq<Demand>) {
    |ds| == |es| && (forall j :: 0 <= j < |ds| ==> (ds[j].Pay? <==> es[j].Pay?)) && SameClock(Bills(ds), Bills(es))
  }

  /** Two charges that belong to different windows. */
  ghost predicate Straddles(p: Policy, ds: seq<Demand>, a: nat, b: nat)
    requires a < b < |ds|
  {
    ds[a].Pay? && ds[b].Pay? && Opening(p, Bills(ds), b) > a
  }

  /** No two charges of the span do. */
  ghost predicate OneWindow(p: Policy, ds: seq<Demand>, i: nat, n: nat)
    requires n < |ds|
  {
    forall a, b :: i <= a < b <= n ==> !Straddles(p, ds, a, b)
  }

  ghost predicate IsFree(ds: seq<Demand>, j: nat) { j < |ds| && ds[j].Ask? }

  lemma {:induction false} OneWindowKeepsBudget(p: Policy, ds: seq<Demand>, i: nat, n: nat)
    requires IsRun(p, Bills(ds)) && i <= n < |ds| && OneWindow(p, ds, i, n)
    ensures Spent(p, Bills(ds), i, n + 1) <= p.budget
    decreases n - i
  {
    if i < n && IsFree(ds, i) {
      OneWindowKeepsBudget(p, ds, i + 1, n);
      FreeSpendsNothing(p, ds, i);
      SpentSplits(p, Bills(ds), i, i + 1, n + 1);
    } else if i < n && IsFree(ds, n) {
      OneWindowKeepsBudget(p, ds, i, n - 1);
      FreeSpendsNothing(p, ds, n);
      SpentSplits(p, Bills(ds), i, n, n + 1);
    } else {
      assert i < n ==> !Straddles(p, ds, i, n);
      WindowBound(p, Bills(ds), i, n);
    }
  }

  lemma FreeSpendsNothing(p: Policy, ds: seq<Demand>, j: nat)
    requires IsFree(ds, j)
    ensures Spent(p, Bills(ds), j, j + 1) == 0.0
  {
    assert Spent(p, Bills(ds), j, j) == 0.0;
  }

  /** The same demands, with all the budget charged at `a` and at `b` and nothing elsewhere. */
  ghost predicate AreRepriced(p: Policy, ds: seq<Demand>, a: nat, b: nat, es: seq<Demand>) {
    && SameDemands(ds, es)
    && forall j :: 0 <= j < |es| ==> Bills(es)[j].cost == if es[j].Pay? && (j == a || j == b) then p.budget else 0.0
  }

  function Repriced(d: Demand, cost: real): Demand {
    match d
    case Ask(_) => d
    case Pay(bill) => Pay(bill.(cost := cost))
  }

  lemma {:induction false} RepricedExist(p: Policy, ds: seq<Demand>, a: nat, b: nat) returns (es: seq<Demand>)
    ensures AreRepriced(p, ds, a, b, es)
  {
    es := [];
    if ds != [] {
      var n := |ds| - 1;
      es := RepricedExist(p, ds[..n], a, b);
      es := es + [Repriced(ds[n], if n == a || n == b then p.budget else 0.0)];
    }
  }

  lemma RepricedRun(p: Policy, ds: seq<Demand>, a: nat, b: nat, es: seq<Demand>)
    requires AreDemands(p, ds) && AreRepriced(p, ds, a, b, es)
    ensures AreDemands(p, es)
  {
    var cs, fs := Bills(ds), Bills(es);
    forall j | 0 <= j < |fs|
      ensures fs[j].cost >= 0.0 && fs[j].now == cs[j].now && fs[j].created == cs[j].created
    {
    }
  }

  lemma BothSpent(p: Policy, cs: seq<Bill>, i: nat, a: nat, b: nat, n: nat)
    requires IsRun(p, cs) && i <= a < b <= n < |cs|
    requires Spent(p, cs, a, a + 1) == p.budget && Spent(p, cs, b, b + 1) == p.budget
    ensures Spent(p, cs, i, n + 1) >= 2.0 * p.budget
  {
    SpentSplits(p, cs, i, b, n + 1);
    SpentGrows(p, cs, i, a, a + 1, b);
    SpentGrows(p, cs, b, b, b + 1, n + 1);
  }

  lemma BothAdmittedInFull(p: Policy, ds: seq<Demand>, a: nat, b: nat, es: seq<Demand>)
    requires AreDemands(p, ds) && a < b < |ds| && Straddles(p, ds, a, b) && AreRepriced(p, ds, a, b, es)
    ensures AreDemands(p, es)
    ensures Spent(p, Bills(es), a, a + 1) == p.budget && Spent(p, Bills(es), b, b + 1) == p.budget
  {
    RepricedRun(p, ds, a, b, es);
    OpeningByClock(p, Bills(ds), Bills(es), b);
    assert es[a].Pay? && es[b].Pay?;
    FirstSpendingAdmitted(p, Bills(es), a);
    FirstSpendingAdmitted(p, Bills(es), b);
  }

  lemma StraddlingPaysTwice(
    p: Policy, ds: seq<Demand>, k: string, i: nat, n: nat, a: nat, b: nat) returns (es: seq<Demand>)
    requires AreDemands(p, ds) && i <= a < b <= n < |ds| && Straddles(p, ds, a, b)
    ensures SameDemands(ds, es) && AreDemands(p, es)
    ensures PaidIn(es, Replies(p, es, k), i, n + 1) >= 2.0 * p.budget
  {
    es := RepricedExist(p, ds, a, b);
    BothAdmittedInFull(p, ds, a, b, es);
    BothSpent(p, Bills(es), i, a, b, n);
    PaidIsSpent(p, es, k, i, n + 1);
  }

  lemma KeepsBudgetToo(p: Policy, ds: seq<Demand>, es: seq<Demand>, i: nat, n: nat)
    requires SameDemands(ds, es) && IsRun(p, Bills(es)) && i <= n < |ds|
    requires p.budget == 0.0 || OneWindow(p, ds, i, n)
    ensures Spent(p, Bills(es), i, n + 1) <= p.budget
  {
    if p.budget == 0.0 {
      NoBudgetNothingSpent(p, Bills(es), i, n + 1);
    } else {
      forall a: nat, b: nat | i <= a < b <= n
        ensures !Straddles(p, es, a, b)
      {
        assert !Straddles(p, ds, a, b);
        OpeningByClock(p, Bills(ds), Bills(es), b);
      }
      OneWindowKeepsBudget(p, es, i, n);
    }
  }

  /** The rolling window of a tenant that charges and reads: a span keeps the budget whatever its charges cost if and
      only if no two charges in it belong to different windows (or there is nothing to spend). A window may well open
      inside the span, at a read or at a charge, as long as charges come only on one side of the opening. */
  lemma RollingIffWithReads(p: Policy, ds: seq<Demand>, k: string, i: nat, n: nat)
    requires AreDemands(p, ds) && i <= n < |ds|
    ensures (forall es :: SameDemands(ds, es) && AreDemands(p, es) ==>
               PaidIn(es, Replies(p, es, k), i, n + 1) <= p.budget) <==>
            p.budget == 0.0 || OneWindow(p, ds, i, n)
  {
    if p.budget == 0.0 || OneWindow(p, ds, i, n) {
      forall es | SameDemands(ds, es) && AreDemands(p, es)
        ensures PaidIn(es, Replies(p, es, k), i, n + 1) <= p.budget
      {
        PaidIsSpent(p, es, k, i, n + 1);
        KeepsBudgetToo(p, ds, es, i, n);
      }
    } else {
      var a: nat, b: nat :| i <= a < b <= n && Straddles(p, ds, a, b);
      var es := StraddlingPaysTwice(p, ds, k, i, n, a, b);
    }
  }

  // ------------------------------------------------------- what is answered

  /** A window begins when a tenant's record is made, and again with each charge that comes a full window after the last
      beginning. */
  lemma WindowsBegin(p: Policy, cs: seq<Bill>, n: nat)
    requires IsRun(p, cs) && n < |cs|
    ensures Usages(p, cs)[n + 1].Some? && (n > 0 ==> Usages(p, cs)[n].Some?)
    ensures var start := Usages(p, cs)[n + 1].value.start;
            if n == 0 then start == cs[0].created
            else
              var before := Usages(p, cs)[n].value.start;
              start == if cs[n].now - before >= p.window then cs[n].now else before
  {
    assert Follows(p, Usages(p, cs), cs, n);
    if n > 0 { assert Follows(p, Usages(p, cs), cs, n - 1); }
  }

  /** An admitted charge is answered with what the window has left after it, a rejected one with the whole seconds until
      the window ends, and one second if it is less. */
  lemma AnswerTellsWindow(p: Policy, cs: seq<Bill>, n: nat)
    requires IsRun(p, cs) && n < |cs|
    ensures var o, answer := Opening(p, cs, n), Charged(p, Usages(p, cs)[n], cs[n]).1;
            var left := p.window - (cs[n].now - Begin(cs, o));
            match answer
            case Admitted(remaining) => remaining == p.budget - Spent(p, cs, o, n + 1) >= 0.0
            case Rejected(after) =>
              after >= 1 && left < after as real + 1.0 && (after == 1 || after as real <= left)
  {
    UsageIsSpentInWindow(p, cs, n);
    if IsAdmitted(p, cs, n) {
      var o := Opening(p, cs, n);
      assert Spent(p, cs, o, n + 1) == Spent(p, cs, o, n) + cs[n].cost;
    }
  }

  // ---------------------------------------------------- the tracker's tenants

  lemma {:induction false} OwnDemands(p: Policy, rs: seq<Request<(Policy, Demand)>>, k: string)
    returns (ds: seq<Demand>)
    requires forall j :: 0 <= j < |rs| ==> rs[j].body.0 == p
    ensures Own(rs, k) == Alone(p, ds, k)
  {
    ds := [];
    if rs != [] {
      ds := OwnDemands(p, rs[1..], k);
      if rs[0].tenant == k {
        var more := [rs[0].body.1] + ds;
        assert Alone(p, more, k) == [rs[0]] + Alone(p, ds, k);
        ds := more;
      }
    }
  }

  /** What is proved here of a tenant's demands holds of each tenant of a tracker, under the tracker's budget per
      window. */
  lemma TrackedUnderBudget(tracker: QuotaTracker, reqs: seq<Request<Demand>>, k: string) returns (ds: seq<Demand>)
    ensures var rs, p := UnderPolicy(tracker.OwnPolicy(), reqs), Policy(tracker.budget, tracker.window);
            && Own(rs, k) == Alone(p, ds, k)
            && Picked(rs, Answers(QuotaStep, rs, map[]), k) == Replies(p, ds, k)
  {
    ds := OwnDemands(tracker.OwnPolicy(), UnderPolicy(tracker.OwnPolicy(), reqs), k);
    ChargesAreIsolated(UnderPolicy(tracker.OwnPolicy(), reqs), k);
  }

  // ------------------------------------------------- the accountant's tenants

  /** The budget of a tenant is its override, or the default if it has none or it is zero. */
  ghost predicate IsBudgetOf(accountant: RequestCostAccountant, k: string, budget: real) {
    if k in accountant.overrides && accountant.overrides[k] != 0.0 then budget == accountant.overrides[k]
    else budget == accountant.budget
  }

  lemma {:induction false} OwnAccounts(
    accountant: RequestCostAccountant, rs: seq<Request<(Policy, Demand)>>, k: string)
    requires forall j :: 0 <= j < |rs| ==> rs[j].body.0 == accountant.PolicyFor(rs[j].tenant) && rs[j].body.1.Pay?
    ensures forall j :: 0 <= j < |Own(rs, k)| ==>
              Own(rs, k)[j].body.0 == accountant.PolicyFor(k) && Own(rs, k)[j].body.1.Pay?
  {
    if rs != [] { OwnAccounts(accountant, rs[1..], k); }
  }

  lemma {:induction false} OwnOfOwn(rs: seq<Request<(Policy, Demand)>>, k: string)
    ensures Own(Own(rs, k), k) == Own(rs, k)
  {
    if rs != [] {
      OwnOfOwn(rs[1..], k);
      if rs[0].tenant == k { assert Own(rs, k)[1..] == Own(rs[1..], k); }
    }
  }

  /** And of each tenant of the accountant, under its own budget. */
  lemma ServedUnderOwnBudget(
    accountant: RequestCostAccountant, reqs: seq<Request<Expense>>, k: string, budget: real) returns (ds: seq<Demand>)
    requires IsBudgetOf(accountant, k, budget)
    ensures forall j :: 0 <= j < |ds| ==> ds[j].Pay?
    ensures var rs, p := Accounts(accountant, reqs), Policy(budget, accountant.window);
            && Own(rs, k) == Alone(p, ds, k)
            && Picked(rs, Answers(QuotaStep, rs, map[]), k) == Replies(p, ds, k)
  {
    var rs := Accounts(accountant, reqs);
    OwnAccounts(accountant, rs, k);
    OwnOfOwn(rs, k);
    ds := OwnDemands(accountant.PolicyFor(k), Own(rs, k), k);
    forall j | 0 <= j < |ds|
      ensures ds[j].Pay?
    {
      assert Own(rs, k)[j].body.1 == ds[j];
    }
    ChargesAreIsolated(rs, k);
  }
}
