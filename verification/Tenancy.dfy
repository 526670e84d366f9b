/** Keyed state: what it means that tenants, or asset pairs, do not influence each other. */
module Tenancy {
  import opened Common

  datatype Request<+R> = Request(tenant: string, body: R)

  function Put<S>(m: map<string, S>, k: string, s: Option<S>): map<string, S> {
    if s.None? then m else m[k := s.value]
  }

  /** The answers to all requests, served one after the other; each touches only its tenant's entry. */
  ghost function Answers<S, R, A>(
    step: (Option<S>, R) -> (Option<S>, A), reqs: seq<Request<R>>, m: map<string, S>): (answers: seq<A>)
    ensures |answers| == |reqs|
  {
    if reqs == [] then []
    else
      var (s, a) := step(Lookup(m, reqs[0].tenant), reqs[0].body);
      [a] + Answers(step, reqs[1..], Put(m, reqs[0].tenant, s))
  }

  ghost function Own<R>(reqs: seq<Request<R>>, k: string): seq<Request<R>> {
    if reqs == [] then []
    else if reqs[0].tenant == k then [reqs[0]] + Own(reqs[1..], k)
    else Own(reqs[1..], k)
  }

  /** Those of the answers that go to tenant `k`. */
  ghost function Picked<R, A>(reqs: seq<Request<R>>, answers: seq<A>, k: string): seq<A>
    requires |reqs| == |answers|
  {
    if reqs == [] then []
    else if reqs[0].tenant == k then [answers[0]] + Picked(reqs[1..], answers[1..], k)
    else Picked(reqs[1..], answers[1..], k)
  }

  /** They are the answers it would get if only its own requests were made. */
  lemma {:induction false} TenantsAreIsolated<S, R, A>(
    step: (Option<S>, R) -> (Option<S>, A), reqs: seq<Request<R>>, m: map<string, S>, alone: map<string, S>, k: string)
    requires Lookup(m, k) == Lookup(alone, k)
    ensures Picked(reqs, Answers(step, reqs, m), k) == Answers(step, Own(reqs, k), alone)
    decreases |reqs|
  {
    if reqs != [] {
      var r := reqs[0];
      var (s, a) := step(Lookup(m, r.tenant), r.body);
      assert Answers(step, reqs, m)[1..] == Answers(step, reqs[1..], Put(m, r.tenant, s));
      if r.tenant == k {
        TenantsAreIsolated(step, reqs[1..], Put(m, k, s), Put(alone, k, s), k);
        assert Own(reqs, k)[1..] == Own(reqs[1..], k);
      } else {
        TenantsAreIsolated(step, reqs[1..], Put(m, r.tenant, s), alone, k);
      }
    }
  }

  /** The entries after all requests. */
  ghost function After<S, R, A>(
    step: (Option<S>, R) -> (Option<S>, A), reqs: seq<Request<R>>, m: map<string, S>): map<string, S>
  {
    if reqs == [] then m
    else After(step, reqs[1..], Put(m, reqs[0].tenant, step(Lookup(m, reqs[0].tenant), reqs[0].body).0))
  }

  /** One request served: the answers so far, and those still to come from the state it leaves. */
  lemma AnswersStep<S, R, A>(
    step: (Option<S>, R) -> (Option<S>, A), reqs: seq<Request<R>>, m: map<string, S>, done: seq<A>, a: A,
    next: map<string, S>)
    requires reqs != []
    requires var (s, b) := step(Lookup(m, reqs[0].tenant), reqs[0].body); a == b && next == Put(m, reqs[0].tenant, s)
    ensures done + Answers(step, reqs, m) == (done + [a]) + Answers(step, reqs[1..], next)
    ensures After(step, reqs, m) == After(step, reqs[1..], next)
  {
  }

  /** Once all requests are served: nothing is still to come, and every tenant has its own answers. */
  lemma AllServed<S, R, A>(
    step: (Option<S>, R) -> (Option<S>, A), reqs: seq<Request<R>>, m: map<string, S>, answers: seq<A>,
    last: map<string, S>)
    requires Answers(step, reqs, m) == answers + Answers(step, [], last)
    ensures answers == Answers(step, reqs, m)
    ensures |answers| == |reqs| && forall k :: Picked(reqs, answers, k) == Answers(step, Own(reqs, k), m)
  {
    assert answers + [] == answers;
    forall k
      ensures Picked(reqs, answers, k) == Answers(step, Own(reqs, k), m)
    {
      TenantsAreIsolated(step, reqs, m, m, k);
    }
  }

  lemma {:induction false} OwnAreOf<R>(reqs: seq<Request<R>>, k: string)
    ensures forall j :: 0 <= j < |Own(reqs, k)| ==> Own(reqs, k)[j].tenant == k
  {
    if reqs != [] { OwnAreOf(reqs[1..], k); }
  }

  /** Request `j` leads to the next state, and takes none away. */
  ghost predicate Leads<S, R, A>(
    step: (Option<S>, R) -> (Option<S>, A), reqs: seq<Request<R>>, ss: seq<Option<S>>, j: nat)
    requires j < |reqs| < |ss|
  {
    ss[j + 1] == step(ss[j], reqs[j].body).0 && (ss[j + 1].None? ==> ss[j].None?)
  }

  /** The states a tenant goes through when all requests are its own. */
  ghost predicate AreStates<S, R, A>(
    step: (Option<S>, R) -> (Option<S>, A), reqs: seq<Request<R>>, k: string, ss: seq<Option<S>>)
  {
    && |ss| == |reqs| + 1 && (forall j :: 0 <= j < |reqs| ==> reqs[j].tenant == k)
    && forall j :: 0 <= j < |reqs| ==> Leads(step, reqs, ss, j)
  }

  /** Then each answer is told by the state before it. */
  lemma {:induction false} AnswersByState<S, R, A>(
    step: (Option<S>, R) -> (Option<S>, A), reqs: seq<Request<R>>, m: map<string, S>, k: string, ss: seq<Option<S>>)
    requires AreStates(step, reqs, k, ss) && ss[0] == Lookup(m, k)
    ensures forall j :: 0 <= j < |reqs| ==> Answers(step, reqs, m)[j] == step(ss[j], reqs[j].body).1
    decreases |reqs|
  {
    if reqs != [] {
      var next := Put(m, k, ss[1]);
      assert Leads(step, reqs, ss, 0);
      assert Answers(step, reqs, m)[1..] == Answers(step, reqs[1..], next);
      forall j | 0 <= j < |reqs| - 1
        ensures Leads(step, reqs[1..], ss[1..], j)
      {
        assert Leads(step, reqs, ss, j + 1);
      }
      AnswersByState(step, reqs[1..], next, k, ss[1..]);
      forall j | 0 <= j < |reqs|
        ensures Answers(step, reqs, m)[j] == step(ss[j], reqs[j].body).1
      {
        if j > 0 { assert Answers(step, reqs, m)[j] == Answers(step, reqs[1..], next)[j - 1]; }
      }
    }
  }

  /** A tenant's entry is the last state of its own requests, whatever others ask. */
  lemma {:induction false} AfterByState<S, R, A>(
    step: (Option<S>, R) -> (Option<S>, A), reqs: seq<Request<R>>, m: map<string, S>, k: string, ss: seq<Option<S>>)
    requires AreStates(step, Own(reqs, k), k, ss) && ss[0] == Lookup(m, k)
    ensures Lookup(After(step, reqs, m), k) == ss[|ss| - 1]
    decreases |reqs|
  {
    if reqs != [] {
      var r := reqs[0];
      var next := Put(m, r.tenant, step(Lookup(m, r.tenant), r.body).0);
      if r.tenant == k {
        var own := Own(reqs, k);
        assert Leads(step, own, ss, 0) && own[1..] == Own(reqs[1..], k);
        forall j | 0 <= j < |own| - 1
          ensures Leads(step, own[1..], ss[1..], j)
        {
          assert Leads(step, own, ss, j + 1);
        }
        AfterByState(step, reqs[1..], next, k, ss[1..]);
      } else {
        AfterByState(step, reqs[1..], next, k, ss);
      }
    }
  }
}
