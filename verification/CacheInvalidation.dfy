/** Dependency tracking and cascading invalidation (detection/cache_invalidation.py). */
module CacheInvalidation {
  import opened Common
  import opened Ordering

  type Key = string
  type Links = map<Key, set<Key>>

  // ------------------------------------------------------- dependency relation

  predicate Has<V>(links: map<Key, set<V>>, a: Key, b: V) {
    a in links && b in links[a]
  }

  /** `key` was computed directly from `source`; read off the derived-key side. */
  ghost predicate Edge(reverse: Links, source: Key, key: Key) {
    Has(reverse, key, source)
  }

  /** The two maps hold the same edges and no empty entries. */
  ghost predicate Converse(forward: Links, reverse: Links) {
    && (forall s, k :: Has(forward, s, k) <==> Has(reverse, k, s))
    && (forall s :: s in forward ==> forward[s] != {})
    && (forall k :: k in reverse ==> reverse[k] != {})
  }

  /** So the forward map never carries information of its own. */
  lemma ForwardDetermined(f1: Links, f2: Links, reverse: Links)
    requires Converse(f1, reverse) && Converse(f2, reverse)
    ensures f1 == f2
  {
    forall s
      ensures s in f1 <==> s in f2
    {
      if s in f1 { var k :| k in f1[s]; assert Has(f1, s, k) && Has(f2, s, k); }
      if s in f2 { var k :| k in f2[s]; assert Has(f2, s, k) && Has(f1, s, k); }
    }
    forall s | s in f1
      ensures f1[s] == f2[s]
    {
      forall k
        ensures k in f1[s] <==> k in f2[s]
      {
        assert Has(f1, s, k) <==> Has(f2, s, k);
      }
    }
  }

  /** A chain of `n` edges. */
  ghost predicate Leads(reverse: Links, s: Key, k: Key, n: nat)
    decreases n
  {
    if n == 0 then s == k else exists m :: Edge(reverse, s, m) && Leads(reverse, m, k, n - 1)
  }

  ghost predicate Affected(reverse: Links, s: Key, k: Key) {
    exists n :: n > 0 && Leads(reverse, s, k, n)
  }

  lemma {:induction false} LeadsOn(reverse: Links, s: Key, k: Key, n: nat, x: Key)
    requires Leads(reverse, s, k, n) && Edge(reverse, k, x)
    ensures Leads(reverse, s, x, n + 1)
    decreases n
  {
    if n == 0 {
      assert Leads(reverse, x, x, 0);
    } else {
      var m :| Edge(reverse, s, m) && Leads(reverse, m, k, n - 1);
      LeadsOn(reverse, m, k, n - 1, x);
    }
  }

  lemma DirectlyAffected(reverse: Links, s: Key, k: Key)
    requires Edge(reverse, s, k)
    ensures Affected(reverse, s, k)
  {
    LeadsOn(reverse, s, s, 0, k);
  }

  lemma AffectedOn(reverse: Links, s: Key, k: Key, x: Key)
    requires Affected(reverse, s, k) && Edge(reverse, k, x)
    ensures Affected(reverse, s, x)
  {
    var n :| n > 0 && Leads(reverse, s, k, n);
    LeadsOn(reverse, s, k, n, x);
  }

  lemma {:induction false} ClosedContains(reverse: Links, closed: set<Key>, s: Key, k: Key, n: nat)
    requires forall m, x :: m in closed && Edge(reverse, m, x) ==> x in closed
    requires s in closed && Leads(reverse, s, k, n)
    ensures k in closed
    decreases n
  {
    if n > 0 {
      var m :| Edge(reverse, s, m) && Leads(reverse, m, k, n - 1);
      ClosedContains(reverse, closed, m, k, n - 1);
    }
  }

  /** Every derived key that `s` affects, directly or through other derived keys. */
  ghost function Dependents(reverse: Links, s: Key): (r: set<Key>)
    ensures forall k :: k in r <==> Affected(reverse, s, k)
  {
    forall k | Affected(reverse, s, k)
      ensures k in reverse
    {
      AffectedIsRecorded(reverse, s, k);
    }
    set k | k in reverse && Affected(reverse, s, k)
  }

  lemma AffectedIsRecorded(reverse: Links, s: Key, k: Key)
    requires Affected(reverse, s, k)
    ensures k in reverse
  {
    var n :| n > 0 && Leads(reverse, s, k, n);
    var m :| Edge(reverse, s, m) && Leads(reverse, m, k, n - 1);
    ClosedContains(reverse, reverse.Keys, m, k, n - 1);
  }

  /** The edges after `key` is recorded anew with `sources`; without sources it drops out of the graph. */
  ghost function Recorded(reverse: Links, key: Key, sources: set<Key>): Links {
    if sources == {} then reverse - {key} else reverse[key := sources]
  }

  ghost function SetOf(s: seq<Key>): set<Key> {
    set x | x in s
  }

  function Get<V>(links: map<Key, set<V>>, k: Key): set<V> {
    if k in links then links[k] else {}
  }

  /** A new list in the arbitrary order in which Python iterates over a set. */
  method AnyOrder(s: set<Key>) returns (r: seq<Key>)
    ensures forall k :: k in r <==> k in s
  {
    r := [];
    var left := s;
    while left != {}
      invariant left <= s && forall k :: k in r <==> k in s && k !in left
      decreases left
    {
      var k :| k in left;
      r := r + [k];
      left := left - {k};
    }
  }

  class DependencyGraph {
    var forward: Links
    var reverse: Links

    ghost predicate Valid()
      reads this
    {
      Converse(forward, reverse)
    }

    constructor ()
      ensures Valid() && reverse == map[]
    {
      forward, reverse := map[], map[];
    }

    method AddEdge(derivedKey: Key, source: Key)
      requires Valid()
      modifies this
      ensures Valid()
      ensures reverse == old(reverse)[derivedKey := Get(old(reverse), derivedKey) + {source}]
    {
      forward := forward[source := Get(forward, source) + {derivedKey}];
      reverse := reverse[derivedKey := Get(reverse, derivedKey) + {source}];
      assert forall s, k :: Has(forward, s, k) <==> Has(old(forward), s, k) || (s == source && k == derivedKey);
      assert forall s, k :: Has(reverse, k, s) <==> Has(old(reverse), k, s) || (s == source && k == derivedKey);
    }

    method RemoveKey(derivedKey: Key)
      requires Valid()
      modifies this
      ensures Valid() && reverse == old(reverse) - {derivedKey}
    {
      var oldSources := Get(reverse, derivedKey);
      assert forall s :: Has(reverse, derivedKey, s) <==> s in oldSources;
      reverse := reverse - {derivedKey};
      var left := oldSources;
      while left != {}
        invariant left <= oldSources
        invariant reverse == old(reverse) - {derivedKey}
        invariant forall s, k :: Has(forward, s, k) <==> Has(reverse, k, s) || (k == derivedKey && s in left)
        invariant forall s :: s in forward ==> forward[s] != {}
        decreases left
      {
        var source :| source in left;
        assert Has(forward, source, derivedKey);
        ghost var before := forward;
        left := left - {source};
        var others := forward[source] - {derivedKey};
        forward := if others == {} then forward - {source} else forward[source := others];
        assert forall s, k :: Has(forward, s, k) <==> Has(before, s, k) && !(s == source && k == derivedKey);
      }
    }

    method SetDependencies(derivedKey: Key, sources: seq<Key>)
      requires Valid()
      modifies this
      ensures Valid() && reverse == Recorded(old(reverse), derivedKey, SetOf(sources))
    {
      RemoveKey(derivedKey);
      for i := 0 to |sources|
        invariant Valid() && reverse == Recorded(old(reverse), derivedKey, SetOf(sources[..i]))
      {
        AddEdge(derivedKey, sources[i]);
        assert SetOf(sources[..i + 1]) == SetOf(sources[..i]) + {sources[i]} by {
          assert sources[..i + 1] == sources[..i] + [sources[i]];
        }
      }
      assert sources[..|sources|] == sources;
    }

    /** Breadth-first; terminates on cyclic graphs too. */
    method DependentsOf(source: Key) returns (seen: set<Key>)
      requires Valid()
      ensures seen == Dependents(reverse, source)
    {
      seen := {};
      var queue := AnyOrder(Get(forward, source));
      Frontier(forward, reverse, source, queue);
      while queue != []
        invariant forall k :: k in queue || k in seen ==> Affected(reverse, source, k)
        invariant forall m, x :: (m == source || m in seen) && Edge(reverse, m, x) ==> x in seen || x in queue
        invariant seen <= reverse.Keys
        decreases reverse.Keys - seen, |queue|
      {
        var key := queue[0];
        ghost var before := queue;
        queue := queue[1..];
        assert forall k :: k in before <==> k == key || k in queue;
        if key !in seen {
          AffectedIsRecorded(reverse, source, key);
          seen := seen + {key};
          var more := AnyOrder(Get(forward, key) - seen);
          NextFrontier(forward, reverse, source, key, more, seen);
          queue := queue + more;
        }
      }
      ClosureComplete(reverse, seen, source);
    }
  }

  lemma Frontier(forward: Links, reverse: Links, source: Key, queue: seq<Key>)
    requires Converse(forward, reverse) && forall k :: k in queue <==> k in Get(forward, source)
    ensures forall k :: k in queue ==> Affected(reverse, source, k)
    ensures forall k :: Edge(reverse, source, k) ==> k in queue
  {
    forall k
      ensures k in queue <==> Edge(reverse, source, k)
    {
      assert k in queue <==> Has(forward, source, k);
    }
    forall k | k in queue
      ensures Affected(reverse, source, k)
    {
      DirectlyAffected(reverse, source, k);
    }
  }

  lemma NextFrontier(forward: Links, reverse: Links, source: Key, key: Key, more: seq<Key>, seen: set<Key>)
    requires Converse(forward, reverse) && Affected(reverse, source, key)
    requires forall k :: k in more <==> k in Get(forward, key) - seen
    ensures forall k :: k in more ==> Affected(reverse, source, k)
    ensures forall k :: Edge(reverse, key, k) ==> k in more || k in seen
  {
    forall k
      ensures k in Get(forward, key) <==> Edge(reverse, key, k)
    {
      assert k in Get(forward, key) <==> Has(forward, key, k);
    }
    forall k | k in more
      ensures Affected(reverse, source, k)
    {
      AffectedOn(reverse, source, key, k);
    }
  }

  lemma ClosureComplete(reverse: Links, seen: set<Key>, source: Key)
    requires forall m, x :: (m == source || m in seen) && Edge(reverse, m, x) ==> x in seen
    ensures forall k :: Affected(reverse, source, k) ==> k in seen
  {
    forall k | Affected(reverse, source, k)
      ensures k in seen
    {
      var n :| n > 0 && Leads(reverse, source, k, n);
      var m :| Edge(reverse, source, m) && Leads(reverse, m, k, n - 1);
      ClosedContains(reverse, seen, m, k, n - 1);
    }
  }

  // ------------------------------------------------------------ the registry

  /** One call of the evictor of a cache; a failure is reported by the call that failed. */
  datatype EvictCall = EvictCall(cacheName: string, key: Key)

  datatype Event = Event(source: Option<Key>, reason: string, cacheNames: seq<string>)

  datatype RecordError = CacheNotRegistered(name: string)

  /** The calls made for one key: its caches in sorted order, skipping those without an evictor. */
  function CallsFor(names: seq<string>, evictors: set<string>, key: Key): seq<EvictCall> {
    if names == [] then []
    else if names[0] in evictors then [EvictCall(names[0], key)] + CallsFor(names[1..], evictors, key)
    else CallsFor(names[1..], evictors, key)
  }

  function Failing(calls: seq<EvictCall>, fails: EvictCall -> bool): seq<EvictCall> {
    if calls == [] then []
    else if fails(calls[0]) then [calls[0]] + Failing(calls[1..], fails)
    else Failing(calls[1..], fails)
  }

  function Succeeding(calls: seq<EvictCall>, fails: EvictCall -> bool): seq<string> {
    if calls == [] then []
    else if fails(calls[0]) then Succeeding(calls[1..], fails)
    else [calls[0].cacheName] + Succeeding(calls[1..], fails)
  }

  ghost function SortedNames(names: set<string>): seq<string> {
    StringOrder();
    Sorted(names, StringLe)
  }

  ghost function KeyCalls(caches: map<Key, set<string>>, evictors: set<string>, key: Key): seq<EvictCall> {
    CallsFor(SortedNames(Get(caches, key)), evictors, key)
  }

  /** A deque with a maximal length keeps the latest events. */
  function Bounded(events: seq<Event>, max: nat): seq<Event> {
    if |events| <= max then events else events[|events| - max..]
  }

  function Trail(audit: map<Key, seq<Event>>, key: Key): seq<Event> {
    if key in audit then audit[key] else []
  }

  lemma {:induction false} CallsForMembers(names: seq<string>, evictors: set<string>, key: Key)
    requires Distinct(names)
    ensures Distinct(CallsFor(names, evictors, key))
    ensures forall c :: c in CallsFor(names, evictors, key) <==>
              c.key == key && c.cacheName in names && c.cacheName in evictors
  {
    if names != [] {
      CallsForMembers(names[1..], evictors, key);
      assert names[0] !in names[1..];
    }
  }

  lemma {:induction false} CallsForConcat(a: seq<string>, b: seq<string>, evictors: set<string>, key: Key)
    ensures CallsFor(a + b, evictors, key) == CallsFor(a, evictors, key) + CallsFor(b, evictors, key)
  {
    if a == [] {
      assert a + b == b;
    } else {
      assert (a + b)[1..] == a[1..] + b;
      CallsForConcat(a[1..], b, evictors, key);
    }
  }

  lemma KeyCallsMembers(caches: map<Key, set<string>>, evictors: set<string>, key: Key)
    ensures Distinct(KeyCalls(caches, evictors, key))
    ensures forall c :: c in KeyCalls(caches, evictors, key) <==>
              c.key == key && c.cacheName in Get(caches, key) && c.cacheName in evictors
  {
    StringOrder();
    SortedElements(Get(caches, key), StringLe);
    SortedAscends(Get(caches, key), StringLe);
    CallsForMembers(SortedNames(Get(caches, key)), evictors, key);
  }

  lemma {:induction false} FailingMembers(calls: seq<EvictCall>, fails: EvictCall -> bool)
    ensures forall c :: c in Failing(calls, fails) <==> c in calls && fails(c)
  {
    if calls != [] {
      FailingMembers(calls[1..], fails);
    }
  }

  lemma {:induction false} FailingConcat(a: seq<EvictCall>, b: seq<EvictCall>, fails: EvictCall -> bool)
    ensures Failing(a + b, fails) == Failing(a, fails) + Failing(b, fails)
  {
    if a == [] {
      assert a + b == b;
    } else {
      FailingConcat(a[1..], b, fails);
      assert (a + b)[0] == a[0] && (a + b)[1..] == a[1..] + b;
      var rest, last := Failing(a[1..], fails), Failing(b, fails);
      assert [a[0]] + (rest + last) == [a[0]] + rest + last;
    }
  }

  lemma {:induction false} SucceedingConcat(a: seq<EvictCall>, b: seq<EvictCall>, fails: EvictCall -> bool)
    ensures Succeeding(a + b, fails) == Succeeding(a, fails) + Succeeding(b, fails)
  {
    if a == [] {
      assert a + b == b;
    } else {
      SucceedingConcat(a[1..], b, fails);
      assert (a + b)[0] == a[0] && (a + b)[1..] == a[1..] + b;
      var rest, last := Succeeding(a[1..], fails), Succeeding(b, fails);
      assert [a[0].cacheName] + (rest + last) == [a[0].cacheName] + rest + last;
    }
  }

  lemma FailuresAdd(calls0: seq<EvictCall>, calls1: seq<EvictCall>, made: seq<EvictCall>, fails: EvictCall -> bool)
    requires calls0 <= calls1
    ensures Failing((calls1 + made)[|calls0|..], fails) == Failing(calls1[|calls0|..], fails) + Failing(made, fails)
  {
    assert (calls1 + made)[|calls0|..] == calls1[|calls0|..] + made;
    FailingConcat(calls1[|calls0|..], made, fails);
  }

  /** The registry as a value: edges, side tables, and every evictor call made so far. */
  datatype Tables = Tables(
    reverse: Links,
    keyCaches: map<Key, set<string>>,
    audit: map<Key, seq<Event>>,
    fingerprints: map<Key, string>,
    calls: seq<EvictCall>)

  /** What triggered an invalidation, and how the evictors behave during it. */
  datatype Trigger = Trigger(source: Option<Key>, reason: string, fails: EvictCall -> bool)

  ghost function EventFor(t: Tables, key: Key, evictors: set<string>, why: Trigger): Event {
    Event(why.source, why.reason, Succeeding(KeyCalls(t.keyCaches, evictors, key), why.fails))
  }

  ghost function EvictOne(t: Tables, key: Key, evictors: set<string>, why: Trigger, max: nat): Tables {
    Tables(t.reverse - {key},
           t.keyCaches - {key},
           t.audit[key := NewTrail(t, key, evictors, why, max)],
           t.fingerprints - {key},
           t.calls + KeyCalls(t.keyCaches, evictors, key))
  }

  /** The whole effect of a cascade over the keys `done`, whatever the order and whatever fails. */
  ghost predicate Cascaded(
    t0: Tables, t1: Tables, done: set<Key>, evictors: set<string>, why: Trigger, max: nat)
  {
    && t1.reverse == t0.reverse - done
    && t1.keyCaches == t0.keyCaches - done
    && t1.fingerprints == t0.fingerprints - done
    && t0.calls <= t1.calls
    && CalledOnce(t0.keyCaches, t1.calls[|t0.calls|..], done, evictors)
    && Audited(t0, t1.audit, done, evictors, why, max)
  }

  /** Each key of `done` got one event, naming the caches whose evictor succeeded; other trails are as before. */
  ghost predicate Audited(
    t0: Tables, audit: map<Key, seq<Event>>, done: set<Key>, evictors: set<string>, why: Trigger, max: nat)
  {
    && audit.Keys == t0.audit.Keys + done
    && (forall k :: k in t0.audit && k !in done ==> audit[k] == t0.audit[k])
    && (forall k :: k in done ==>
          audit[k] == NewTrail(t0, k, evictors, why, max))
  }

  ghost function NewTrail(t: Tables, key: Key, evictors: set<string>, why: Trigger, max: nat): seq<Event> {
    Bounded(Trail(t.audit, key) + [EventFor(t, key, evictors, why)], max)
  }

  /** Exactly the registered evictors of the keys `done` were called, each once per key. */
  ghost predicate CalledOnce(
    keyCaches: map<Key, set<string>>, made: seq<EvictCall>, done: set<Key>, evictors: set<string>)
  {
    && Distinct(made)
    && forall c :: c in made <==> c.key in done && Has(keyCaches, c.key, c.cacheName) && c.cacheName in evictors
  }

  lemma CalledOnceMore(
    keyCaches: map<Key, set<string>>, left: map<Key, set<string>>, made: seq<EvictCall>, done: set<Key>, key: Key,
    evictors: set<string>)
    requires CalledOnce(keyCaches, made, done, evictors) && key !in done && left == keyCaches - done
    ensures KeyCalls(left, evictors, key) == KeyCalls(keyCaches, evictors, key)
    ensures CalledOnce(keyCaches, made + KeyCalls(left, evictors, key), done + {key}, evictors)
  {
    var more := KeyCalls(left, evictors, key);
    assert Get(left, key) == Get(keyCaches, key);
    KeyCallsMembers(keyCaches, evictors, key);
    forall c
      ensures c in made + more <==>
              c.key in done + {key} && Has(keyCaches, c.key, c.cacheName) && c.cacheName in evictors
    {
      assert c in made + more <==> c in made || c in more;
    }
    forall i, j | 0 <= i < j < |made + more|
      ensures (made + more)[i] != (made + more)[j]
    {
      if i < |made| <= j {
        assert made[i] in made && more[j - |made|] in more;
      }
    }
  }

  lemma AuditedMore(
    t0: Tables, t1: Tables, done: set<Key>, key: Key, evictors: set<string>, why: Trigger, max: nat)
    requires Audited(t0, t1.audit, done, evictors, why, max) && key !in done
    requires t1.keyCaches == t0.keyCaches - done
    ensures Audited(t0, EvictOne(t1, key, evictors, why, max).audit, done + {key}, evictors, why, max)
  {
    TrailUnchanged(t0, t1, done, key, evictors, why, max);
    AuditedWith(t0, t1.audit, done, key, NewTrail(t0, key, evictors, why, max), evictors, why, max);
  }

  lemma AuditedWith(
    t0: Tables, audit: map<Key, seq<Event>>, done: set<Key>, key: Key, trail: seq<Event>, evictors: set<string>,
    why: Trigger, max: nat)
    requires Audited(t0, audit, done, evictors, why, max) && key !in done
    requires trail == NewTrail(t0, key, evictors, why, max)
    ensures Audited(t0, audit[key := trail], done + {key}, evictors, why, max)
  {
  }

  lemma TrailUnchanged(
    t0: Tables, t1: Tables, done: set<Key>, key: Key, evictors: set<string>, why: Trigger, max: nat)
    requires Audited(t0, t1.audit, done, evictors, why, max) && key !in done
    requires t1.keyCaches == t0.keyCaches - done
    ensures NewTrail(t1, key, evictors, why, max) == NewTrail(t0, key, evictors, why, max)
  {
    assert Get(t1.keyCaches, key) == Get(t0.keyCaches, key);
    assert key in t1.audit <==> key in t0.audit;
  }

  lemma RemoveMore<V>(m: map<Key, V>, done: set<Key>, key: Key)
    ensures (m - done) - {key} == m - (done + {key})
  {
  }

  lemma OneLess(all: set<Key>, left: set<Key>, key: Key)
    requires key in left && left <= all
    ensures all - (left - {key}) == (all - left) + {key}
  {
  }

  lemma CascadeStep(
    t0: Tables, t1: Tables, done: set<Key>, key: Key, evictors: set<string>, why: Trigger, max: nat)
    requires Cascaded(t0, t1, done, evictors, why, max) && key !in done
    ensures Cascaded(t0, EvictOne(t1, key, evictors, why, max), done + {key}, evictors, why, max)
  {
    var made, more := t1.calls[|t0.calls|..], KeyCalls(t1.keyCaches, evictors, key);
    CalledOnceMore(t0.keyCaches, t1.keyCaches, made, done, key, evictors);
    assert (t1.calls + more)[|t0.calls|..] == made + more;
    AuditedMore(t0, t1, done, key, evictors, why, max);
    RemoveMore(t0.reverse, done, key);
    RemoveMore(t0.keyCaches, done, key);
    RemoveMore(t0.fingerprints, done, key);
  }

  class InvalidationRegistry {
    const graph: DependencyGraph
    const maxAuditEvents: nat
    var evictors: set<string>
    var keyCaches: map<Key, set<string>>
    var audit: map<Key, seq<Event>>
    var fingerprints: map<Key, string>
    // Every evictor call made so far.
    ghost var calls: seq<EvictCall>

    ghost function Snapshot(): Tables
      reads this, graph
    {
      Tables(graph.reverse, keyCaches, audit, fingerprints, calls)
    }

    constructor (max: nat)
      ensures fresh(graph) && graph.Valid() && graph.reverse == map[] && maxAuditEvents == max
      ensures evictors == {} && keyCaches == map[] && audit == map[] && fingerprints == map[] && calls == []
    {
      graph := new DependencyGraph();
      maxAuditEvents := max;
      evictors, keyCaches, audit, fingerprints, calls := {}, map[], map[], map[], [];
    }

    method RegisterCache(cacheName: string)
      modifies this`evictors
      ensures evictors == old(evictors) + {cacheName}
    {
      evictors := evictors + {cacheName};
    }

    /** `version` is the fingerprint of the version inputs, if any were given. */
    method RecordDependency(derivedKey: Key, sources: seq<Key>, cacheName: string, version: Option<string>)
      returns (r: Result<Option<string>, RecordError>)
      requires graph.Valid()
      modifies this`keyCaches, this`fingerprints, graph
      ensures graph.Valid()
      ensures cacheName !in evictors ==>
                && r == Err(CacheNotRegistered(cacheName)) && graph.reverse == old(graph.reverse)
                && keyCaches == old(keyCaches) && fingerprints == old(fingerprints)
      ensures cacheName in evictors ==>
                && r == Ok(version)
                && graph.reverse == Recorded(old(graph.reverse), derivedKey, SetOf(sources))
                && keyCaches == old(keyCaches)[derivedKey := Get(old(keyCaches), derivedKey) + {cacheName}]
                && fingerprints == if version.Some? then old(fingerprints)[derivedKey := version.value]
                                   else old(fingerprints)
    {
      if cacheName !in evictors {
        return Err(CacheNotRegistered(cacheName));
      }
      graph.SetDependencies(derivedKey, sources);
      keyCaches := keyCaches[derivedKey := Get(keyCaches, derivedKey) + {cacheName}];
      if version.Some? {
        fingerprints := fingerprints[derivedKey := version.value];
      }
      return Ok(version);
    }

    /** `_evict_key_locked`.  `fails` tells which evictor calls raise. */
    method EvictKey(derivedKey: Key, source: Option<Key>, reason: string, fails: EvictCall -> bool)
      returns (errors: seq<EvictCall>)
      requires graph.Valid()
      modifies this`keyCaches, this`audit, this`fingerprints, this`calls, graph
      ensures graph.Valid()
      ensures Snapshot() ==
              EvictOne(old(Snapshot()), derivedKey, evictors, Trigger(source, reason, fails), maxAuditEvents)
      ensures errors == Failing(KeyCalls(old(keyCaches), evictors, derivedKey), fails)
    {
      ghost var t0 := Snapshot();
      var names := SortNames(Get(keyCaches, derivedKey));
      var succeeded;
      errors, succeeded := CallEvictors(names, derivedKey, fails);
      audit := audit[derivedKey :=
                     Bounded(Trail(audit, derivedKey) + [Event(source, reason, succeeded)], maxAuditEvents)];
      fingerprints := fingerprints - {derivedKey};
      keyCaches := keyCaches - {derivedKey};
      graph.RemoveKey(derivedKey);
    }

    static method SortNames(names: set<string>) returns (r: seq<string>)
      ensures r == SortedNames(names)
    {
      StringOrder();
      r := Sort(names, StringLe);
    }

    method CallEvictors(names: seq<string>, derivedKey: Key, fails: EvictCall -> bool)
      returns (errors: seq<EvictCall>, succeeded: seq<string>)
      modifies this`calls
      ensures var made := CallsFor(names, evictors, derivedKey);
              && calls == old(calls) + made
              && errors == Failing(made, fails) && succeeded == Succeeding(made, fails)
    {
      errors, succeeded := [], [];
      ghost var made: seq<EvictCall> := [];
      for i := 0 to |names|
        invariant made == CallsFor(names[..i], evictors, derivedKey) && calls == old(calls) + made
        invariant errors == Failing(made, fails) && succeeded == Succeeding(made, fails)
      {
        var name := names[i];
        CallsForConcat(names[..i], [name], evictors, derivedKey);
        assert names[..i + 1] == names[..i] + [name];
        if name in evictors {
          var call := EvictCall(name, derivedKey);
          FailingConcat(made, [call], fails);
          SucceedingConcat(made, [call], fails);
          calls, made := calls + [call], made + [call];
          if fails(call) {
            errors := errors + [call];
          } else {
            succeeded := succeeded + [name];
          }
        }
      }
      assert names[..|names|] == names;
    }

    method InvalidateSource(source: Key, reason: string, fails: EvictCall -> bool)
      returns (r: Result<set<Key>, EvictCall>)
      requires graph.Valid()
      modifies this`keyCaches, this`audit, this`fingerprints, this`calls, graph
      ensures graph.Valid()
      ensures Cascaded(old(Snapshot()), Snapshot(), Dependents(old(graph.reverse), source), evictors,
                       Trigger(Some(source), reason, fails), maxAuditEvents)
      ensures r.Ok? ==> r.value == Dependents(old(graph.reverse), source)
      ensures r.Ok? <==> forall c :: c in calls[|old(calls)|..] ==> !fails(c)
      ensures r.Err? ==> r.error in calls[|old(calls)|..] && fails(r.error)
      ensures r.Err? ==> [r.error] <= Failing(calls[|old(calls)|..], fails)
    {
      ghost var t0 := Snapshot();
      var affected := graph.DependentsOf(source);
      var errors := Cascade(affected, source, reason, fails);
      ForgetIsNoOp(graph.forward, t0.reverse, source);
      graph.forward := graph.forward - {source};
      FailingMembers(calls[|t0.calls|..], fails);
      assert errors == Failing(calls[|t0.calls|..], fails);
      if errors != [] {
        assert errors[0] in errors;
        return Err(errors[0]);
      }
      assert forall c :: c !in errors;
      return Ok(affected);
    }

    /** The loop over the affected keys; no failure stops it. */
    method Cascade(affected: set<Key>, source: Key, reason: string, fails: EvictCall -> bool)
      returns (errors: seq<EvictCall>)
      requires graph.Valid()
      modifies this`keyCaches, this`audit, this`fingerprints, this`calls, graph
      ensures graph.Valid()
      ensures Cascaded(old(Snapshot()), Snapshot(), affected, evictors,
                       Trigger(Some(source), reason, fails), maxAuditEvents)
      ensures errors == Failing(calls[|old(calls)|..], fails)
    {
      ghost var t0 := Snapshot();
      ghost var t1 := t0;
      errors := [];
      var left := affected;
      assert affected - left == {};
      while left != {}
        invariant left <= affected && graph.Valid() && Snapshot() == t1
        invariant Cascaded(t0, t1, affected - left, evictors, Trigger(Some(source), reason, fails), maxAuditEvents)
        invariant errors == Failing(t1.calls[|t0.calls|..], fails)
        decreases left
      {
        var key :| key in left;
        OneLess(affected, left, key);
        var more;
        more, t1 := EvictNext(t0, t1, affected - left, key, source, reason, fails);
        errors := errors + more;
        left := left - {key};
      }
      assert affected - left == affected;
    }

    /** One more key of a cascade that began in `t0`, has covered `done` and has come to `t1`. */
    method EvictNext(
      ghost t0: Tables, ghost t1: Tables, ghost done: set<Key>, key: Key, source: Key, reason: string,
      fails: EvictCall -> bool)
      returns (errors: seq<EvictCall>, ghost t2: Tables)
      requires graph.Valid() && key !in done && Snapshot() == t1
      requires Cascaded(t0, t1, done, evictors, Trigger(Some(source), reason, fails), maxAuditEvents)
      modifies this`keyCaches, this`audit, this`fingerprints, this`calls, graph
      ensures graph.Valid() && Snapshot() == t2
      ensures Cascaded(t0, t2, done + {key}, evictors, Trigger(Some(source), reason, fails), maxAuditEvents)
      ensures Failing(t2.calls[|t0.calls|..], fails) == Failing(t1.calls[|t0.calls|..], fails) + errors
    {
      errors := EvictKey(key, Some(source), reason, fails);
      t2 := Snapshot();
      CascadeStep(t0, t1, done, key, evictors, Trigger(Some(source), reason, fails), maxAuditEvents);
      FailuresAdd(t0.calls, t1.calls, KeyCalls(t1.keyCaches, evictors, key), fails);
    }

    /** One key, without cascading. */
    method InvalidateKey(derivedKey: Key, reason: string, fails: EvictCall -> bool) returns (r: Option<EvictCall>)
      requires graph.Valid()
      modifies this`keyCaches, this`audit, this`fingerprints, this`calls, graph
      ensures graph.Valid()
      ensures Snapshot() ==
              EvictOne(old(Snapshot()), derivedKey, evictors, Trigger(None, reason, fails), maxAuditEvents)
      ensures var failed := Failing(KeyCalls(old(keyCaches), evictors, derivedKey), fails);
              r == if failed == [] then None else Some(failed[0])
    {
      var errors := EvictKey(derivedKey, None, reason, fails);
      return if errors != [] then Some(errors[0]) else None;
    }
  }

  /** Once the affected keys are gone, the source has no forward entry left to forget. */
  lemma ForgetIsNoOp(forward: Links, reverse: Links, source: Key)
    requires Converse(forward, reverse - Dependents(reverse, source))
    ensures forward - {source} == forward
  {
    var kept := reverse - Dependents(reverse, source);
    if source in forward {
      var k :| k in forward[source];
      assert Has(forward, source, k);
      assert Edge(reverse, source, k);
      DirectlyAffected(reverse, source, k);
    }
  }

  // ---------------------------------------------------------------- whole runs

  datatype Op = Record(key: Key, sources: set<Key>) | InvalidateBySource(source: Key) | InvalidateOne(key: Key)

  ghost function Apply(reverse: Links, op: Op): Links {
    match op
    case Record(key, sources) => Recorded(reverse, key, sources)
    case InvalidateBySource(source) => reverse - Dependents(reverse, source)
    case InvalidateOne(key) => reverse - {key}
  }

  ghost function Run(ops: seq<Op>): Links {
    if ops == [] then map[] else Apply(Run(ops[..|ops| - 1]), ops[|ops| - 1])
  }

  /** Operation `u` leaves key `k` recorded as it was and touches neither it nor `src` in a cascade. */
  ghost predicate Quiet(ops: seq<Op>, u: nat, k: Key, src: Key)
    requires u < |ops|
  {
    match ops[u]
    case Record(key, _) => key != k
    case InvalidateOne(key) => key != k
    case InvalidateBySource(s) =>
      src != s && src !in Dependents(Run(ops[..u]), s) && k !in Dependents(Run(ops[..u]), s)
  }

  /** After any run, a recorded direct dependency goes back to the last recording of that key, and since then
      neither the key nor that source was invalidated by source or swept up in a cascade. */
  lemma {:induction false} NoStaleDependency(ops: seq<Op>, k: Key, src: Key) returns (t: nat)
    requires Edge(Run(ops), src, k)
    ensures t < |ops| && ops[t].Record? && ops[t].key == k && src in ops[t].sources
    ensures forall u :: t < u < |ops| ==> Quiet(ops, u, k, src)
  {
    var n := |ops| - 1;
    var before, last := ops[..n], ops[n];
    if last.Record? && last.key == k {
      t := n;
    } else {
      assert Edge(Run(before), src, k);
      t := NoStaleDependency(before, k, src);
      if last.InvalidateBySource? {
        if src == last.source {
          DirectlyAffected(Run(before), src, k);
        } else if Affected(Run(before), last.source, src) {
          AffectedOn(Run(before), last.source, src, k);
        }
      }
      forall u | t < u < |ops|
        ensures Quiet(ops, u, k, src)
      {
        if u < n {
          assert ops[u] == before[u] && ops[..u] == before[..u];
          assert Quiet(before, u, k, src);
        }
      }
    }
  }

  /** Operation `u` neither records `k` anew nor evicts it. */
  ghost predicate Untouched(ops: seq<Op>, u: nat, k: Key)
    requires u < |ops|
  {
    match ops[u]
    case Record(key, _) => key != k
    case InvalidateOne(key) => key != k
    case InvalidateBySource(s) => k !in Dependents(Run(ops[..u]), s)
  }

  /** Operation `t` recorded `k` with `src` among its sources, and nothing has touched `k` since. */
  ghost predicate StandsSince(ops: seq<Op>, t: nat, k: Key, src: Key)
    requires t < |ops|
  {
    && ops[t].Record? && ops[t].key == k && src in ops[t].sources
    && forall u :: t < u < |ops| ==> Untouched(ops, u, k)
  }

  lemma UntouchedBefore(ops: seq<Op>, u: nat, k: Key)
    requires u < |ops| - 1
    ensures Untouched(ops, u, k) <==> Untouched(ops[..|ops| - 1], u, k)
  {
    assert ops[..|ops| - 1][..u] == ops[..u];
  }

  lemma StandsBefore(ops: seq<Op>, t: nat, k: Key, src: Key)
    requires t < |ops| - 1
    ensures StandsSince(ops, t, k, src) <==>
            StandsSince(ops[..|ops| - 1], t, k, src) && Untouched(ops, |ops| - 1, k)
  {
    var before := ops[..|ops| - 1];
    if StandsSince(ops, t, k, src) {
      forall u: nat | t < u < |before|
        ensures Untouched(before, u, k)
      {
        UntouchedBefore(ops, u, k);
      }
    }
    if StandsSince(before, t, k, src) && Untouched(ops, |ops| - 1, k) {
      forall u: nat | t < u < |ops|
        ensures Untouched(ops, u, k)
      {
        if u < |ops| - 1 { UntouchedBefore(ops, u, k); }
      }
    }
  }

  lemma LastStep(ops: seq<Op>, k: Key, src: Key)
    requires ops != []
    ensures var last, before := ops[|ops| - 1], Run(ops[..|ops| - 1]);
            Edge(Run(ops), src, k) <==>
            (last.Record? && last.key == k && src in last.sources) ||
            (Edge(before, src, k) && Untouched(ops, |ops| - 1, k))
  {
    var last, before := ops[|ops| - 1], Run(ops[..|ops| - 1]);
    assert Run(ops) == Apply(before, last);
    match last
    case Record(key, sources) =>
      assert Edge(Run(ops), src, k) <==> if key == k then src in sources else Edge(before, src, k);
    case InvalidateOne(key) =>
      assert Edge(Run(ops), src, k) <==> key != k && Edge(before, src, k);
    case InvalidateBySource(s) =>
      assert Edge(Run(ops), src, k) <==> k !in Dependents(before, s) && Edge(before, src, k);
  }

  /** After any run a direct dependency is on record if and only if it was recorded at some point and the key has been
      neither recorded anew nor evicted since: nothing else removes it, the invalidation of its own source by
      `invalidate_key` included. */
  lemma {:induction false} RecordedIff(ops: seq<Op>, k: Key, src: Key)
    ensures Edge(Run(ops), src, k) <==> exists t :: 0 <= t < |ops| && StandsSince(ops, t, k, src)
  {
    if ops != [] {
      var n := |ops| - 1;
      RecordedIff(ops[..n], k, src);
      LastStep(ops, k, src);
      if t :| 0 <= t < |ops| && StandsSince(ops, t, k, src) {
        if t < n { StandsBefore(ops, t, k, src); }
      }
      if Edge(Run(ops), src, k) {
        if ops[n].Record? && ops[n].key == k && src in ops[n].sources {
          assert StandsSince(ops, n, k, src);
        } else {
          var t :| 0 <= t < n && StandsSince(ops[..n], t, k, src);
          StandsBefore(ops, t, k, src);
        }
      }
    }
  }

  /** A chain of `n` edges that does not come to `j` on its way. */
  ghost predicate LeadsAround(reverse: Links, s: Key, k: Key, n: nat, j: Key)
    decreases n
  {
    if n == 0 then s == k else exists m :: m != j && Edge(reverse, s, m) && LeadsAround(reverse, m, k, n - 1, j)
  }

  lemma {:induction false} LeadsWithout(reverse: Links, s: Key, k: Key, n: nat, j: Key)
    ensures Leads(reverse - {j}, s, k, n) <==> LeadsAround(reverse, s, k, n, j)
    decreases n
  {
    if n > 0 {
      forall m
        ensures Edge(reverse - {j}, s, m) <==> m != j && Edge(reverse, s, m)
        ensures Leads(reverse - {j}, m, k, n - 1) <==> LeadsAround(reverse, m, k, n - 1, j)
      {
        LeadsWithout(reverse, m, k, n - 1, j);
      }
    }
  }

  /** `invalidate_key(j)` keeps exactly the dependencies of the other keys on `j`, and it cuts cascades: afterwards a
      source reaches exactly the keys that it reached by chains not coming to `j`. What it reached only through `j` is
      no longer invalidated with it. */
  lemma KeyInvalidationLeavesDependents(ops: seq<Op>, j: Key, k: Key, s: Key)
    ensures var after := Run(ops + [InvalidateOne(j)]);
            && (Edge(after, j, k) <==> Edge(Run(ops), j, k) && k != j)
            && (k in Dependents(after, s) <==> exists n :: n > 0 && LeadsAround(Run(ops), s, k, n, j))
  {
    var more := ops + [InvalidateOne(j)];
    assert more[..|more| - 1] == ops;
    var before, after := Run(ops), Run(more);
    assert after == before - {j};
    assert Edge(after, j, k) <==> Edge(before, j, k) && k != j;
    if k in Dependents(after, s) {
      var n :| n > 0 && Leads(after, s, k, n);
      LeadsWithout(before, s, k, n, j);
    }
    if n: nat :| n > 0 && LeadsAround(before, s, k, n, j) {
      LeadsWithout(before, s, k, n, j);
      assert Affected(after, s, k);
    }
  }
}
