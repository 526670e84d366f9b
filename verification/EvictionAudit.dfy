/** What an eviction calls, notes and raises, name by name (detection/cache_invalidation.py, lines 222-411). */
module EvictionAudit {
  import opened CacheInvalidation
  import opened Common
  import opened Ordering

  ghost predicate NamesAscend(names: seq<string>) {
    forall i, j :: 0 <= i < j < |names| ==> StringLess(names[i], names[j])
  }

  ghost predicate CallsAscend(calls: seq<EvictCall>) {
    forall i, j :: 0 <= i < j < |calls| ==> StringLess(calls[i].cacheName, calls[j].cacheName)
  }

  lemma SortedNamesAscend(names: set<string>)
    ensures NamesAscend(SortedNames(names)) && Distinct(SortedNames(names))
    ensures forall x :: x in SortedNames(names) <==> x in names
  {
    StringOrder();
    SortedElements(names, StringLe);
    SortedAscends(names, StringLe);
    var s := SortedNames(names);
    forall i, j | 0 <= i < j < |s|
      ensures StringLess(s[i], s[j])
    {
      StringLeIff(s[i], s[j]);
    }
  }

  lemma {:induction false} CallsForAscend(names: seq<string>, evictors: set<string>, key: Key)
    requires NamesAscend(names) && Distinct(names)
    ensures CallsAscend(CallsFor(names, evictors, key))
  {
    if names != [] {
      var rest := CallsFor(names[1..], evictors, key);
      CallsForAscend(names[1..], evictors, key);
      CallsForMembers(names[1..], evictors, key);
      forall j | 0 <= j < |rest|
        ensures StringLess(names[0], rest[j].cacheName)
      {
        assert rest[j] in rest;
        assert rest[j].cacheName in names[1..];
        var i :| 0 <= i < |names| - 1 && names[1..][i] == rest[j].cacheName;
        assert names[i + 1] == rest[j].cacheName;
      }
    }
  }

  /** An eviction calls the registered evictors of the caches that hold the key, each once, in the order of their names,
      and no others. */
  lemma CallsTold(caches: map<Key, set<string>>, evictors: set<string>, key: Key)
    ensures var calls := KeyCalls(caches, evictors, key);
            && CallsAscend(calls)
            && forall c :: c in calls <==> c.key == key && Has(caches, key, c.cacheName) && c.cacheName in evictors
  {
    SortedNamesAscend(Get(caches, key));
    CallsForAscend(SortedNames(Get(caches, key)), evictors, key);
    KeyCallsMembers(caches, evictors, key);
  }

  lemma {:induction false} SucceedingTold(calls: seq<EvictCall>, fails: EvictCall -> bool)
    requires CallsAscend(calls)
    ensures NamesAscend(Succeeding(calls, fails))
    ensures forall x :: x in Succeeding(calls, fails) <==> exists c :: c in calls && c.cacheName == x && !fails(c)
  {
    if calls != [] {
      var rest := Succeeding(calls[1..], fails);
      SucceedingTold(calls[1..], fails);
      forall j | 0 <= j < |rest|
        ensures StringLess(calls[0].cacheName, rest[j])
      {
        assert rest[j] in rest;
        var c :| c in calls[1..] && c.cacheName == rest[j];
        var i :| 0 <= i < |calls| - 1 && calls[1..][i] == c;
        assert calls[i + 1] == c;
      }
      forall x
        ensures x in Succeeding(calls, fails) <==> exists c :: c in calls && c.cacheName == x && !fails(c)
      {
        if c :| c in calls && c.cacheName == x && !fails(c) {
          assert c == calls[0] || c in calls[1..];
        }
      }
    }
  }

  /** The event of an eviction names what triggered it, and in ascending order exactly the caches whose evictor was
      called and did not fail. */
  lemma EventTold(t: Tables, key: Key, evictors: set<string>, why: Trigger)
    ensures var e := EventFor(t, key, evictors, why);
            && e.source == why.source && e.reason == why.reason && NamesAscend(e.cacheNames)
            && forall x :: x in e.cacheNames <==>
                 Has(t.keyCaches, key, x) && x in evictors && !why.fails(EvictCall(x, key))
  {
    var calls, e := KeyCalls(t.keyCaches, evictors, key), EventFor(t, key, evictors, why);
    CallsTold(t.keyCaches, evictors, key);
    SucceedingTold(calls, why.fails);
    forall x
      ensures x in e.cacheNames <==> Has(t.keyCaches, key, x) && x in evictors && !why.fails(EvictCall(x, key))
    {
      assert EvictCall(x, key) in calls <==> Has(t.keyCaches, key, x) && x in evictors;
      if x in e.cacheNames {
        var c :| c in calls && c.cacheName == x && !why.fails(c);
        assert c == EvictCall(x, key);
      }
    }
  }

  /** The new event is the last one, what stands before it is the end of what was there before, and an event is dropped
      only for want of room. */
  ghost predicate IsTrailAfter(before: seq<Event>, e: Event, trail: seq<Event>, max: nat) {
    var kept := |trail| - 1;
    && 0 <= kept <= |before| && trail[kept] == e && trail[..kept] == before[|before| - kept..]
    && (kept == |before| || |trail| == max) && |trail| <= max
  }

  lemma BoundedTrail(before: seq<Event>, e: Event, max: nat)
    requires max > 0
    ensures IsTrailAfter(before, e, Bounded(before + [e], max), max)
  {
    var trail := Bounded(before + [e], max);
    if |before| + 1 > max {
      assert trail == before[|before| + 1 - max..] + [e];
    }
  }

  /** The trail of a key after an eviction, with room for at least one event; other trails stay as they are. */
  lemma TrailTold(t: Tables, key: Key, evictors: set<string>, why: Trigger, max: nat)
    requires max > 0
    ensures var after := EvictOne(t, key, evictors, why, max);
            && IsTrailAfter(Trail(t.audit, key), EventFor(t, key, evictors, why), Trail(after.audit, key), max)
            && forall k :: k != key ==> Trail(after.audit, k) == Trail(t.audit, k)
  {
    BoundedTrail(Trail(t.audit, key), EventFor(t, key, evictors, why), max);
  }

  /** The trail after these events, one after the other. */
  ghost function Noted(events: seq<Event>, max: nat): seq<Event> {
    if events == [] then [] else Bounded(Noted(events[..|events| - 1], max) + [events[|events| - 1]], max)
  }

  /** The last `n` events. */
  ghost predicate AreLatest(kept: seq<Event>, events: seq<Event>, n: nat) {
    |kept| == n <= |events| && forall j :: 0 <= j < n ==> kept[j] == events[|events| - n + j]
  }

  lemma LatestOfMore(kept: seq<Event>, events: seq<Event>, n: nat, last: Event, max: nat)
    requires AreLatest(kept, events, n) && n == if |events| < max then |events| else max
    ensures AreLatest(Bounded(kept + [last], max), events + [last], if |events| < max then |events| + 1 else max)
  {
    var all := kept + [last];
    if n == max { assert Bounded(all, max) == all[1..]; } else { assert Bounded(all, max) == all; }
  }

  /** However many there were, the trail is the last `max` of them. */
  lemma {:induction false} TrailIsLatest(events: seq<Event>, max: nat)
    ensures AreLatest(Noted(events, max), events, if |events| < max then |events| else max)
  {
    if events != [] {
      var before, n := events[..|events| - 1], |events| - 1;
      TrailIsLatest(before, max);
      LatestOfMore(Noted(before, max), before, if n < max then n else max, events[n], max);
      assert before + [events[n]] == events;
    }
  }

  /** The failure that is raised is the first one, in the order of the calls. */
  lemma {:induction false} FirstFailure(calls: seq<EvictCall>, fails: EvictCall -> bool)
    ensures Failing(calls, fails) == [] <==> forall c :: c in calls ==> !fails(c)
    ensures Failing(calls, fails) != [] ==>
              exists i :: 0 <= i < |calls| && calls[i] == Failing(calls, fails)[0] && fails(calls[i]) &&
                          forall j :: 0 <= j < i ==> !fails(calls[j])
  {
    if calls != [] && !fails(calls[0]) {
      FirstFailure(calls[1..], fails);
      if Failing(calls, fails) != [] {
        var i :| 0 <= i < |calls| - 1 && calls[1..][i] == Failing(calls, fails)[0] && fails(calls[1..][i]) &&
                 forall j :: 0 <= j < i ==> !fails(calls[1..][j]);
        assert calls[i + 1] == Failing(calls, fails)[0];
        forall j | 0 <= j < i + 1
          ensures !fails(calls[j])
        {
          if j > 0 { assert calls[j] == calls[1..][j - 1]; }
        }
      }
    }
  }
}
