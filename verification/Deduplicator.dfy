/** Correlated-alert deduplication (alerts/deduplicator.py). */
module Deduplicator {
  import opened Common
  import opened Ordering

  type Key = (string, string)

  /** An absent `evidence` field is the empty map. */
  datatype Alert = Alert(
    wallet: string, assetPair: string, detector: string, riskScore: real, evidence: map<string, string>,
    detectedAt: real)
  {
    function Key(): Key { (wallet, assetPair) }
  }

  datatype Summary = Summary(
    key: Key, detectors: set<string>, riskScore: real, evidence: map<string, string>, detectedAt: real,
    lastSeen: real, rawCount: nat)

  datatype Enriched = Enriched(
    wallet: string, assetPair: string, detectors: seq<string>, riskScore: real, evidence: map<string, string>,
    detectedAt: real)

  function Started(a: Alert): Summary {
    Summary(a.Key(), {a.detector}, a.riskScore, a.evidence, a.detectedAt, a.detectedAt, 1)
  }

  function Absorbed(g: Summary, a: Alert): Summary {
    Summary(g.key, g.detectors + {a.detector}, Max(g.riskScore, a.riskScore), g.evidence + a.evidence,
            Min(g.detectedAt, a.detectedAt), Max(g.lastSeen, a.detectedAt), g.rawCount + 1)
  }

  ghost function SortedDetectors(names: set<string>): seq<string> {
    StringOrder();
    Sorted(names, StringLe)
  }

  ghost function Flushed(g: Summary): Enriched {
    Enriched(g.key.0, g.key.1, SortedDetectors(g.detectors), g.riskScore, g.evidence, g.detectedAt)
  }

  class Group {
    const key: Key
    var detectors: set<string>
    var riskScore: real
    var evidence: map<string, string>
    var detectedAt: real
    var lastSeen: real
    var rawCount: nat

    ghost function View(): Summary
      reads this
    {
      Summary(key, detectors, riskScore, evidence, detectedAt, lastSeen, rawCount)
    }

    constructor (a: Alert)
      ensures View() == Started(a)
    {
      key, detectors, riskScore, evidence := a.Key(), {a.detector}, a.riskScore, a.evidence;
      detectedAt, lastSeen, rawCount := a.detectedAt, a.detectedAt, 1;
    }

    method Absorb(a: Alert)
      modifies this
      ensures View() == Absorbed(old(View()), a)
    {
      detectors := detectors + {a.detector};
      riskScore := if a.riskScore > riskScore then a.riskScore else riskScore;
      evidence := evidence + a.evidence;
      detectedAt := if a.detectedAt < detectedAt then a.detectedAt else detectedAt;
      lastSeen := if a.detectedAt > lastSeen then a.detectedAt else lastSeen;
      rawCount := rawCount + 1;
    }

    method Flush() returns (r: Enriched)
      ensures r == Flushed(View())
    {
      StringOrder();
      var names := Sort(detectors, StringLe);
      r := Enriched(key.0, key.1, names, riskScore, evidence, detectedAt);
    }
  }

  // ------------------------------------------- the loop on group contents

  /** The dictionary of open groups, its key order, and what has been yielded so far. */
  datatype Buffer = Buffer(groups: map<Key, Summary>, order: seq<Key>, out: seq<Enriched>)

  predicate IsStale(window: real, now: real, g: Summary) {
    now - g.lastSeen >= window
  }

  /** The keys whose group has (`stale`) or has not been silent for the window, in dictionary order. */
  ghost function Pick(window: real, now: real, groups: map<Key, Summary>, order: seq<Key>, stale: bool): (r: seq<Key>)
    requires forall k :: k in order ==> k in groups
  {
    if order == [] then []
    else if IsStale(window, now, groups[order[0]]) == stale
    then [order[0]] + Pick(window, now, groups, order[1..], stale)
    else Pick(window, now, groups, order[1..], stale)
  }

  lemma {:induction false} PickMembers(
    window: real, now: real, groups: map<Key, Summary>, order: seq<Key>, stale: bool)
    requires Distinct(order) && forall k :: k in order ==> k in groups
    ensures forall k :: k in Pick(window, now, groups, order, stale) <==>
              k in order && IsStale(window, now, groups[k]) == stale
    ensures Distinct(Pick(window, now, groups, order, stale))
  {
    if order != [] {
      PickMembers(window, now, groups, order[1..], stale);
      assert order[0] !in order[1..];
    }
  }

  lemma {:induction false} PickSnoc(
    window: real, now: real, groups: map<Key, Summary>, order: seq<Key>, k: Key, stale: bool)
    requires k in groups && forall x :: x in order ==> x in groups
    ensures Pick(window, now, groups, order + [k], stale) ==
            if IsStale(window, now, groups[k]) == stale then Pick(window, now, groups, order, stale) + [k]
            else Pick(window, now, groups, order, stale)
  {
    if order == [] {
      assert (order + [k])[1..] == [];
    } else {
      PickSnoc(window, now, groups, order[1..], k, stale);
      assert (order + [k])[1..] == order[1..] + [k];
    }
  }

  ghost function FlushEach(groups: map<Key, Summary>, keys: seq<Key>): (r: seq<Enriched>)
    requires forall k :: k in keys ==> k in groups
    ensures |r| == |keys| && forall j :: 0 <= j < |r| ==> r[j] == Flushed(groups[keys[j]])
  {
    if keys == [] then [] else [Flushed(groups[keys[0]])] + FlushEach(groups, keys[1..])
  }

  ghost function Without(groups: map<Key, Summary>, keys: seq<Key>): map<Key, Summary> {
    map k | k in groups && k !in keys :: groups[k]
  }

  ghost function Joined(groups: map<Key, Summary>, a: Alert): map<Key, Summary> {
    groups[a.Key() := if a.Key() in groups then Absorbed(groups[a.Key()], a) else Started(a)]
  }

  ghost function Appended(order: seq<Key>, keys: set<Key>, k: Key): (r: seq<Key>)
    requires Lists(order, keys)
    ensures Lists(r, keys + {k})
  {
    if k in keys then order else order + [k]
  }

  /** One alert: first every stale group is yielded, then the alert joins or opens the group of its key. */
  ghost function Step(window: real, b: Buffer, a: Alert): (r: Buffer)
    requires Lists(b.order, b.groups.Keys)
    ensures Lists(r.order, r.groups.Keys)
  {
    PickMembers(window, a.detectedAt, b.groups, b.order, true);
    PickMembers(window, a.detectedAt, b.groups, b.order, false);
    var stale := Pick(window, a.detectedAt, b.groups, b.order, true);
    var kept := Pick(window, a.detectedAt, b.groups, b.order, false);
    var groups := Without(b.groups, stale);
    Buffer(Joined(groups, a), Appended(kept, groups.Keys, a.Key()), b.out + FlushEach(b.groups, stale))
  }

  /** The states of the loop after each of the first `n` alerts. */
  ghost predicate AreStates(window: real, stream: seq<Alert>, n: nat, bs: seq<Buffer>) {
    && n <= |stream| && |bs| == n + 1 && bs[0] == Buffer(map[], [], [])
    && (forall i :: 0 <= i <= n ==> Lists(bs[i].order, bs[i].groups.Keys))
    && forall i :: 0 <= i < n ==> bs[i + 1] == Step(window, bs[i], stream[i])
  }

  lemma {:induction false} StatesExist(window: real, stream: seq<Alert>, n: nat)
    requires n <= |stream|
    ensures exists bs :: AreStates(window, stream, n, bs)
  {
    if n == 0 {
      assert AreStates(window, stream, 0, [Buffer(map[], [], [])]);
    } else {
      StatesExist(window, stream, n - 1);
      var bs :| AreStates(window, stream, n - 1, bs);
      OneMoreState(window, stream, n, bs, Step(window, bs[n - 1], stream[n - 1]));
    }
  }

  lemma OneMoreState(window: real, stream: seq<Alert>, n: nat, bs: seq<Buffer>, next: Buffer)
    requires 0 < n <= |stream| && AreStates(window, stream, n - 1, bs)
    requires next == Step(window, bs[n - 1], stream[n - 1])
    ensures AreStates(window, stream, n, bs + [next])
  {
  }

  ghost function States(window: real, stream: seq<Alert>): (bs: seq<Buffer>)
    ensures AreStates(window, stream, |stream|, bs)
  {
    StatesExist(window, stream, |stream|);
    var bs :| AreStates(window, stream, |stream|, bs);
    bs
  }

  ghost function SortedKeys(keys: set<Key>): (r: seq<Key>)
    ensures Lists(r, keys)
  {
    PairOrder();
    SortedElements(keys, PairLe);
    SortedAscends(keys, PairLe);
    Sorted(keys, PairLe)
  }

  /** Everything `deduplicate` yields, in order. */
  ghost function Yielded(window: real, stream: seq<Alert>): seq<Enriched> {
    var b := States(window, stream)[|stream|];
    b.out + FlushEach(b.groups, SortedKeys(b.groups.Keys))
  }

  // ------------------------------------------------------------ the generator

  type Dict = map<Key, Group>

  ghost function Views(groups: Dict): (r: map<Key, Summary>)
    reads groups.Values
    ensures r.Keys == groups.Keys && forall k :: k in r ==> r[k] == groups[k].View()
  {
    map k | k in groups :: groups[k].View()
  }

  ghost predicate Separate(groups: Dict) {
    forall k, l :: k in groups && l in groups && k != l ==> groups[k] != groups[l]
  }

  /** The list comprehension over the dictionary: which keys are stale, and which remain. */
  method SplitKeys(groups: Dict, order: seq<Key>, now: real, window: real) returns (stale: seq<Key>, kept: seq<Key>)
    requires Lists(order, groups.Keys)
    ensures stale == Pick(window, now, Views(groups), order, true)
    ensures kept == Pick(window, now, Views(groups), order, false)
    ensures (forall k :: k in stale ==> k in groups) && Lists(kept, groups.Keys - (set k | k in stale))
  {
    stale, kept := [], [];
    ghost var views := Views(groups);
    PickMembers(window, now, views, order, true);
    PickMembers(window, now, views, order, false);
    for i := 0 to |order|
      invariant stale == Pick(window, now, views, order[..i], true)
      invariant kept == Pick(window, now, views, order[..i], false)
    {
      var k := order[i];
      assert k in order;
      PickSnoc(window, now, views, order[..i], k, true);
      PickSnoc(window, now, views, order[..i], k, false);
      assert order[..i + 1] == order[..i] + [k];
      if now - groups[k].lastSeen >= window {
        stale := stale + [k];
      } else {
        kept := kept + [k];
      }
    }
    assert order[..|order|] == order;
  }

  /** Yields the groups of `keys` one after the other. */
  method FlushAll(groups: Dict, keys: seq<Key>) returns (out: seq<Enriched>)
    requires forall k :: k in keys ==> k in groups
    ensures out == FlushEach(Views(groups), keys)
  {
    out := [];
    ghost var views := Views(groups);
    for i := 0 to |keys|
      invariant |out| == i && forall j :: 0 <= j < i ==> out[j] == Flushed(views[keys[j]])
    {
      assert keys[i] in keys;
      var e := groups[keys[i]].Flush();
      out := out + [e];
    }
  }

  /** The alert joins the group of its key or opens a new one. */
  method Add(groups: Dict, order: seq<Key>, a: Alert) returns (after: Dict, order': seq<Key>)
    requires Separate(groups) && Lists(order, groups.Keys)
    modifies groups.Values
    ensures Separate(after) && Views(after) == Joined(old(Views(groups)), a)
    ensures order' == Appended(order, groups.Keys, a.Key())
    ensures fresh(after.Values - groups.Values)
  {
    var k := a.Key();
    after, order' := groups, order;
    if k in groups {
      groups[k].Absorb(a);
    } else {
      var g := new Group(a);
      after, order' := groups[k := g], order + [k];
    }
  }

  /** The loop body for one alert. */
  method Handle(groups: Dict, order: seq<Key>, out: seq<Enriched>, a: Alert, window: real)
    returns (after: Dict, order': seq<Key>, out': seq<Enriched>)
    requires Separate(groups) && Lists(order, groups.Keys)
    modifies groups.Values
    ensures Separate(after) && fresh(after.Values - groups.Values)
    ensures Buffer(Views(after), order', out') == Step(window, Buffer(old(Views(groups)), order, out), a)
  {
    var stale, kept := SplitKeys(groups, order, a.detectedAt, window);
    var flushed := FlushAll(groups, stale);
    out' := out + flushed;
    after := Drop(groups, stale);
    after, order' := Add(after, kept, a);
  }

  method Drop(groups: Dict, stale: seq<Key>) returns (after: Dict)
    requires Separate(groups)
    ensures Separate(after) && after.Values <= groups.Values
    ensures after.Keys == groups.Keys - (set k | k in stale)
    ensures Views(after) == Without(Views(groups), stale)
  {
    after := map k | k in groups && k !in stale :: groups[k];
  }

  /** The loop over the stream. */
  method Consume(stream: seq<Alert>, window: real) returns (groups: Dict, order: seq<Key>, out: seq<Enriched>)
    ensures Buffer(Views(groups), order, out) == States(window, stream)[|stream|]
  {
    groups, order, out := map[], [], [];
    ghost var b := Buffer(map[], [], []);
    for i := 0 to |stream|
      invariant Separate(groups) && fresh(groups.Values)
      invariant Lists(order, groups.Keys)
      invariant b == States(window, stream)[i] && b == Buffer(Views(groups), order, out)
    {
      groups, order, out := Handle(groups, order, out, stream[i], window);
      b := Step(window, b, stream[i]);
    }
  }

  method Deduplicate(stream: seq<Alert>, window: real) returns (out: seq<Enriched>)
    ensures out == Yielded(window, stream)
  {
    var groups, order, emitted := Consume(stream, window);
    var rest := FlushRest(groups);
    out := emitted + rest;
  }

  /** The groups still open at the end of the stream, in key order. */
  method FlushRest(groups: Dict) returns (out: seq<Enriched>)
    ensures out == FlushEach(Views(groups), SortedKeys(groups.Keys))
  {
    PairOrder();
    var keys := Sort(groups.Keys, PairLe);
    assert keys == SortedKeys(groups.Keys);
    out := FlushAll(groups, keys);
  }

  // ------------------------------------------------- groups as index lists

  /** A group lists the stream positions of its members in arrival order. */
  type Members = seq<nat>

  ghost predicate Inside(stream: seq<Alert>, g: Members) {
    g != [] && forall j :: 0 <= j < |g| ==> g[j] < |stream|
  }

  ghost function GroupOf(stream: seq<Alert>, g: Members): (s: Summary)
    requires Inside(stream, g)
    ensures s.key == stream[g[0]].Key() && s.rawCount == |g|
  {
    if |g| == 1 then Started(stream[g[0]])
    else Absorbed(GroupOf(stream, g[..|g| - 1]), stream[g[|g| - 1]])
  }

  /** An emitted alert names exactly the detectors of its members. */
  lemma {:induction false} DetectorsAreUnion(stream: seq<Alert>, g: Members)
    requires Inside(stream, g)
    ensures forall d :: d in GroupOf(stream, g).detectors <==> exists j :: 0 <= j < |g| && stream[g[j]].detector == d
  {
    var n := |g| - 1;
    if n > 0 {
      var init := g[..n];
      DetectorsAreUnion(stream, init);
      forall d
        ensures d in GroupOf(stream, g).detectors <==> exists j :: 0 <= j < |g| && stream[g[j]].detector == d
      {
        if d in GroupOf(stream, init).detectors {
          var j :| 0 <= j < n && stream[init[j]].detector == d;
          assert stream[g[j]].detector == d;
        }
        if j :| 0 <= j < n && stream[g[j]].detector == d {
          assert stream[init[j]].detector == d;
        }
      }
    }
  }

  /** Its score is the largest, its time the earliest of its members, and the high-water mark the latest. */
  lemma {:induction false} ExtremesOfMembers(stream: seq<Alert>, g: Members)
    requires Inside(stream, g)
    ensures var s := GroupOf(stream, g);
            && (forall j :: 0 <= j < |g| ==> s.detectedAt <= stream[g[j]].detectedAt <= s.lastSeen)
            && (forall j :: 0 <= j < |g| ==> stream[g[j]].riskScore <= s.riskScore)
            && (exists j :: 0 <= j < |g| && stream[g[j]].riskScore == s.riskScore)
            && (exists j :: 0 <= j < |g| && stream[g[j]].detectedAt == s.detectedAt)
            && (exists j :: 0 <= j < |g| && stream[g[j]].detectedAt == s.lastSeen)
  {
    var n := |g| - 1;
    if n > 0 {
      var init, last := g[..n], stream[g[n]];
      ExtremesOfMembers(stream, init);
      var s0, s := GroupOf(stream, init), GroupOf(stream, g);
      var r :| 0 <= r < n && stream[init[r]].riskScore == s0.riskScore;
      var e :| 0 <= e < n && stream[init[e]].detectedAt == s0.detectedAt;
      var l :| 0 <= l < n && stream[init[l]].detectedAt == s0.lastSeen;
      assert stream[g[if last.riskScore > s0.riskScore then n else r]].riskScore == s.riskScore;
      assert stream[g[if last.detectedAt < s0.detectedAt then n else e]].detectedAt == s.detectedAt;
      assert stream[g[if last.detectedAt > s0.lastSeen then n else l]].detectedAt == s.lastSeen;
      forall j | 0 <= j < n
        ensures init[j] == g[j]
      {
      }
    }
  }

  ghost predicate LastWith(stream: seq<Alert>, g: Members, k: string, j: nat)
    requires Inside(stream, g)
  {
    j < |g| && k in stream[g[j]].evidence && forall m :: j < m < |g| ==> k !in stream[g[m]].evidence
  }

  lemma LastWithMore(stream: seq<Alert>, g: Members, k: string, j: nat)
    requires Inside(stream, g) && |g| > 1 && k !in stream[g[|g| - 1]].evidence
    requires LastWith(stream, g[..|g| - 1], k, j)
    ensures LastWith(stream, g, k, j)
  {
    var init := g[..|g| - 1];
    forall m | j < m < |g|
      ensures k !in stream[g[m]].evidence
    {
      if m < |g| - 1 { assert init[m] == g[m]; }
    }
  }

  /** The evidence has exactly the keys of the members' evidence, and later evidence wins: each key maps to the value
      of the last member that has it. */
  lemma {:induction false} EvidenceOfLast(stream: seq<Alert>, g: Members, k: string)
    requires Inside(stream, g)
    ensures k in GroupOf(stream, g).evidence <==> exists j :: 0 <= j < |g| && k in stream[g[j]].evidence
    ensures k in GroupOf(stream, g).evidence ==>
              exists j: nat :: LastWith(stream, g, k, j) && GroupOf(stream, g).evidence[k] == stream[g[j]].evidence[k]
  {
    var n := |g| - 1;
    if k in stream[g[n]].evidence {
      assert LastWith(stream, g, k, n);
    } else if n > 0 {
      var init := g[..n];
      EvidenceOfLast(stream, init, k);
      if j :| 0 <= j < n && k in stream[g[j]].evidence {
        assert k in stream[init[j]].evidence;
      }
      if k in GroupOf(stream, init).evidence {
        var j: nat :| LastWith(stream, init, k, j) && GroupOf(stream, init).evidence[k] == stream[init[j]].evidence[k];
        LastWithMore(stream, g, k, j);
      }
    }
  }

  // -------------------------------------------------------- one key by itself

  /** The groups of one key: those already yielded, and the open one. */
  datatype KeyState = KeyState(done: seq<Members>, open: Option<Members>)

  ghost predicate AllInside(stream: seq<Alert>, groups: seq<Members>) {
    forall j :: 0 <= j < |groups| ==> Inside(stream, groups[j])
  }

  ghost predicate Proper(stream: seq<Alert>, s: KeyState) {
    AllInside(stream, s.done) && (s.open.Some? ==> Inside(stream, s.open.value))
  }

  ghost predicate Closing(window: real, stream: seq<Alert>, i: nat, s: KeyState)
    requires i < |stream| && Proper(stream, s)
  {
    s.open.Some? && IsStale(window, stream[i].detectedAt, GroupOf(stream, s.open.value))
  }

  /** What one alert, of any key, does to the groups of key `k`. */
  ghost function KeyStep(window: real, stream: seq<Alert>, k: Key, i: nat, s: KeyState): (r: KeyState)
    requires i < |stream| && Proper(stream, s)
    ensures Proper(stream, r)
  {
    var s' := if Closing(window, stream, i, s) then KeyState(s.done + [s.open.value], None) else s;
    if stream[i].Key() != k then s'
    else if s'.open.Some? then KeyState(s'.done, Some(s'.open.value + [i]))
    else KeyState(s'.done, Some([i]))
  }

  ghost predicate AreKeyStates(window: real, stream: seq<Alert>, k: Key, n: nat, ss: seq<KeyState>) {
    && n <= |stream| && |ss| == n + 1 && ss[0] == KeyState([], None)
    && (forall i :: 0 <= i <= n ==> Proper(stream, ss[i]))
    && forall i :: 0 <= i < n ==> ss[i + 1] == KeyStep(window, stream, k, i, ss[i])
  }

  lemma {:induction false} KeyStatesExist(window: real, stream: seq<Alert>, k: Key, n: nat)
    requires n <= |stream|
    ensures exists ss :: AreKeyStates(window, stream, k, n, ss)
  {
    if n == 0 {
      assert AreKeyStates(window, stream, k, 0, [KeyState([], None)]);
    } else {
      KeyStatesExist(window, stream, k, n - 1);
      var ss :| AreKeyStates(window, stream, k, n - 1, ss);
      assert AreKeyStates(window, stream, k, n, ss + [KeyStep(window, stream, k, n - 1, ss[n - 1])]);
    }
  }

  /** The state of key `k` before each alert, and at the end. */
  ghost function KeyStates(window: real, stream: seq<Alert>, k: Key): (ss: seq<KeyState>)
    ensures AreKeyStates(window, stream, k, |stream|, ss)
  {
    KeyStatesExist(window, stream, k, |stream|);
    var ss :| AreKeyStates(window, stream, k, |stream|, ss);
    ss
  }

  ghost function Sessions(s: KeyState): seq<Members> {
    if s.open.Some? then s.done + [s.open.value] else s.done
  }

  /** All groups of key `k`, in order. */
  ghost function GroupsOf(window: real, stream: seq<Alert>, k: Key): (r: seq<Members>)
    ensures AllInside(stream, r)
  {
    Sessions(KeyStates(window, stream, k)[|stream|])
  }

  ghost function Enrich(stream: seq<Alert>, groups: seq<Members>): (r: seq<Enriched>)
    requires AllInside(stream, groups)
    ensures |r| == |groups| && forall j :: 0 <= j < |r| ==> r[j] == Flushed(GroupOf(stream, groups[j]))
  {
    if groups == [] then [] else [Flushed(GroupOf(stream, groups[0]))] + Enrich(stream, groups[1..])
  }

  /** The yielded alerts of key `k`. */
  ghost function OfKey(out: seq<Enriched>, k: Key): seq<Enriched> {
    if out == [] then []
    else if (out[0].wallet, out[0].assetPair) == k then [out[0]] + OfKey(out[1..], k)
    else OfKey(out[1..], k)
  }

  lemma {:induction false} OfKeyConcat(a: seq<Enriched>, b: seq<Enriched>, k: Key)
    ensures OfKey(a + b, k) == OfKey(a, k) + OfKey(b, k)
  {
    if a == [] {
      assert a + b == b;
    } else {
      OfKeyConcat(a[1..], b, k);
      assert (a + b)[1..] == a[1..] + b;
    }
  }

  ghost predicate Keyed(groups: map<Key, Summary>) {
    forall k :: k in groups ==> groups[k].key == k
  }

  lemma {:induction false} OfKeyFlushed(groups: map<Key, Summary>, keys: seq<Key>, k: Key)
    requires Keyed(groups) && Distinct(keys) && forall x :: x in keys ==> x in groups
    ensures OfKey(FlushEach(groups, keys), k) == if k in keys then [Flushed(groups[k])] else []
  {
    if keys != [] {
      OfKeyFlushed(groups, keys[1..], k);
      assert FlushEach(groups, keys)[1..] == FlushEach(groups, keys[1..]);
      assert keys[0] !in keys[1..];
    }
  }

  ghost predicate StaleIn(window: real, b: Buffer, a: Alert, k: Key) {
    k in b.groups && IsStale(window, a.detectedAt, b.groups[k])
  }

  /** The part of one loop step, from `b` to `r`, that concerns key `k`. */
  ghost predicate StepsForKey(window: real, b: Buffer, a: Alert, k: Key, r: Buffer) {
    && OfKey(r.out, k) ==
       (if StaleIn(window, b, a, k) then OfKey(b.out, k) + [Flushed(b.groups[k])] else OfKey(b.out, k))
    && (if k == a.Key() then
          k in r.groups &&
          r.groups[k] == if k in b.groups && !StaleIn(window, b, a, k) then Absorbed(b.groups[k], a) else Started(a)
        else
          && (k in r.groups <==> k in b.groups && !StaleIn(window, b, a, k))
          && (k in r.groups ==> r.groups[k] == b.groups[k]))
  }

  lemma StepForKey(window: real, b: Buffer, a: Alert, k: Key)
    requires Lists(b.order, b.groups.Keys) && Keyed(b.groups)
    ensures Keyed(Step(window, b, a).groups) && StepsForKey(window, b, a, k, Step(window, b, a))
  {
    var stale := Pick(window, a.detectedAt, b.groups, b.order, true);
    PickMembers(window, a.detectedAt, b.groups, b.order, true);
    OfKeyConcat(b.out, FlushEach(b.groups, stale), k);
    OfKeyFlushed(b.groups, stale, k);
  }

  ghost predicate Matches(stream: seq<Alert>, b: Buffer, k: Key, s: KeyState)
    requires Proper(stream, s)
  {
    && (k in b.groups <==> s.open.Some?)
    && (k in b.groups ==> b.groups[k] == GroupOf(stream, s.open.value))
    && OfKey(b.out, k) == Enrich(stream, s.done)
  }

  lemma GroupOfSnoc(stream: seq<Alert>, g: Members, i: nat)
    requires Inside(stream, g) && i < |stream|
    ensures Inside(stream, g + [i]) && GroupOf(stream, g + [i]) == Absorbed(GroupOf(stream, g), stream[i])
  {
    assert (g + [i])[..|g|] == g;
  }

  lemma EnrichSnoc(stream: seq<Alert>, groups: seq<Members>, g: Members)
    requires AllInside(stream, groups) && Inside(stream, g)
    ensures AllInside(stream, groups + [g])
    ensures Enrich(stream, groups + [g]) == Enrich(stream, groups) + [Flushed(GroupOf(stream, g))]
  {
  }

  lemma MatchesStep(window: real, stream: seq<Alert>, b: Buffer, r: Buffer, i: nat, k: Key, s: KeyState)
    requires i < |stream| && StepsForKey(window, b, stream[i], k, r)
    requires Proper(stream, s) && Matches(stream, b, k, s)
    ensures Matches(stream, r, k, KeyStep(window, stream, k, i, s))
  {
    assert Closing(window, stream, i, s) <==> StaleIn(window, b, stream[i], k);
    assert GroupOf(stream, [i]) == Started(stream[i]);
    if s.open.Some? {
      GroupOfSnoc(stream, s.open.value, i);
      EnrichSnoc(stream, s.done, s.open.value);
    }
  }

  lemma {:induction false} StatesMatch(window: real, stream: seq<Alert>, k: Key, n: nat)
    requires n <= |stream|
    ensures Keyed(States(window, stream)[n].groups)
    ensures Matches(stream, States(window, stream)[n], k, KeyStates(window, stream, k)[n])
  {
    if n > 0 {
      var bs, ss := States(window, stream), KeyStates(window, stream, k);
      StatesMatch(window, stream, k, n - 1);
      StepForKey(window, bs[n - 1], stream[n - 1], k);
      MatchesStep(window, stream, bs[n - 1], bs[n], n - 1, k, ss[n - 1]);
    }
  }

  /** Whatever other keys interleave, the alerts yielded for a key are the enrichments of that key's own
      groups, which depend on its alerts and on the times of the others alone. */
  lemma YieldsGroupsOfKey(window: real, stream: seq<Alert>, k: Key)
    ensures OfKey(Yielded(window, stream), k) == Enrich(stream, GroupsOf(window, stream, k))
  {
    var n := |stream|;
    var b, s := States(window, stream)[n], KeyStates(window, stream, k)[n];
    StatesMatch(window, stream, k, n);
    OfKeyConcat(b.out, FlushEach(b.groups, SortedKeys(b.groups.Keys)), k);
    OfKeyFlushed(b.groups, SortedKeys(b.groups.Keys), k);
    if s.open.Some? {
      EnrichSnoc(stream, s.done, s.open.value);
    }
  }

  // ------------------------------------------------------ nothing is dropped

  /** The positions of key `k` among the first `n` alerts. */
  ghost function IndicesOf(stream: seq<Alert>, k: Key, n: nat): (r: seq<nat>)
    requires n <= |stream|
    ensures forall x :: 0 <= x < |r| ==> r[x] < n
  {
    if n == 0 then []
    else if stream[n - 1].Key() == k then IndicesOf(stream, k, n - 1) + [n - 1]
    else IndicesOf(stream, k, n - 1)
  }

  /** They are exactly those positions, in ascending order, so none occurs twice. */
  lemma {:induction false} IndicesAreExact(stream: seq<Alert>, k: Key, n: nat)
    requires n <= |stream|
    ensures forall i :: i in IndicesOf(stream, k, n) <==> 0 <= i < n && stream[i].Key() == k
    ensures forall x, y :: 0 <= x < y < |IndicesOf(stream, k, n)| ==>
              IndicesOf(stream, k, n)[x] < IndicesOf(stream, k, n)[y]
  {
    if n > 0 {
      IndicesAreExact(stream, k, n - 1);
    }
  }

  ghost function Concat(groups: seq<Members>): seq<nat> {
    if groups == [] then [] else Concat(groups[..|groups| - 1]) + groups[|groups| - 1]
  }

  ghost function AllMembers(s: KeyState): seq<nat> {
    Concat(s.done) + if s.open.Some? then s.open.value else []
  }

  lemma ConcatSnoc(groups: seq<Members>, g: Members)
    ensures Concat(groups + [g]) == Concat(groups) + g
  {
    assert (groups + [g])[..|groups|] == groups;
  }

  lemma MembersStep(window: real, stream: seq<Alert>, k: Key, i: nat, s: KeyState)
    requires i < |stream| && Proper(stream, s)
    ensures AllMembers(KeyStep(window, stream, k, i, s)) ==
            if stream[i].Key() == k then AllMembers(s) + [i] else AllMembers(s)
  {
    if s.open.Some? {
      ConcatSnoc(s.done, s.open.value);
    }
  }

  lemma {:induction false} MembersAreIndices(window: real, stream: seq<Alert>, k: Key, n: nat)
    requires n <= |stream|
    ensures AllMembers(KeyStates(window, stream, k)[n]) == IndicesOf(stream, k, n)
  {
    if n > 0 {
      var ss := KeyStates(window, stream, k);
      MembersAreIndices(window, stream, k, n - 1);
      MembersStep(window, stream, k, n - 1, ss[n - 1]);
    }
  }

  /** On any stream, in any order, the groups of a key put one after the other are exactly the positions of
      that key's alerts: every alert lands in one group, once, in arrival order. */
  lemma EveryAlertInOneGroup(window: real, stream: seq<Alert>, k: Key)
    ensures var members := Concat(GroupsOf(window, stream, k));
            && members == IndicesOf(stream, k, |stream|)
            && (forall i :: i in members <==> 0 <= i < |stream| && stream[i].Key() == k)
            && forall x, y :: 0 <= x < y < |members| ==> members[x] < members[y]
  {
    var s := KeyStates(window, stream, k)[|stream|];
    MembersAreIndices(window, stream, k, |stream|);
    IndicesAreExact(stream, k, |stream|);
    if s.open.Some? {
      ConcatSnoc(s.done, s.open.value);
    }
  }

  // ---------------------------------------------------------- ordered streams

  ghost predicate Ordered(stream: seq<Alert>) {
    forall i, j :: 0 <= i < j < |stream| ==> stream[i].detectedAt <= stream[j].detectedAt
  }

  /** Position `i` starts a new session or joins the last one. */
  ghost function Extend(sessions: seq<Members>, startsNew: bool, i: nat): (r: seq<Members>)
    ensures r != [] && r[|r| - 1] != []
  {
    var m := |sessions| - 1;
    if startsNew || sessions == [] then sessions + [[i]] else sessions[..m] + [sessions[m] + [i]]
  }

  /** The plain session split: a new group starts at every gap of at least the window. */
  ghost function Split(window: real, stream: seq<Alert>, indices: seq<nat>): (r: seq<Members>)
    requires forall j :: 0 <= j < |indices| ==> indices[j] < |stream|
    ensures indices != [] ==> r != [] && r[|r| - 1] != []
  {
    if indices == [] then []
    else
      var n := |indices| - 1;
      var gap := n > 0 && stream[indices[n]].detectedAt - stream[indices[n - 1]].detectedAt >= window;
      Extend(Split(window, stream, indices[..n]), gap, indices[n])
  }

  /** The time of the last alert of a key. */
  ghost function LastTime(stream: seq<Alert>, own: seq<nat>): real
    requires own != [] && own[|own| - 1] < |stream|
  {
    stream[own[|own| - 1]].detectedAt
  }

  /** The state of one key on an ordered stream, after `n` alerts, of which `own` are its own. */
  ghost predicate InSessions(window: real, stream: seq<Alert>, n: nat, own: seq<nat>, s: KeyState)
    requires n <= |stream| && Proper(stream, s) && forall x :: 0 <= x < |own| ==> own[x] < n
  {
    && Split(window, stream, own) == Sessions(s)
    && (s.open.Some? ==> own != [] && GroupOf(stream, s.open.value).lastSeen == LastTime(stream, own))
    && (s.open.None? && own != [] ==> stream[n - 1].detectedAt - LastTime(stream, own) >= window)
  }

  lemma SplitSnoc(window: real, stream: seq<Alert>, own: seq<nat>, i: nat)
    requires i < |stream| && forall x :: 0 <= x < |own| ==> own[x] < |stream|
    ensures var gap := own != [] && stream[i].detectedAt - LastTime(stream, own) >= window;
            Split(window, stream, own + [i]) == Extend(Split(window, stream, own), gap, i)
  {
    assert (own + [i])[..|own|] == own;
  }

  lemma SessionsExtend(window: real, stream: seq<Alert>, k: Key, i: nat, s: KeyState)
    requires i < |stream| && Proper(stream, s)
    ensures Sessions(KeyStep(window, stream, k, i, s)) ==
            if stream[i].Key() != k then Sessions(s)
            else Extend(Sessions(s), s.open.None? || Closing(window, stream, i, s), i)
  {
    if s.open.Some? {
      assert (s.done + [s.open.value])[..|s.done|] == s.done;
    }
  }

  /** On an ordered stream the high-water mark of the joined group is the alert's own time. */
  lemma OpenAfterStep(window: real, stream: seq<Alert>, k: Key, i: nat, s: KeyState)
    requires i < |stream| && Proper(stream, s) && stream[i].Key() == k
    ensures var s' := KeyStep(window, stream, k, i, s);
            s'.open.Some? && GroupOf(stream, s'.open.value).lastSeen ==
            if s.open.None? || Closing(window, stream, i, s) then stream[i].detectedAt
            else Max(GroupOf(stream, s.open.value).lastSeen, stream[i].detectedAt)
  {
    assert GroupOf(stream, [i]) == Started(stream[i]);
    if s.open.Some? {
      GroupOfSnoc(stream, s.open.value, i);
    }
  }

  lemma SessionsStepOwn(window: real, stream: seq<Alert>, i: nat, own: seq<nat>, s: KeyState)
    requires Ordered(stream) && i < |stream| && Proper(stream, s)
    requires (forall x :: 0 <= x < |own| ==> own[x] < i) && InSessions(window, stream, i, own, s)
    ensures InSessions(window, stream, i + 1, own + [i], KeyStep(window, stream, stream[i].Key(), i, s))
  {
    SessionsExtend(window, stream, stream[i].Key(), i, s);
    SplitSnoc(window, stream, own, i);
    OpenAfterStep(window, stream, stream[i].Key(), i, s);
  }

  lemma SessionsStep(window: real, stream: seq<Alert>, k: Key, i: nat, own: seq<nat>, s: KeyState)
    requires Ordered(stream) && i < |stream| && Proper(stream, s)
    requires (forall x :: 0 <= x < |own| ==> own[x] < i) && InSessions(window, stream, i, own, s)
    ensures InSessions(window, stream, i + 1, if stream[i].Key() == k then own + [i] else own,
                       KeyStep(window, stream, k, i, s))
  {
    if stream[i].Key() == k {
      SessionsStepOwn(window, stream, i, own, s);
    } else {
      SessionsExtend(window, stream, k, i, s);
    }
  }

  lemma {:induction false} RunsInSessions(window: real, stream: seq<Alert>, k: Key, n: nat)
    requires Ordered(stream) && n <= |stream|
    ensures InSessions(window, stream, n, IndicesOf(stream, k, n), KeyStates(window, stream, k)[n])
  {
    if n > 0 {
      RunsInSessions(window, stream, k, n - 1);
      SessionsStep(window, stream, k, n - 1, IndicesOf(stream, k, n - 1), KeyStates(window, stream, k)[n - 1]);
    }
  }

  /** On a stream in event-time order, the alerts yielded for each key are the sessions of that key's own
      subsequence, whatever other keys interleave. */
  lemma OrderedStreamsSplitIntoSessions(window: real, stream: seq<Alert>, k: Key)
    requires Ordered(stream)
    ensures var sessions := Split(window, stream, IndicesOf(stream, k, |stream|));
            AllInside(stream, sessions) && OfKey(Yielded(window, stream), k) == Enrich(stream, sessions)
  {
    RunsInSessions(window, stream, k, |stream|);
    YieldsGroupsOfKey(window, stream, k);
  }

  // --------------------------------------------------------------- late alerts

  /** On any stream: a group stays open exactly until some alert, of whatever key, arrives at least a window
      after its high-water mark; so a late alert joins it only if none has. */
  lemma {:induction false} OpenUntilOvertaken(
    window: real, stream: seq<Alert>, k: Key, p: nat, n: nat, g: Members)
    requires p < n <= |stream| && stream[p].Key() == k && KeyStates(window, stream, k)[p + 1].open == Some(g)
    requires forall j :: p < j < n ==> stream[j].Key() != k
    ensures KeyStates(window, stream, k)[n].open ==
            if forall j :: p < j < n ==> !IsStale(window, stream[j].detectedAt, GroupOf(stream, g))
            then Some(g) else None
  {
    if n > p + 1 {
      OpenUntilOvertaken(window, stream, k, p, n - 1, g);
    }
  }

  /** So a late alert within the window of its key's last alert may still start a new group, because an
      alert of another key has already moved event time on. */
  lemma LateAlertStartsNewGroup(first: Alert, other: Alert, late: Alert)
    requires first.Key() == late.Key() && other.Key() != first.Key()
    requires first.detectedAt == 0.0 && other.detectedAt == 100.0 && late.detectedAt == 30.0
    ensures GroupsOf(60.0, [first, other, late], first.Key()) == [[0], [2]]
  {
    var stream, k := [first, other, late], first.Key();
    var ss := KeyStates(60.0, stream, k);
    assert ss[1] == KeyStep(60.0, stream, k, 0, ss[0]);
    assert ss[1] == KeyState([], Some([0]));
    assert GroupOf(stream, [0]) == Started(first);
    assert ss[2] == KeyState([[0]], None);
    assert ss[3] == KeyState([[0]], Some([2]));
  }
}
