/** The order in which the deduplicator yields the groups that one alert closes (alerts/deduplicator.py). */
module YieldOrder {
  import opened Common
  import opened Deduplicator

  ghost predicate Ascends(starts: map<Key, nat>, keys: seq<Key>) {
    && (forall k :: k in keys ==> k in starts)
    && forall x, y :: 0 <= x < y < |keys| ==> starts[keys[x]] < starts[keys[y]]
  }

  lemma HeadBelow(starts: map<Key, nat>, order: seq<Key>, some: seq<Key>)
    requires order != [] && Ascends(starts, order) && Ascends(starts, some) && forall k :: k in some ==> k in order[1..]
    ensures Ascends(starts, [order[0]] + some)
  {
    forall k | k in some
      ensures starts[order[0]] < starts[k]
    {
      var x :| 0 <= x < |order[1..]| && order[1..][x] == k;
      assert order[x + 1] == k;
    }
  }

  lemma {:induction false} PickAscends(
    window: real, now: real, groups: map<Key, Summary>, order: seq<Key>, stale: bool, starts: map<Key, nat>)
    requires Distinct(order) && (forall k :: k in order ==> k in groups) && Ascends(starts, order)
    ensures Ascends(starts, Pick(window, now, groups, order, stale))
  {
    if order != [] {
      PickMembers(window, now, groups, order[1..], stale);
      assert Ascends(starts, order[1..]);
      PickAscends(window, now, groups, order[1..], stale, starts);
      HeadBelow(starts, order, Pick(window, now, groups, order[1..], stale));
    }
  }

  ghost function Start(s: KeyState): nat {
    if s.open.Some? && s.open.value != [] then s.open.value[0] else 0
  }

  /** Where the groups begin that are open before alert `n`. */
  ghost function Starts(window: real, stream: seq<Alert>, n: nat): map<Key, nat>
    requires n <= |stream|
  {
    map k | k in States(window, stream)[n].groups :: Start(KeyStates(window, stream, k)[n])
  }

  lemma StartsBefore(window: real, stream: seq<Alert>, k: Key, n: nat)
    requires n <= |stream| && KeyStates(window, stream, k)[n].open.Some?
    ensures Start(KeyStates(window, stream, k)[n]) < n
  {
    var s := KeyStates(window, stream, k)[n];
    MembersAreIndices(window, stream, k, n);
    assert AllMembers(s)[|Concat(s.done)|] == s.open.value[0];
  }

  lemma StartAfterStep(window: real, stream: seq<Alert>, k: Key, i: nat)
    requires i < |stream| && k in States(window, stream)[i + 1].groups
    ensures var b, ss := States(window, stream)[i], KeyStates(window, stream, k);
            if k in b.groups && !StaleIn(window, b, stream[i], k)
            then Start(ss[i + 1]) == Start(ss[i]) < i
            else k == stream[i].Key() && Start(ss[i + 1]) == i
  {
    StatesMatch(window, stream, k, i);
    StatesMatch(window, stream, k, i + 1);
    StepForKey(window, States(window, stream)[i], stream[i], k);
    if k in States(window, stream)[i].groups { StartsBefore(window, stream, k, i); }
  }

  lemma AscendsSnoc(starts: map<Key, nat>, later: map<Key, nat>, kept: seq<Key>, order: seq<Key>, k: Key, i: nat)
    requires Ascends(starts, kept) && (order == kept || (k !in kept && order == kept + [k]))
    requires forall x :: x in order ==> x in later
    requires forall x :: x in order ==> if x in kept then later[x] == starts[x] < i else later[x] == i
    ensures Ascends(later, order)
  {
    forall x | 0 <= x < |kept|
      ensures order[x] in kept
    {
      assert order[x] == kept[x];
    }
  }

  /** The dictionary of open groups is in order of opening. */
  lemma {:induction false} OpenInOrder(window: real, stream: seq<Alert>, n: nat)
    requires n <= |stream|
    ensures Ascends(Starts(window, stream, n), States(window, stream)[n].order)
  {
    if n > 0 {
      OpenInOrder(window, stream, n - 1);
      OpenInOrderStep(window, stream, n - 1);
    }
  }

  lemma OrderAfterStep(window: real, b: Buffer, a: Alert)
    requires Lists(b.order, b.groups.Keys)
    ensures var kept, order := Pick(window, a.detectedAt, b.groups, b.order, false), Step(window, b, a).order;
            && (order == kept || (a.Key() !in kept && order == kept + [a.Key()]))
            && (forall k :: k in kept <==> k in b.groups && !StaleIn(window, b, a, k))
            && forall k :: k in order <==> k in Step(window, b, a).groups
  {
    PickMembers(window, a.detectedAt, b.groups, b.order, false);
    PickMembers(window, a.detectedAt, b.groups, b.order, true);
  }

  lemma OpenInOrderStep(window: real, stream: seq<Alert>, i: nat)
    requires i < |stream| && Ascends(Starts(window, stream, i), States(window, stream)[i].order)
    ensures Ascends(Starts(window, stream, i + 1), States(window, stream)[i + 1].order)
  {
    var b, a, order := States(window, stream)[i], stream[i], States(window, stream)[i + 1].order;
    var kept := Pick(window, a.detectedAt, b.groups, b.order, false);
    var starts, later := Starts(window, stream, i), Starts(window, stream, i + 1);
    OrderAfterStep(window, b, a);
    PickAscends(window, a.detectedAt, b.groups, b.order, false, starts);
    assert forall k :: k in order <==> k in later;
    forall k | k in order
      ensures if k in kept then later[k] == starts[k] < i else later[k] == i
    {
      StartAfterStep(window, stream, k, i);
    }
    AscendsSnoc(starts, later, kept, order, a.Key(), i);
  }

  /** Alert `i` closes the group `g` of key `k`. */
  ghost predicate Closes(window: real, stream: seq<Alert>, i: nat, k: Key, g: Members)
    requires i < |stream|
  {
    Closing(window, stream, i, KeyStates(window, stream, k)[i]) && KeyStates(window, stream, k)[i].open == Some(g)
  }

  ghost predicate HeadsAscend(groups: seq<Members>) {
    && (forall j :: 0 <= j < |groups| ==> groups[j] != [])
    && forall x, y :: 0 <= x < y < |groups| ==> groups[x][0] < groups[y][0]
  }

  /** The groups that alert `i` closes, in order of opening. */
  ghost predicate AreClosed(window: real, stream: seq<Alert>, i: nat, closed: seq<Members>)
    requires i < |stream|
  {
    && AllInside(stream, closed) && HeadsAscend(closed)
    && forall g :: g in closed <==> exists k :: Closes(window, stream, i, k, g)
  }

  lemma StaleIff(window: real, stream: seq<Alert>, i: nat, k: Key)
    requires i < |stream|
    ensures var b, s := States(window, stream)[i], KeyStates(window, stream, k)[i];
            && (StaleIn(window, b, stream[i], k) <==> Closing(window, stream, i, s))
            && (k in b.groups ==> s.open.Some? && b.groups[k] == GroupOf(stream, s.open.value))
            && (k in b.groups ==> Starts(window, stream, i)[k] == s.open.value[0])
  {
    StatesMatch(window, stream, k, i);
  }

  /** `closed` are the open groups of the keys. */
  ghost predicate AreOpenOf(window: real, stream: seq<Alert>, i: nat, keys: seq<Key>, closed: seq<Members>)
    requires i < |stream|
  {
    |closed| == |keys| &&
    forall j :: 0 <= j < |keys| ==> Closes(window, stream, i, keys[j], closed[j])
  }

  lemma {:induction false} OpenOfExist(window: real, stream: seq<Alert>, i: nat, keys: seq<Key>)
    returns (closed: seq<Members>)
    requires i < |stream| && forall k :: k in keys ==> StaleIn(window, States(window, stream)[i], stream[i], k)
    ensures forall k :: k in keys ==> k in States(window, stream)[i].groups
    ensures AreOpenOf(window, stream, i, keys, closed) && AllInside(stream, closed)
    ensures FlushEach(States(window, stream)[i].groups, keys) == Enrich(stream, closed)
  {
    closed := [];
    if keys != [] {
      var rest := OpenOfExist(window, stream, i, keys[1..]);
      assert keys[0] in keys;
      StaleIff(window, stream, i, keys[0]);
      closed := [KeyStates(window, stream, keys[0])[i].open.value] + rest;
      assert closed[1..] == rest;
    }
  }

  lemma OpenOfAreClosed(window: real, stream: seq<Alert>, i: nat, stale: seq<Key>, closed: seq<Members>)
    requires i < |stream| && Ascends(Starts(window, stream, i), stale) && AllInside(stream, closed)
    requires forall k :: k in stale <==> StaleIn(window, States(window, stream)[i], stream[i], k)
    requires AreOpenOf(window, stream, i, stale, closed)
    ensures AreClosed(window, stream, i, closed)
  {
    forall j | 0 <= j < |closed|
      ensures closed[j] != [] && closed[j][0] == Starts(window, stream, i)[stale[j]]
    {
      assert stale[j] in stale;
      assert Closes(window, stream, i, stale[j], closed[j]);
      StaleIff(window, stream, i, stale[j]);
    }
    forall g
      ensures g in closed <==> exists k :: Closes(window, stream, i, k, g)
    {
      if g in closed {
        var j :| 0 <= j < |closed| && closed[j] == g;
        assert Closes(window, stream, i, stale[j], g);
      }
      if k :| Closes(window, stream, i, k, g) {
        StaleIff(window, stream, i, k);
        var j :| 0 <= j < |stale| && stale[j] == k;
        assert Closes(window, stream, i, stale[j], closed[j]);
      }
    }
  }

  lemma SameFirst(c: seq<Members>, d: seq<Members>)
    requires HeadsAscend(c) && HeadsAscend(d) && (forall g :: g in c <==> g in d) && c != []
    ensures d != [] && c[0] == d[0]
  {
    assert c[0] in d;
    var x :| 0 <= x < |d| && d[x] == c[0];
    assert d[0] in c;
    var y :| 0 <= y < |c| && c[y] == d[0];
  }

  lemma {:induction false} HeadsUnique(c: seq<Members>, d: seq<Members>)
    requires HeadsAscend(c) && HeadsAscend(d) && forall g :: g in c <==> g in d
    ensures c == d
  {
    if c == [] && d != [] {
      SameFirst(d, c);
    } else if c != [] {
      SameFirst(c, d);
      forall g
        ensures g in c[1..] <==> g in d[1..]
      {
        TailMembers(c, g);
        TailMembers(d, g);
      }
      HeadsUnique(c[1..], d[1..]);
    }
  }

  lemma TailMembers(c: seq<Members>, g: Members)
    requires HeadsAscend(c) && c != []
    ensures g in c[1..] <==> g in c && g != c[0]
  {
  }

  lemma ClosedExist(window: real, stream: seq<Alert>, i: nat) returns (closed: seq<Members>)
    requires i < |stream|
    ensures AreClosed(window, stream, i, closed)
    ensures States(window, stream)[i + 1].out == States(window, stream)[i].out + Enrich(stream, closed)
  {
    var b, a := States(window, stream)[i], stream[i];
    OpenInOrder(window, stream, i);
    PickMembers(window, a.detectedAt, b.groups, b.order, true);
    PickAscends(window, a.detectedAt, b.groups, b.order, true, Starts(window, stream, i));
    var stale := Pick(window, a.detectedAt, b.groups, b.order, true);
    closed := OpenOfExist(window, stream, i, stale);
    OpenOfAreClosed(window, stream, i, stale, closed);
  }

  /** The groups that one alert closes are yielded in the order in which they were opened, not in the order in which
      they fell silent. */
  lemma YieldedInOrderOfOpening(window: real, stream: seq<Alert>, i: nat, closed: seq<Members>)
    requires i < |stream|
    ensures exists c :: AreClosed(window, stream, i, c)
    ensures AreClosed(window, stream, i, closed) ==>
              States(window, stream)[i + 1].out == States(window, stream)[i].out + Enrich(stream, closed)
  {
    var c := ClosedExist(window, stream, i);
    if AreClosed(window, stream, i, closed) { HeadsUnique(c, closed); }
  }

  lemma NothingClosed(window: real, stream: seq<Alert>, i: nat)
    requires i < |stream| && forall k :: !Closing(window, stream, i, KeyStates(window, stream, k)[i])
    ensures States(window, stream)[i + 1].out == States(window, stream)[i].out
  {
    assert AreClosed(window, stream, i, []);
    YieldedInOrderOfOpening(window, stream, i, []);
  }

  ghost predicate IsSilenceExample(a: Alert, b: Alert, again: Alert, c: Alert) {
    && a.Key() == again.Key() && b.Key() != a.Key()
    && a.detectedAt == 0.0 && b.detectedAt == 1.0 && again.detectedAt == 5.0 && c.detectedAt == 100.0
  }

  lemma SilenceStates(a: Alert, b: Alert, again: Alert, c: Alert, k: Key)
    requires IsSilenceExample(a, b, again, c)
    ensures var stream := [a, b, again, c];
            var ss := KeyStates(60.0, stream, k);
            && !Closing(60.0, stream, 0, ss[0]) && !Closing(60.0, stream, 1, ss[1]) && !Closing(60.0, stream, 2, ss[2])
            && ss[3].open == if k == a.Key() then Some([0, 2]) else if k == b.Key() then Some([1]) else None
  {
    var stream := [a, b, again, c];
    var ss := KeyStates(60.0, stream, k);
    assert GroupOf(stream, [0]) == Started(a) && GroupOf(stream, [1]) == Started(b);
    assert ss[1] == KeyStep(60.0, stream, k, 0, ss[0]);
    assert ss[2] == KeyStep(60.0, stream, k, 1, ss[1]);
    assert ss[3] == KeyStep(60.0, stream, k, 2, ss[2]);
    assert [0] + [2] == [0, 2];
  }

  lemma SilentBefore(a: Alert, b: Alert, again: Alert, c: Alert)
    requires IsSilenceExample(a, b, again, c)
    ensures States(60.0, [a, b, again, c])[3].out == []
  {
    var stream := [a, b, again, c];
    forall k { SilenceStates(a, b, again, c, k); }
    NothingClosed(60.0, stream, 0);
    NothingClosed(60.0, stream, 1);
    NothingClosed(60.0, stream, 2);
  }

  lemma SilenceClosed(a: Alert, b: Alert, again: Alert, c: Alert)
    requires IsSilenceExample(a, b, again, c)
    ensures AreClosed(60.0, [a, b, again, c], 3, [[0, 2], [1]])
    ensures GroupOf([a, b, again, c], [1]).lastSeen == 1.0 && GroupOf([a, b, again, c], [0, 2]).lastSeen == 5.0
  {
    var stream := [a, b, again, c];
    GroupOfSnoc(stream, [0], 2);
    assert [0] + [2] == [0, 2];
    forall k { SilenceStates(a, b, again, c, k); }
    assert Closes(60.0, stream, 3, a.Key(), [0, 2]) && Closes(60.0, stream, 3, b.Key(), [1]);
  }

  /** With a window of 60: `a` at 0, `b` at 1 and `a` at 5 are closed together at 100, and `a` comes first although `b`
      fell silent before it. */
  lemma SilenceOrderIsBroken(a: Alert, b: Alert, again: Alert, c: Alert)
    requires a.Key() == again.Key() && b.Key() != a.Key()
    requires a.detectedAt == 0.0 && b.detectedAt == 1.0 && again.detectedAt == 5.0 && c.detectedAt == 100.0
    ensures var stream := [a, b, again, c];
            && AllInside(stream, [[0, 2], [1]])
            && States(60.0, stream)[4].out == Enrich(stream, [[0, 2], [1]])
            && GroupOf(stream, [1]).lastSeen < GroupOf(stream, [0, 2]).lastSeen
  {
    var stream := [a, b, again, c];
    SilentBefore(a, b, again, c);
    SilenceClosed(a, b, again, c);
    YieldedInOrderOfOpening(60.0, stream, 3, [[0, 2], [1]]);
  }
}
