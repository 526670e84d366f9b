/** What an emitted alert says, and in which order the groups still open at the end come out (alerts/deduplicator.py,
    lines 40-135). */
module EmittedAlerts {
  import opened Common
  import opened Deduplicator
  import opened Ordering

  /** An emitted alert has the key of its group, in ascending order exactly the detectors of its members, the largest of
      their scores and the earliest of their times. */
  lemma {:induction false} EmittedTold(stream: seq<Alert>, g: Members)
    requires Inside(stream, g)
    ensures var e := Flushed(GroupOf(stream, g));
            && (e.wallet, e.assetPair) == (stream[g[0]].wallet, stream[g[0]].assetPair)
            && (forall i, j :: 0 <= i < j < |e.detectors| ==> StringLess(e.detectors[i], e.detectors[j]))
            && (forall d :: d in e.detectors <==> exists j :: 0 <= j < |g| && stream[g[j]].detector == d)
            && (forall j :: 0 <= j < |g| ==> stream[g[j]].riskScore <= e.riskScore)
            && (exists j :: 0 <= j < |g| && stream[g[j]].riskScore == e.riskScore)
            && (forall j :: 0 <= j < |g| ==> e.detectedAt <= stream[g[j]].detectedAt)
            && (exists j :: 0 <= j < |g| && stream[g[j]].detectedAt == e.detectedAt)
  {
    var names := GroupOf(stream, g).detectors;
    DetectorsAreUnion(stream, g);
    ExtremesOfMembers(stream, g);
    DetectorsAscend(names);
  }

  lemma DetectorsAscend(names: set<string>)
    ensures forall d :: d in SortedDetectors(names) <==> d in names
    ensures var s := SortedDetectors(names); forall i, j :: 0 <= i < j < |s| ==> StringLess(s[i], s[j])
  {
    StringOrder();
    SortedElements(names, StringLe);
    SortedAscends(names, StringLe);
    var s := SortedDetectors(names);
    forall i, j | 0 <= i < j < |s|
      ensures StringLess(s[i], s[j])
    {
      StringLeIff(s[i], s[j]);
    }
  }

  /** Each field of its evidence is that of the last member that has it, and no other field is there. */
  lemma {:induction false} EmittedEvidence(stream: seq<Alert>, g: Members, k: string)
    requires Inside(stream, g)
    ensures var e := Flushed(GroupOf(stream, g));
            && (k in e.evidence <==> exists j :: 0 <= j < |g| && k in stream[g[j]].evidence)
            && (k in e.evidence ==>
                  exists j: nat :: LastWith(stream, g, k, j) && e.evidence[k] == stream[g[j]].evidence[k])
  {
    EvidenceOfLast(stream, g, k);
  }

  /** By wallet, and for one wallet by asset pair. */
  ghost predicate KeyPrecedes(k: Key, l: Key) {
    StringLess(k.0, l.0) || (k.0 == l.0 && StringLess(k.1, l.1))
  }

  /** The open groups after `n` alerts, in the order of their keys. */
  ghost predicate AreOpen(window: real, stream: seq<Alert>, keys: seq<Key>, rest: seq<Members>)
  {
    && |rest| == |keys| && AllInside(stream, rest)
    && (forall k :: k in keys <==> KeyStates(window, stream, k)[|stream|].open.Some?)
    && (forall j :: 0 <= j < |keys| ==> KeyStates(window, stream, keys[j])[|stream|].open == Some(rest[j]))
    && (forall j :: 0 <= j < |keys| ==> stream[rest[j][0]].Key() == keys[j])
    && forall i, j :: 0 <= i < j < |keys| ==> KeyPrecedes(keys[i], keys[j])
  }

  lemma SortedKeysAscend(keys: set<Key>)
    ensures var s := SortedKeys(keys); forall i, j :: 0 <= i < j < |s| ==> KeyPrecedes(s[i], s[j])
  {
    PairOrder();
    SortedElements(keys, PairLe);
    SortedAscends(keys, PairLe);
    var s := SortedKeys(keys);
    forall i, j | 0 <= i < j < |s|
      ensures KeyPrecedes(s[i], s[j])
    {
      PairLeIff(s[i], s[j]);
    }
  }

  lemma OpenOf(window: real, stream: seq<Alert>, k: Key)
    ensures var b, s := States(window, stream)[|stream|], KeyStates(window, stream, k)[|stream|];
            && (k in b.groups <==> s.open.Some?)
            && (k in b.groups ==>
                  b.groups[k] == GroupOf(stream, s.open.value) && stream[s.open.value[0]].Key() == k)
  {
    StatesMatch(window, stream, k, |stream|);
  }

  lemma {:induction false} OpenExist(window: real, stream: seq<Alert>, keys: seq<Key>) returns (rest: seq<Members>)
    requires forall k :: k in keys ==> k in States(window, stream)[|stream|].groups
    ensures |rest| == |keys| && AllInside(stream, rest)
    ensures forall j :: 0 <= j < |keys| ==> KeyStates(window, stream, keys[j])[|stream|].open == Some(rest[j])
    ensures forall k :: k in keys ==> k in States(window, stream)[|stream|].groups
    ensures FlushEach(States(window, stream)[|stream|].groups, keys) == Enrich(stream, rest)
  {
    rest := [];
    if keys != [] {
      var more := OpenExist(window, stream, keys[1..]);
      assert keys[0] in keys;
      OpenOf(window, stream, keys[0]);
      rest := [KeyStates(window, stream, keys[0])[|stream|].open.value] + more;
      assert rest[1..] == more;
    }
  }

  /** The groups that are still open when the stream ends come out last, in the order of their keys. */
  lemma RestInKeyOrder(window: real, stream: seq<Alert>) returns (keys: seq<Key>, rest: seq<Members>)
    ensures AreOpen(window, stream, keys, rest)
    ensures Yielded(window, stream) == States(window, stream)[|stream|].out + Enrich(stream, rest)
  {
    var groups := States(window, stream)[|stream|].groups;
    keys := SortedKeys(groups.Keys);
    SortedKeysAscend(groups.Keys);
    rest := OpenExist(window, stream, keys);
    forall k
      ensures k in keys <==> KeyStates(window, stream, k)[|stream|].open.Some?
    {
      OpenOf(window, stream, k);
    }
    forall j | 0 <= j < |keys|
      ensures stream[rest[j][0]].Key() == keys[j]
    {
      assert keys[j] in keys;
      OpenOf(window, stream, keys[j]);
    }
  }
}
