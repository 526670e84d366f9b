/** Reservoir sampling with explicit draws (data/reservoir_sampler.py). */
module ReservoirSampler {
  import opened Common

  /** One replacement step: fill up, then overwrite slot `draw` if it falls inside the reservoir. */
  function Place<T>(buffer: seq<T>, size: nat, x: T, draw: int): seq<T>
    requires |buffer| >= size ==> 0 <= draw
  {
    if |buffer| < size then buffer + [x]
    else if draw < size then buffer[draw := x]
    else buffer
  }

  /** Algorithm R: arrival number `seen + j` takes slot `draws[j]` of a full buffer. */
  ghost function Feed<T>(size: nat, buffer: seq<T>, items: seq<T>, draws: seq<int>): (r: seq<T>)
    requires |buffer| == size && |items| == |draws|
    requires forall j :: 0 <= j < |draws| ==> 0 <= draws[j]
    ensures |r| == size
    decreases |items|
  {
    if items == [] then buffer
    else Feed(size, Place(buffer, size, items[0], draws[0]), items[1..], draws[1..])
  }

  /** The buffer after all of `items`: the first `size` fill it, each later one makes one draw. */
  ghost function Sample<T>(size: nat, items: seq<T>, draws: seq<int>): (r: seq<T>)
    requires |draws| == (if |items| <= size then 0 else |items| - size)
    requires forall j :: 0 <= j < |draws| ==> 0 <= draws[j]
    ensures |r| == if |items| <= size then |items| else size
  {
    if |items| <= size then items else Feed(size, items[..size], items[size..], draws)
  }

  lemma {:induction false} FeedSnoc<T>(size: nat, buffer: seq<T>, items: seq<T>, draws: seq<int>, x: T, draw: nat)
    requires |buffer| == size && |items| == |draws|
    requires forall j :: 0 <= j < |draws| ==> 0 <= draws[j]
    ensures Feed(size, buffer, items + [x], draws + [draw]) == Place(Feed(size, buffer, items, draws), size, x, draw)
    decreases |items|
  {
    if items == [] {
      assert Feed(size, Place(buffer, size, x, draw), [], []) == Place(buffer, size, x, draw);
      assert (items + [x])[1..] == [] && (draws + [draw])[1..] == [];
    } else {
      assert (items + [x])[1..] == items[1..] + [x] && (draws + [draw])[1..] == draws[1..] + [draw];
      FeedSnoc(size, Place(buffer, size, items[0], draws[0]), items[1..], draws[1..], x, draw);
    }
  }

  lemma SampleSnoc<T>(size: nat, items: seq<T>, draws: seq<int>, x: T, draw: nat)
    requires |draws| == (if |items| <= size then 0 else |items| - size)
    requires forall j :: 0 <= j < |draws| ==> 0 <= draws[j]
    ensures |items| < size ==> Sample(size, items + [x], draws) == Sample(size, items, draws) + [x]
    ensures |items| >= size ==>
              Sample(size, items + [x], draws + [draw]) == Place(Sample(size, items, draws), size, x, draw)
  {
    if |items| >= size {
      assert (items + [x])[..size] == items[..size] && (items + [x])[size..] == items[size..] + [x];
      FeedSnoc(size, items[..size], items[size..], draws, x, draw);
      if |items| == size {
        assert items[..size] == items && items[size..] == [];
      }
    }
  }

  /** `buffer` is what legal draws make of `items`. */
  ghost predicate IsSample<T>(size: nat, buffer: seq<T>, items: seq<T>, draws: seq<int>) {
    && |draws| == (if |items| <= size then 0 else |items| - size)
    && (forall j :: 0 <= j < |draws| ==> 0 <= draws[j] <= size + j)
    && buffer == Sample(size, items, draws)
  }

  lemma IsSampleStep<T>(size: nat, buffer: seq<T>, items: seq<T>, draws: seq<int>, x: T, draw: nat)
    requires IsSample(size, buffer, items, draws)
    requires |buffer| >= size ==> draw <= |items|
    ensures IsSample(size, Place(buffer, size, x, draw), items + [x],
                     if |buffer| < size then draws else draws + [draw])
  {
    SampleSnoc(size, items, draws, x, draw);
  }

  datatype Snapshot<T> = Snapshot(items: seq<T>, timestamps: Option<seq<real>>)

  class DriftAwareReservoirSampler<T> {
    const reservoirSize: nat
    const flushInterval: nat
    var buffer: seq<T>
    var timestamps: seq<real>
    var totalSeen: nat
    var updatesSinceFlush: nat
    var disk: Option<Snapshot<T>>

    // What has arrived since the sampler was last empty or loaded, and the draws made for it.
    ghost var arrivals: seq<T>
    ghost var stamps: seq<real>
    ghost var draws: seq<int>
    // No recency-biased replacement has happened and nothing oversized was loaded.
    ghost var uniform: bool
    // A file with more rows than the reservoir holds was loaded.
    ghost var oversized: bool

    ghost predicate Valid()
      reads this
    {
      && reservoirSize > 0 && flushInterval > 0
      && |buffer| == |timestamps|
      && |arrivals| == |stamps| == totalSeen
      && (if oversized then |buffer| > reservoirSize && !uniform
          else |buffer| == if totalSeen < reservoirSize then totalSeen else reservoirSize)
      && (uniform ==>
            IsSample(reservoirSize, buffer, arrivals, draws) && IsSample(reservoirSize, timestamps, stamps, draws))
    }

    /** The source rejects non-positive sizes; a missing timestamp column reads as zeros. */
    constructor (size: nat, interval: nat, file: Option<Snapshot<T>>)
      requires size > 0 && interval > 0
      requires file.Some? && file.value.timestamps.Some? ==> |file.value.timestamps.value| == |file.value.items|
      ensures Valid() && reservoirSize == size && flushInterval == interval && disk == file
      ensures updatesSinceFlush == 0 && draws == []
      ensures buffer == arrivals == if file.Some? then file.value.items else []
      ensures totalSeen == |buffer| && oversized == (|buffer| > size) && uniform == !oversized
      ensures timestamps == stamps
      ensures file.Some? ==> timestamps == if file.value.timestamps.Some? then file.value.timestamps.value
                                           else seq(|buffer|, _ => 0.0)
    {
      reservoirSize, flushInterval, disk := size, interval, file;
      var items: seq<T> := if file.Some? then file.value.items else [];
      var times: seq<real> :=
        if file.Some? && file.value.timestamps.Some? then file.value.timestamps.value
        else seq(|items|, _ => 0.0);
      buffer, timestamps, totalSeen, updatesSinceFlush := items, times, |items|, 0;
      arrivals, stamps, draws, uniform, oversized := items, times, [], |items| <= size, |items| > size;
    }

    /** `update`.  `drift` is the detector's alarm, `draw` the random index chosen when the reservoir is full.
        The answer is false when the length assertion of the recency-biased mode fails. */
    method Update(example: T, timestamp: real, drift: bool, draw: nat) returns (ok: bool)
      requires Valid()
      requires |buffer| >= reservoirSize ==> draw < (if drift then reservoirSize else totalSeen + 1)
      modifies this
      ensures Valid()
      ensures ok <==> !(drift && oversized)
      ensures totalSeen == old(totalSeen) + 1 && oversized == old(oversized)
      ensures arrivals == old(arrivals) + [example] && stamps == old(stamps) + [timestamp]
      ensures uniform == (old(uniform) && !(drift && old(|buffer|) >= reservoirSize))
      ensures draws == old(draws) + (if old(|buffer|) >= reservoirSize then [draw] else [])
      ensures buffer == if ok then Place(old(buffer), reservoirSize, example, draw) else old(buffer)
      ensures timestamps == if ok then Place(old(timestamps), reservoirSize, timestamp, draw) else old(timestamps)
      ensures old(|buffer|) < reservoirSize ==>
                buffer == old(buffer) + [example] && timestamps == old(timestamps) + [timestamp]
      ensures ok && old(|buffer|) >= reservoirSize ==>
                if draw < reservoirSize
                then buffer == old(buffer)[draw := example] && timestamps == old(timestamps)[draw := timestamp]
                else buffer == old(buffer) && timestamps == old(timestamps)
      ensures if ok && old(updatesSinceFlush) + 1 >= flushInterval
              then updatesSinceFlush == 0 && disk == Some(Snapshot(buffer, Some(timestamps)))
              else updatesSinceFlush == old(updatesSinceFlush) + (if ok then 1 else 0) && disk == old(disk)
    {
      totalSeen := totalSeen + 1;
      arrivals, stamps := arrivals + [example], stamps + [timestamp];
      if drift && |buffer| >= reservoirSize {
        uniform := false;
      }
      if uniform {
        IsSampleStep(reservoirSize, buffer, old(arrivals), draws, example, draw);
        IsSampleStep(reservoirSize, timestamps, old(stamps), draws, timestamp, draw);
      }
      if |buffer| >= reservoirSize {
        draws := draws + [draw];
      }
      ok := Insert(example, timestamp, drift, draw);
      if ok {
        CountAndFlush();
      }
    }

    method CountAndFlush()
      requires buffer != []
      modifies this`disk, this`updatesSinceFlush
      ensures if old(updatesSinceFlush) + 1 >= flushInterval
              then updatesSinceFlush == 0 && disk == Some(Snapshot(buffer, Some(timestamps)))
              else updatesSinceFlush == old(updatesSinceFlush) + 1 && disk == old(disk)
    {
      updatesSinceFlush := updatesSinceFlush + 1;
      if updatesSinceFlush >= flushInterval {
        Flush();
      }
    }

    method Insert(example: T, timestamp: real, drift: bool, draw: nat) returns (ok: bool)
      requires |buffer| == |timestamps|
      requires |buffer| >= reservoirSize && drift ==> draw < reservoirSize
      modifies this`buffer, this`timestamps
      ensures ok <==> !(drift && old(|buffer|) > reservoirSize)
      ensures buffer == if ok then Place(old(buffer), reservoirSize, example, draw) else old(buffer)
      ensures timestamps == if ok then Place(old(timestamps), reservoirSize, timestamp, draw) else old(timestamps)
    {
      if |buffer| < reservoirSize {
        buffer, timestamps := buffer + [example], timestamps + [timestamp];
      } else if drift {
        if |buffer| != reservoirSize {
          return false;
        }
        RecencyBiasedReplace(example, timestamp, draw);
      } else {
        StandardReplace(example, timestamp, draw);
      }
      return true;
    }

    method StandardReplace(example: T, timestamp: real, draw: nat)
      requires |buffer| == |timestamps| >= reservoirSize
      modifies this`buffer, this`timestamps
      ensures buffer == Place(old(buffer), reservoirSize, example, draw)
      ensures timestamps == Place(old(timestamps), reservoirSize, timestamp, draw)
      ensures if draw < reservoirSize
              then buffer == old(buffer)[draw := example] && timestamps == old(timestamps)[draw := timestamp]
              else buffer == old(buffer) && timestamps == old(timestamps)
    {
      if draw < reservoirSize {
        buffer, timestamps := buffer[draw := example], timestamps[draw := timestamp];
      }
    }

    /** The draw follows the weights `Weight` of the slots; whatever they are, any slot may be chosen. */
    method RecencyBiasedReplace(example: T, timestamp: real, draw: nat)
      requires |buffer| == |timestamps| == reservoirSize && draw < reservoirSize
      modifies this`buffer, this`timestamps
      ensures buffer == Place(old(buffer), reservoirSize, example, draw)
      ensures timestamps == Place(old(timestamps), reservoirSize, timestamp, draw)
      ensures buffer == old(buffer)[draw := example] && timestamps == old(timestamps)[draw := timestamp]
    {
      buffer, timestamps := buffer[draw := example], timestamps[draw := timestamp];
    }

    method Flush()
      modifies this`disk, this`updatesSinceFlush
      ensures if buffer == [] then disk == old(disk) && updatesSinceFlush == old(updatesSinceFlush)
              else disk == Some(Snapshot(buffer, Some(timestamps))) && updatesSinceFlush == 0
    {
      if buffer == [] {
        return;
      }
      disk, updatesSinceFlush := Some(Snapshot(buffer, Some(timestamps))), 0;
    }

    method Reset()
      requires Valid()
      modifies this
      ensures Valid() && uniform && !oversized
      ensures buffer == [] && timestamps == [] && totalSeen == 0 && updatesSinceFlush == 0 && disk == None
    {
      buffer, timestamps, totalSeen, updatesSinceFlush, disk := [], [], 0, 0, None;
      arrivals, stamps, draws, uniform, oversized := [], [], [], true, false;
    }
  }

  // ------------------------------------------------------- draw sequences

  function Indices(n: nat): (r: seq<int>)
    ensures |r| == n && forall i :: 0 <= i < n ==> r[i] == i
  {
    seq(n, i => i)
  }

  /** Draws for the arrivals `t`, ..., `n - 1`: the one for arrival `a` lies in [0, a]. */
  ghost predicate IsDraws(t: nat, n: nat, d: seq<int>) {
    t <= n && |d| == n - t && forall j :: 0 <= j < |d| ==> 0 <= d[j] <= t + j
  }

  ghost predicate ArePrefixed(r: set<seq<int>>, xs: set<int>, ds: set<seq<int>>) {
    forall e :: e in r <==> e != [] && e[0] in xs && e[1..] in ds
  }

  ghost function Prefixed(xs: set<int>, ds: set<seq<int>>): (r: set<seq<int>>)
    ensures ArePrefixed(r, xs, ds)
  {
    PrefixedExist(xs, ds);
    var r :| ArePrefixed(r, xs, ds);
    r
  }

  lemma PrefixedExist(xs: set<int>, ds: set<seq<int>>)
    ensures exists r :: ArePrefixed(r, xs, ds)
  {
    var r := set x, d | x in xs && d in ds :: [x] + d;
    forall e: seq<int>
      ensures e in r <==> e != [] && e[0] in xs && e[1..] in ds
    {
      if e != [] && e[0] in xs && e[1..] in ds {
        var x, d := e[0], e[1..];
        assert [x] + d in r;
        assert e == [x] + d;
      }
      if e in r {
        var x, d :| x in xs && d in ds && e == [x] + d;
        assert e[1..] == d;
      }
    }
    assert ArePrefixed(r, xs, ds);
  }

  ghost predicate AreDraws(t: nat, n: nat, ds: set<seq<int>>) {
    forall d :: d in ds <==> IsDraws(t, n, d)
  }

  lemma {:induction false} DrawsExist(t: nat, n: nat)
    requires t <= n
    ensures exists ds :: AreDraws(t, n, ds)
    decreases n - t
  {
    if t == n {
      assert AreDraws(t, n, {[]});
    } else {
      DrawsExist(t + 1, n);
      var rest :| AreDraws(t + 1, n, rest);
      DrawsByFirst(t, n, rest);
    }
  }

  lemma DrawsByFirst(t: nat, n: nat, rest: set<seq<int>>)
    requires t < n && AreDraws(t + 1, n, rest)
    ensures AreDraws(t, n, Prefixed(UpTo(t + 1), rest))
  {
    forall d
      ensures d in Prefixed(UpTo(t + 1), rest) <==> IsDraws(t, n, d)
    {
      if d != [] && IsDraws(t + 1, n, d[1..]) {
        assert forall j :: 0 < j < |d| ==> d[j] == d[1..][j - 1];
      }
    }
  }

  /** All of them, that is, all equally likely random choices of a stable run. */
  ghost function Draws(t: nat, n: nat): (r: set<seq<int>>)
    requires t <= n
    ensures AreDraws(t, n, r)
  {
    DrawsExist(t, n);
    var r :| AreDraws(t, n, r);
    r
  }

  // -------------------------------------------------------------- counting

  /** The positions of a run: slot contents are arrival numbers. */
  ghost function Picked(size: nat, buffer: seq<int>, t: nat, d: seq<int>): (r: seq<int>)
    requires |buffer| == size && forall j :: 0 <= j < |d| ==> 0 <= d[j]
    ensures |r| == size
    decreases |d|
  {
    if d == [] then buffer else Picked(size, Place(buffer, size, t, d[0]), t + 1, d[1..])
  }

  /** Questions about a final buffer: does it hold an arrival, is it a given set of arrivals? */
  datatype Goal = Holding(i: int) | Being(chosen: set<int>)

  ghost predicate Met(goal: Goal, buffer: seq<int>) {
    match goal
    case Holding(i) => i in buffer
    case Being(chosen) => Elements(buffer) == chosen
  }

  ghost function Elements(s: seq<int>): set<int> {
    set x | x in s
  }

  /** The draw sequences after which the buffer meets `goal`. */
  ghost function Accepted(size: nat, buffer: seq<int>, t: nat, n: nat, goal: Goal): set<seq<int>>
    requires |buffer| == size && t <= n
  {
    set d | d in Draws(t, n) && Met(goal, Picked(size, buffer, t, d))
  }

  /** Their number, as a sum over the choices of the next draw. */
  ghost function Ways(size: nat, buffer: seq<int>, t: nat, n: nat, goal: Goal): nat
    requires |buffer| == size && t <= n
    decreases n - t, 1, 0
  {
    if t < n then WaysBelow(size, buffer, t, n, goal, t + 1)
    else if Met(goal, buffer) then 1 else 0
  }

  /** The part of that sum in which the next draw is less than `m`. */
  ghost function WaysBelow(size: nat, buffer: seq<int>, t: nat, n: nat, goal: Goal, m: nat): nat
    requires |buffer| == size && t < n
    decreases n - t, 0, m
  {
    if m == 0 then 0
    else WaysBelow(size, buffer, t, n, goal, m - 1) + Ways(size, Place(buffer, size, t, m - 1), t + 1, n, goal)
  }

  lemma {:induction false} PrefixCount(x: int, ds: set<seq<int>>)
    ensures |Prefixed({x}, ds)| == |ds|
    decreases |ds|
  {
    if ds == {} {
      assert Prefixed({x}, ds) == {};
    } else {
      var d :| d in ds;
      PrefixCount(x, ds - {d});
      assert ([x] + d)[1..] == d;
      forall e
        ensures e in Prefixed({x}, ds) <==> e in Prefixed({x}, ds - {d}) + {[x] + d}
      {
        if e in Prefixed({x}, ds) && e[1..] == d {
          assert e == [x] + d;
        }
      }
      assert Prefixed({x}, ds) == Prefixed({x}, ds - {d}) + {[x] + d};
    }
  }

  lemma {:induction false} WaysCountAccepted(size: nat, buffer: seq<int>, t: nat, n: nat, goal: Goal)
    requires |buffer| == size && t <= n
    ensures |Accepted(size, buffer, t, n, goal)| == Ways(size, buffer, t, n, goal)
    decreases n - t, 1
  {
    if t == n {
      assert Picked(size, buffer, t, []) == buffer;
      assert Accepted(size, buffer, t, n, goal) == if Met(goal, buffer) then {[]} else {};
    } else {
      FirstDrawCount(size, buffer, t, n, goal, t + 1);
      assert FirstBelow(size, buffer, t, n, goal, t + 1) == Accepted(size, buffer, t, n, goal);
    }
  }

  ghost function FirstBelow(size: nat, buffer: seq<int>, t: nat, n: nat, goal: Goal, m: nat)
    : set<seq<int>>
    requires |buffer| == size && t < n
  {
    set d | d in Accepted(size, buffer, t, n, goal) && d[0] < m
  }

  lemma DisjointCount(a: set<seq<int>>, b: set<seq<int>>, c: set<seq<int>>)
    requires c == a + b && a !! b
    ensures |c| == |a| + |b|
  {
  }

  lemma AcceptedCons(size: nat, buffer: seq<int>, t: nat, n: nat, goal: Goal, d: seq<int>)
    requires |buffer| == size && t < n && d != [] && 0 <= d[0] <= t
    ensures d in Accepted(size, buffer, t, n, goal) <==>
            d[1..] in Accepted(size, Place(buffer, size, t, d[0]), t + 1, n, goal)
  {
    if IsDraws(t + 1, n, d[1..]) {
      forall j | 0 <= j < |d|
        ensures 0 <= d[j] <= t + j
      {
        assert j > 0 ==> d[j] == d[1..][j - 1];
      }
      assert IsDraws(t, n, d);
    }
  }

  lemma FirstSplit(size: nat, buffer: seq<int>, t: nat, n: nat, goal: Goal, x: nat)
    requires |buffer| == size && t < n && x <= t
    ensures FirstBelow(size, buffer, t, n, goal, x + 1) ==
            FirstBelow(size, buffer, t, n, goal, x) +
            Prefixed({x}, Accepted(size, Place(buffer, size, t, x), t + 1, n, goal))
    ensures FirstBelow(size, buffer, t, n, goal, x) !!
            Prefixed({x}, Accepted(size, Place(buffer, size, t, x), t + 1, n, goal))
  {
    forall d
      ensures d in FirstBelow(size, buffer, t, n, goal, x + 1) <==>
              d in FirstBelow(size, buffer, t, n, goal, x) ||
              d in Prefixed({x}, Accepted(size, Place(buffer, size, t, x), t + 1, n, goal))
    {
      if d != [] && d[0] == x {
        AcceptedCons(size, buffer, t, n, goal, d);
      }
    }
  }

  lemma {:induction false} FirstDrawCount(
    size: nat, buffer: seq<int>, t: nat, n: nat, goal: Goal, m: nat)
    requires |buffer| == size && t < n && m <= t + 1
    ensures |FirstBelow(size, buffer, t, n, goal, m)| == WaysBelow(size, buffer, t, n, goal, m)
    decreases n - t, 0, m
  {
    if m == 0 {
      assert FirstBelow(size, buffer, t, n, goal, m) == {};
    } else {
      var x := m - 1;
      var tails := Accepted(size, Place(buffer, size, t, x), t + 1, n, goal);
      FirstDrawCount(size, buffer, t, n, goal, x);
      WaysCountAccepted(size, Place(buffer, size, t, x), t + 1, n, goal);
      PrefixCount(x, tails);
      FirstSplit(size, buffer, t, n, goal, x);
      DisjointCount(FirstBelow(size, buffer, t, n, goal, x), Prefixed({x}, tails),
                    FirstBelow(size, buffer, t, n, goal, m));
    }
  }

  lemma AddBranch(a: nat, b: nat, scale: nat, k: nat, before: set<int>, good: set<int>, x: int)
    requires before == good - {x} && a * scale == |before| * k
    requires b * scale == if x in good then k else 0
    ensures (a + b) * scale == |good| * k
  {
    Distribute(a, b, scale);
    if x in good {
      assert good == before + {x};
      Distribute(|before|, 1, k);
    } else {
      assert before == good;
    }
  }

  /** If every branch is worth `k / scale` or nothing, the total is the number of good branches times that. */
  lemma {:induction false} SumOverGood(
    size: nat, buffer: seq<int>, t: nat, n: nat, goal: Goal, m: nat, good: set<int>, scale: nat, k: nat)
    requires |buffer| == size && t < n
    requires forall x :: x in good ==> 0 <= x < m
    requires forall x :: 0 <= x < m ==>
               Ways(size, Place(buffer, size, t, x), t + 1, n, goal) * scale == if x in good then k else 0
    ensures WaysBelow(size, buffer, t, n, goal, m) * scale == |good| * k
    decreases m
  {
    if m == 0 {
      assert good == {};
    } else {
      var x := m - 1;
      SumOverGood(size, buffer, t, n, goal, x, good - {x}, scale, k);
      var a, b := WaysBelow(size, buffer, t, n, goal, x), Ways(size, Place(buffer, size, t, x), t + 1, n, goal);
      AddBranch(a, b, scale, k, good - {x}, good, x);
    }
  }

  lemma SumOverGoodUnits(
    size: nat, buffer: seq<int>, t: nat, n: nat, goal: Goal, m: nat, good: set<int>, k: nat)
    requires |buffer| == size && t < n
    requires forall x :: x in good ==> 0 <= x < m
    requires forall x :: 0 <= x < m ==>
               Ways(size, Place(buffer, size, t, x), t + 1, n, goal) == if x in good then k else 0
    ensures WaysBelow(size, buffer, t, n, goal, m) == |good| * k
  {
    SumOverGood(size, buffer, t, n, goal, m, good, 1, k);
  }

  lemma {:induction false} DrawsCount(t: nat, n: nat)
    requires t < n
    ensures |Draws(t, n)| == (t + 1) * |Draws(t + 1, n)|
  {
    PrefixedCount(t + 1, Draws(t + 1, n));
    DrawsByFirst(t, n, Draws(t + 1, n));
    assert Draws(t, n) == Prefixed(UpTo(t + 1), Draws(t + 1, n));
  }

  lemma PrefixedSplit(x: nat, ds: set<seq<int>>)
    ensures Prefixed(UpTo(x + 1), ds) == Prefixed(UpTo(x), ds) + Prefixed({x}, ds)
    ensures Prefixed(UpTo(x), ds) !! Prefixed({x}, ds)
  {
  }

  lemma {:induction false} PrefixedCount(m: nat, ds: set<seq<int>>)
    ensures |Prefixed(UpTo(m), ds)| == m * |ds|
  {
    if m == 0 {
      assert Prefixed(UpTo(m), ds) == {};
    } else {
      PrefixedCount(m - 1, ds);
      PrefixCount(m - 1, ds);
      PrefixedSplit(m - 1, ds);
      Distribute(m - 1, 1, |ds|);
    }
  }

  // ------------------------------------------------------- each arrival

  /** A buffer of distinct arrivals, all before `t`. */
  ghost predicate Slots(size: nat, buffer: seq<int>, t: nat) {
    && |buffer| == size <= t
    && (forall i :: 0 <= i < size ==> 0 <= buffer[i] < t)
    && forall i, j :: 0 <= i < j < size ==> buffer[i] != buffer[j]
  }

  lemma SlotsStep(size: nat, buffer: seq<int>, t: nat, x: nat)
    requires Slots(size, buffer, t)
    ensures Slots(size, Place(buffer, size, t, x), t + 1)
    ensures t in Place(buffer, size, t, x) <==> x < size
    ensures forall i :: i != t ==>
              (i in Place(buffer, size, t, x) <==> i in buffer && !(x < size && buffer[x] == i))
  {
    var after := Place(buffer, size, t, x);
    if x < size {
      assert after[x] == t;
      forall i | i != t
        ensures i in after <==> i in buffer && buffer[x] != i
      {
        if i in buffer && buffer[x] != i {
          var p :| 0 <= p < size && buffer[p] == i;
          assert after[p] == i;
        }
      }
    }
  }

  /** In how many of the continuations arrival `i` is kept: a share `t / n` if it is in the buffer,
      none if it is gone, and `size / n` if it is still to come. */
  ghost function Share(size: nat, buffer: seq<int>, t: nat, i: int): nat {
    if i >= t then size else if i in buffer then t else 0
  }

  lemma {:induction false} KeepWays(size: nat, buffer: seq<int>, t: nat, n: nat, i: int)
    requires Slots(size, buffer, t) && t <= n && 0 < size && 0 <= i < n
    ensures Ways(size, buffer, t, n, Holding(i)) * n == Share(size, buffer, t, i) * |Draws(t, n)|
    decreases n - t, 1
  {
    if t == n {
      assert [] in Draws(n, n);
      assert Draws(n, n) == {[]};
    } else {
      var rest := |Draws(t + 1, n)|;
      var good, k := GoodBranches(size, buffer, t, i), (if i > t then size else t + 1) * rest;
      forall x | 0 <= x < t + 1
        ensures Ways(size, Place(buffer, size, t, x), t + 1, n, Holding(i)) * n == if x in good then k else 0
      {
        KeepBranch(size, buffer, t, n, i, x);
      }
      SumOverGood(size, buffer, t, n, Holding(i), t + 1, good, n, k);
      DrawsCount(t, n);
      ShareArithmetic(size, t, rest);
    }
  }

  lemma KeepBranch(size: nat, buffer: seq<int>, t: nat, n: nat, i: int, x: nat)
    requires Slots(size, buffer, t) && t < n && 0 < size && 0 <= i < n && x <= t
    ensures Ways(size, Place(buffer, size, t, x), t + 1, n, Holding(i)) * n ==
            if x in GoodBranches(size, buffer, t, i) then (if i > t then size else t + 1) * |Draws(t + 1, n)| else 0
    decreases n - t, 0
  {
    SlotsStep(size, buffer, t, x);
    KeepWays(size, Place(buffer, size, t, x), t + 1, n, i);
  }

  lemma ShareArithmetic(size: nat, t: nat, rest: nat)
    ensures (t + 1) * (size * rest) == size * ((t + 1) * rest)
  {
  }

  /** The draws after which arrival `i` can still end up in the buffer. */
  ghost function GoodBranches(size: nat, buffer: seq<int>, t: nat, i: int): (good: set<int>)
    requires Slots(size, buffer, t)
    ensures good <= UpTo(t + 1)
    ensures |good| == if i > t then t + 1 else if i == t then size else if i in buffer then t else 0
    ensures i < t ==> forall x :: 0 <= x < t + 1 ==>
              (x in good <==> i in buffer && !(x < size && buffer[x] == i))
    ensures i == t ==> forall x :: x in good <==> 0 <= x < size
    ensures i > t ==> good == UpTo(t + 1)
  {
    if i > t then UpTo(t + 1)
    else if i == t then UpTo(size)
    else if i in buffer then
      var p :| 0 <= p < size && buffer[p] == i;
      assert UpTo(t + 1) == (UpTo(t + 1) - {p}) + {p};
      UpTo(t + 1) - {p}
    else {}
  }

  /** The draw sequences that leave arrival `i` in the final buffer. */
  ghost function Keeping(size: nat, n: nat, i: int): set<seq<int>>
    requires n >= size
  {
    set d | d in Draws(size, n) && i in Picked(size, Indices(size), size, d)
  }

  /** Uniformity: every arrival is in the final buffer for a share `size / n` of all draw sequences. */
  lemma UniformShare(size: nat, n: nat, i: int)
    requires 0 < size <= n && 0 <= i < n
    ensures |Keeping(size, n, i)| * n == size * |Draws(size, n)|
  {
    assert i < size ==> Indices(size)[i] == i;
    KeepWays(size, Indices(size), size, n, i);
    WaysCountAccepted(size, Indices(size), size, n, Holding(i));
    assert Keeping(size, n, i) == Accepted(size, Indices(size), size, n, Holding(i));
  }

  // ------------------------------------------------------- every subset

  ghost function Factorial(n: nat): (f: nat)
    ensures f > 0
  {
    if n == 0 then 1 else n * Factorial(n - 1)
  }

  /** The slots that must still be overwritten. */
  ghost function Junk(buffer: seq<int>, chosen: set<int>): (r: set<int>)
    ensures r <= UpTo(|buffer|)
  {
    set x | x in UpTo(|buffer|) && buffer[x] !in chosen
  }

  /** Everything chosen so far is in the buffer. */
  ghost predicate Possible(buffer: seq<int>, t: nat, chosen: set<int>) {
    forall i :: i in chosen && i < t ==> i in buffer
  }

  lemma {:induction false} DistinctCount(s: seq<int>)
    requires forall i, j :: 0 <= i < j < |s| ==> s[i] != s[j]
    ensures |Elements(s)| == |s|
  {
    if s != [] {
      DistinctCount(s[1..]);
      assert Elements(s) == Elements(s[1..]) + {s[0]};
    }
  }

  lemma SubsetOfSameSize(a: set<int>, b: set<int>)
    requires a <= b && |a| >= |b|
    ensures a == b
  {
    assert b == a + (b - a);
  }

  lemma SubsetBase(size: nat, buffer: seq<int>, n: nat, chosen: set<int>)
    requires Slots(size, buffer, n) && |chosen| == size && chosen <= UpTo(n)
    ensures Possible(buffer, n, chosen) <==> Elements(buffer) == chosen
    ensures Possible(buffer, n, chosen) ==> Junk(buffer, chosen) == {}
  {
    DistinctCount(buffer);
    if Possible(buffer, n, chosen) {
      assert chosen <= Elements(buffer);
      SubsetOfSameSize(chosen, Elements(buffer));
    }
  }

  /** What one draw does to the two conditions. */
  lemma SubsetStep(size: nat, buffer: seq<int>, t: nat, chosen: set<int>, x: nat)
    requires Slots(size, buffer, t) && x <= t
    ensures var after := Place(buffer, size, t, x);
            Possible(after, t + 1, chosen) <==>
            Possible(buffer, t, chosen) && (x in Junk(buffer, chosen) || (x >= size && t !in chosen))
    ensures x in Junk(buffer, chosen) ==>
              Junk(Place(buffer, size, t, x), chosen) ==
              if t in chosen then Junk(buffer, chosen) - {x} else Junk(buffer, chosen)
    ensures x >= size ==> Junk(Place(buffer, size, t, x), chosen) == Junk(buffer, chosen)
  {
    var after := Place(buffer, size, t, x);
    SlotsStep(size, buffer, t, x);
    if Possible(after, t + 1, chosen) {
      forall i | i in chosen && i < t
        ensures i in buffer
      {
        assert i in after;
      }
      assert x < size ==> buffer[x] !in after;
    }
  }

  /** The draws that keep a possible target possible, and what each contributes. */
  ghost function GoodDraws(size: nat, buffer: seq<int>, t: nat, chosen: set<int>): (good: set<int>)
    requires Slots(size, buffer, t)
    ensures good <= UpTo(t + 1)
    ensures Possible(buffer, t, chosen) ==>
              |good| == |Junk(buffer, chosen)| + (if t in chosen then 0 else t + 1 - size)
  {
    if !Possible(buffer, t, chosen) then {}
    else if t in chosen then Junk(buffer, chosen)
    else
      var passing := UpTo(t + 1) - UpTo(size);
      assert UpTo(t + 1) == passing + UpTo(size);
      assert Junk(buffer, chosen) !! passing;
      Junk(buffer, chosen) + passing
  }

  /** The number of ways to complete a possible target when `r` slots are junk: a chosen arrival must
      overwrite one of them, any other may overwrite one of them or be passed over. */
  ghost function Completions(size: nat, t: nat, n: nat, r: nat, chosen: set<int>): nat
    requires size <= t <= n
    decreases n - t
  {
    if t == n then 1
    else if t in chosen then (if r == 0 then 0 else r * Completions(size, t + 1, n, r - 1, chosen))
    else (t + 1 - size + r) * Completions(size, t + 1, n, r, chosen)
  }

  lemma {:induction false} SubsetWays(size: nat, buffer: seq<int>, t: nat, n: nat, chosen: set<int>)
    requires Slots(size, buffer, t) && t <= n && 0 < size
    requires |chosen| == size && chosen <= UpTo(n)
    ensures Ways(size, buffer, t, n, Being(chosen)) ==
            if Possible(buffer, t, chosen) then Completions(size, t, n, |Junk(buffer, chosen)|, chosen) else 0
    decreases n - t, 3
  {
    if t == n {
      SubsetBase(size, buffer, n, chosen);
    } else {
      var good := GoodDraws(size, buffer, t, chosen);
      var value := NextValue(size, t, n, |Junk(buffer, chosen)|, chosen);
      SubsetBranches(size, buffer, t, n, chosen, good, value);
      SumOverGoodUnits(size, buffer, t, n, Being(chosen), t + 1, good, value);
      if Possible(buffer, t, chosen) {
        CompletionsStep(size, t, n, |Junk(buffer, chosen)|, chosen, |good|);
      }
    }
  }

  ghost function NextValue(size: nat, t: nat, n: nat, r: nat, chosen: set<int>): nat
    requires size <= t < n
  {
    if t !in chosen then Completions(size, t + 1, n, r, chosen)
    else if r > 0 then Completions(size, t + 1, n, r - 1, chosen)
    else 0
  }

  lemma CompletionsStep(size: nat, t: nat, n: nat, r: nat, chosen: set<int>, good: nat)
    requires size <= t < n && good == r + if t in chosen then 0 else t + 1 - size
    ensures Completions(size, t, n, r, chosen) == good * NextValue(size, t, n, r, chosen)
  {
  }

  lemma SubsetBranches(size: nat, buffer: seq<int>, t: nat, n: nat, chosen: set<int>, good: set<int>, value: nat)
    requires Slots(size, buffer, t) && t < n && 0 < size
    requires |chosen| == size && chosen <= UpTo(n)
    requires good == GoodDraws(size, buffer, t, chosen)
    requires value == NextValue(size, t, n, |Junk(buffer, chosen)|, chosen)
    ensures forall x :: 0 <= x < t + 1 ==>
              Ways(size, Place(buffer, size, t, x), t + 1, n, Being(chosen)) == if x in good then value else 0
    decreases n - t, 1
  {
    forall x | 0 <= x < t + 1
      ensures Ways(size, Place(buffer, size, t, x), t + 1, n, Being(chosen)) == if x in good then value else 0
    {
      SubsetBranch(size, buffer, t, n, chosen, x);
    }
  }

  lemma SubsetBranch(size: nat, buffer: seq<int>, t: nat, n: nat, chosen: set<int>, x: nat)
    requires Slots(size, buffer, t) && t < n && 0 < size && x <= t
    requires |chosen| == size && chosen <= UpTo(n)
    ensures Ways(size, Place(buffer, size, t, x), t + 1, n, Being(chosen)) ==
            if x in GoodDraws(size, buffer, t, chosen)
            then NextValue(size, t, n, |Junk(buffer, chosen)|, chosen)
            else 0
    decreases n - t, 0
  {
    GoodDrawStep(size, buffer, t, chosen, x);
    SubsetWays(size, Place(buffer, size, t, x), t + 1, n, chosen);
  }

  lemma GoodDrawStep(size: nat, buffer: seq<int>, t: nat, chosen: set<int>, x: nat)
    requires Slots(size, buffer, t) && x <= t
    ensures Slots(size, Place(buffer, size, t, x), t + 1)
    ensures var after := Place(buffer, size, t, x);
            var r := |Junk(buffer, chosen)|;
            (Possible(after, t + 1, chosen) <==> x in GoodDraws(size, buffer, t, chosen)) &&
            (x in GoodDraws(size, buffer, t, chosen) ==>
               |Junk(after, chosen)| == if t in chosen then r - 1 else r)
  {
    SlotsStep(size, buffer, t, x);
    SubsetStep(size, buffer, t, chosen, x);
  }

  ghost function Later(t: nat, chosen: set<int>): set<int> {
    set i | i in chosen && i >= t
  }

  lemma LaterStep(t: nat, n: nat, chosen: set<int>)
    requires chosen <= UpTo(n) && t <= n
    ensures t == n ==> |Later(t, chosen)| == 0
    ensures |Later(t, chosen)| == |Later(t + 1, chosen)| + if t in chosen then 1 else 0
  {
    if t == n {
      assert Later(t, chosen) == {};
    }
    assert Later(t, chosen) == Later(t + 1, chosen) + (if t in chosen then {t} else {});
  }

  lemma {:induction false} CompletionsClosedForm(size: nat, t: nat, n: nat, r: nat, chosen: set<int>)
    requires size <= t <= n && chosen <= UpTo(n) && |Later(t, chosen)| == r
    ensures Completions(size, t, n, r, chosen) * Factorial(t - size + r) == Factorial(r) * Factorial(n - size)
    decreases n - t
  {
    LaterStep(t, n, chosen);
    if t == n {
    } else if t in chosen {
      CompletionsClosedForm(size, t + 1, n, r - 1, chosen);
      CancelTaken(r, Completions(size, t + 1, n, r - 1, chosen), Factorial(t - size + r), Factorial(n - size));
    } else {
      CompletionsClosedForm(size, t + 1, n, r, chosen);
      CancelPassed(t - size + r, Completions(size, t + 1, n, r, chosen), Factorial(r) * Factorial(n - size));
    }
  }

  lemma CancelTaken(r: nat, c: nat, scale: nat, total: nat)
    requires r > 0 && c * scale == Factorial(r - 1) * total
    ensures (r * c) * scale == Factorial(r) * total
  {
    assert (r * c) * scale == r * (c * scale);
    assert Factorial(r) * total == r * (Factorial(r - 1) * total);
  }

  lemma CancelPassed(m: nat, c: nat, value: nat)
    requires c * Factorial(m + 1) == value
    ensures ((m + 1) * c) * Factorial(m) == value
  {
    assert ((m + 1) * c) * Factorial(m) == c * ((m + 1) * Factorial(m));
  }

  lemma Cancel(m: nat, a: nat, b: nat)
    requires m > 0 && m * a == m * b
    ensures a == b
  {
  }

  /** The draw sequences that end with exactly the arrivals in `chosen`. */
  ghost function Choosing(size: nat, n: nat, chosen: set<int>): set<seq<int>>
    requires n >= size
  {
    set d | d in Draws(size, n) && Elements(Picked(size, Indices(size), size, d)) == chosen
  }

  /** Every set of `size` arrivals is the final sample for the same number of draw sequences. */
  lemma EverySubsetEquallyLikely(size: nat, n: nat, chosen: set<int>)
    requires 0 < size <= n && chosen <= UpTo(n) && |chosen| == size
    ensures |Choosing(size, n, chosen)| == Factorial(n - size)
  {
    var start := Indices(size);
    SubsetWays(size, start, size, n, chosen);
    WaysCountAccepted(size, start, size, n, Being(chosen));
    assert Choosing(size, n, chosen) == Accepted(size, start, size, n, Being(chosen));
    AllPossible(size, chosen);
    JunkAtStart(size, chosen);
    CompletionsClosedForm(size, size, n, |Junk(start, chosen)|, chosen);
    var r := |Junk(start, chosen)|;
    var ways := Completions(size, size, n, r, chosen);
    assert ways * Factorial(size - size + r) == Factorial(r) * Factorial(n - size);
    Cancel(Factorial(r), ways, Factorial(n - size));
  }

  lemma JunkAtStart(size: nat, chosen: set<int>)
    requires |chosen| == size && forall i :: i in chosen ==> 0 <= i
    ensures |Later(size, chosen)| == |Junk(Indices(size), chosen)|
  {
    var early := UpTo(size) * chosen;
    assert chosen == early + Later(size, chosen);
    assert UpTo(size) == early + Junk(Indices(size), chosen);
  }

  lemma AllPossible(size: nat, chosen: set<int>)
    requires forall i :: i in chosen ==> 0 <= i
    ensures Possible(Indices(size), size, chosen)
  {
    forall i | i in chosen && i < size
      ensures i in Indices(size)
    {
      assert Indices(size)[i] == i;
    }
  }

  // ------------------------------------------------- back to real arrivals

  ghost function Select<T>(items: seq<T>, positions: seq<int>): seq<T>
    requires forall j :: 0 <= j < |positions| ==> 0 <= positions[j] < |items|
  {
    seq(|positions|, j requires 0 <= j < |positions| => items[positions[j]])
  }

  lemma SelectPlace<T>(size: nat, items: seq<T>, positions: seq<int>, t: nat, x: nat)
    requires Slots(size, positions, t) && t < |items|
    ensures Slots(size, Place(positions, size, t, x), t + 1)
    ensures Select(items, Place(positions, size, t, x)) == Place(Select(items, positions), size, items[t], x)
  {
    SlotsStep(size, positions, t, x);
  }

  lemma {:induction false} PickedSlots(size: nat, positions: seq<int>, t: nat, n: nat, d: seq<int>)
    requires Slots(size, positions, t) && IsDraws(t, n, d)
    ensures Slots(size, Picked(size, positions, t, d), n)
    decreases |d|
  {
    if d != [] {
      SlotsStep(size, positions, t, d[0]);
      assert IsDraws(t + 1, n, d[1..]);
      PickedSlots(size, Place(positions, size, t, d[0]), t + 1, n, d[1..]);
    }
  }

  lemma {:induction false} FeedSelects<T>(size: nat, items: seq<T>, positions: seq<int>, t: nat, d: seq<int>)
    requires Slots(size, positions, t) && t <= |items| && IsDraws(t, |items|, d)
    requires Slots(size, Picked(size, positions, t, d), |items|)
    ensures Feed(size, Select(items, positions), items[t..], d) == Select(items, Picked(size, positions, t, d))
    decreases |d|
  {
    if d != [] {
      var rest := d[1..];
      SelectPlace(size, items, positions, t, d[0]);
      assert IsDraws(t + 1, |items|, rest);
      FeedSelects(size, items, Place(positions, size, t, d[0]), t + 1, rest);
      assert items[t..][1..] == items[t + 1..];
    }
  }

  /** The sampler's buffer is the selection of the picked positions, for items and timestamps alike:
      the two lists always describe the same arrivals. */
  lemma SampleSelectsPicked<T>(size: nat, items: seq<T>, d: seq<int>)
    requires 0 < size <= |items| && d in Draws(size, |items|)
    ensures Slots(size, Picked(size, Indices(size), size, d), |items|)
    ensures Sample(size, items, d) == Select(items, Picked(size, Indices(size), size, d))
  {
    PickedSlots(size, Indices(size), size, |items|, d);
    FeedSelects(size, items, Indices(size), size, d);
    assert Select(items, Indices(size)) == items[..size];
    if |items| == size {
      assert items[size..] == [] && items[..size] == items;
    }
  }

  // ------------------------------------------------------------ restarts

  /** The process ends after a flush and another one loads the file: the count of items seen becomes the number of rows
      in the file, which is the true count if and only if nothing had been discarded. */
  method Restart<T>(before: DriftAwareReservoirSampler<T>) returns (after: DriftAwareReservoirSampler<T>)
    requires before.Valid() && before.buffer != [] && !before.oversized
    modifies before
    ensures before.disk == Some(Snapshot(old(before.buffer), Some(old(before.timestamps))))
    ensures fresh(after) && after.Valid() && after.uniform
    ensures after.buffer == after.arrivals == old(before.buffer) && after.timestamps == old(before.timestamps)
    ensures after.totalSeen == Loaded(before.reservoirSize, old(before.totalSeen))
    ensures after.totalSeen == old(before.totalSeen) <==> old(before.totalSeen) <= before.reservoirSize
  {
    before.Flush();
    after := new DriftAwareReservoirSampler(before.reservoirSize, before.flushInterval, before.disk);
  }

  /** How many items a reload counts as seen when `n` really were. */
  function Loaded(size: nat, n: nat): nat { if n < size then n else size }

  lemma SharesDiffer(kept: nat, all: nat, size: nat, loaded: nat, n: nat, m: nat)
    requires kept * (loaded + m) == size * all && all > 0 && size > 0 && m > 0 && loaded <= n
    ensures kept * (n + m) == size * all <==> n == loaded
  {
    assert kept > 0 by { assert size * all > 0; }
    Distribute(loaded + m, n - loaded, kept);
    assert (loaded + m) + (n - loaded) == n + m;
    if n > loaded { assert (n - loaded) * kept > 0; }
  }

  /** After a reload `m` later arrivals compete with the loaded rows instead of the `n` items really seen: their shares
      are the fair ones, `size / (n + m)`, if and only if nothing had been discarded before the restart. */
  lemma RestartShare(size: nat, n: nat, m: nat, i: int)
    requires 0 < size && 0 < n && 0 < m && size <= Loaded(size, n) + m
    requires Loaded(size, n) <= i < Loaded(size, n) + m
    ensures var total := Loaded(size, n) + m;
            |Keeping(size, total, i)| * (n + m) == size * |Draws(size, total)| <==> n <= size
  {
    var loaded := Loaded(size, n);
    UniformShare(size, loaded + m, i);
    DrawsNonempty(size, loaded + m);
    SharesDiffer(|Keeping(size, loaded + m, i)|, |Draws(size, loaded + m)|, size, loaded, n, m);
  }

  lemma EarlierShares(kept: nat, all: nat, keptAfter: nat, allAfter: nat, size: nat, n: nat, m: nat)
    requires kept * n == size * all && keptAfter * (size + m) == size * allAfter
    requires all > 0 && allAfter > 0 && size > 0 && m > 0 && n >= size
    ensures kept * keptAfter * (n + m) == size * (all * allAfter) <==> n == size
  {
    SharesOnce(kept, all, size, n);
    var x, y := kept * keptAfter, all * allAfter;
    ProductOfShares(kept, all, keptAfter, allAfter, size, n, m);
    assert x > 0 by { assert keptAfter > 0 by { assert size * allAfter > 0; } }
    CompareShares(x, y, size, n, m);
  }

  lemma SharesOnce(kept: nat, all: nat, size: nat, n: nat)
    requires kept * n == size * all && all > 0 && size > 0
    ensures kept > 0
  {
    assert size * all > 0;
  }

  lemma ProductOfShares(kept: nat, all: nat, keptAfter: nat, allAfter: nat, size: nat, n: nat, m: nat)
    requires kept * n == size * all && keptAfter * (size + m) == size * allAfter
    ensures kept * keptAfter * (n * (size + m)) == size * size * (all * allAfter)
  {
    calc {
      kept * keptAfter * (n * (size + m));
      (kept * n) * (keptAfter * (size + m));
      (size * all) * (size * allAfter);
      size * size * (all * allAfter);
    }
  }

  lemma ExpandShares(x: int, size: int, n: int, m: int)
    ensures x * (n * (size + m)) == size * (x * (n + m)) + x * (m * (n - size))
  {
    assert n * (size + m) == size * (n + m) + m * (n - size);
    assert x * (size * (n + m)) == size * (x * (n + m));
    Distribute(size * (n + m), m * (n - size), x);
  }

  lemma CompareShares(x: nat, y: nat, size: nat, n: nat, m: nat)
    requires x * (n * (size + m)) == size * size * y && x > 0 && size > 0 && m > 0 && n >= size
    ensures x * (n + m) == size * y <==> n == size
  {
    ExpandShares(x, size, n, m);
    assert size * (size * y) == size * size * y;
    GapIsPositiveIff(x, m, n - size);
    if n == size { CancelSize(size, x * (n + m), size * y); }
  }

  lemma GapIsPositiveIff(x: nat, m: nat, d: nat)
    requires x > 0 && m > 0
    ensures x * (m * d) > 0 <==> d > 0
  {
    if d > 0 { assert m * d > 0; }
  }

  lemma CancelSize(size: nat, a: int, b: int)
    requires size > 0 && size * a == size * b
    ensures a == b
  {
    Distribute(a - b, b, size);
    assert (a - b) * size == 0;
  }

  // Pairs of draw sequences: one for the phase before the restart, one for the phase after it.

  type Pair = (seq<int>, seq<int>)

  /** The pairs whose first half is in `a` and whose second half is in the set that `f` gives for it. */
  ghost function Fibres(a: set<seq<int>>, f: map<seq<int>, set<seq<int>>>): set<Pair>
    requires a <= f.Keys
  {
    set x, y | x in a && y in f[x] :: (x, y)
  }

  lemma {:induction false} RowCount(x: seq<int>, ys: set<seq<int>>)
    ensures |set y | y in ys :: (x, y)| == |ys|
    decreases |ys|
  {
    var row := set y | y in ys :: (x, y);
    if ys == {} {
      assert row == {};
    } else {
      var y :| y in ys;
      RowCount(x, ys - {y});
      assert row == (set z | z in ys - {y} :: (x, z)) + {(x, y)};
    }
  }

  lemma {:induction false} FibreCount(a: set<seq<int>>, f: map<seq<int>, set<seq<int>>>, k: nat)
    requires a <= f.Keys && forall x :: x in a ==> |f[x]| == k
    ensures |Fibres(a, f)| == |a| * k
    decreases |a|
  {
    if a == {} {
      assert Fibres(a, f) == {};
    } else {
      var x :| x in a;
      var row, rest := set y | y in f[x] :: (x, y), Fibres(a - {x}, f);
      FibreCount(a - {x}, f, k);
      RowCount(x, f[x]);
      assert Fibres(a, f) == rest + row && rest !! row;
      Distribute(|a| - 1, 1, k);
    }
  }

  /** The draws of the first phase; while the reservoir fills up there are none. */
  ghost function FirstDraws(size: nat, n: nat): set<seq<int>> {
    if n < size then {[]} else Draws(size, n)
  }

  /** The rows of the file after `n` items, by arrival. */
  ghost function FileRows(size: nat, n: nat, d: seq<int>): (r: seq<int>)
    requires d in FirstDraws(size, n)
    ensures |r| == Loaded(size, n)
  {
    if n < size then Indices(n) else Picked(size, Indices(size), size, d)
  }

  lemma FileRowsDistinct(size: nat, n: nat, d: seq<int>)
    requires d in FirstDraws(size, n)
    ensures Distinct(FileRows(size, n, d))
  {
    if n >= size { PickedSlots(size, Indices(size), size, n, d); }
  }

  /** Item `i` is in some row of the file, and that row survives the second phase. */
  ghost predicate SurvivesBoth(size: nat, n: nat, m: nat, i: int, d: seq<int>, e: seq<int>)
    requires size <= Loaded(size, n) + m
    requires d in FirstDraws(size, n) && e in Draws(size, Loaded(size, n) + m)
  {
    exists row :: 0 <= row < Loaded(size, n) && FileRows(size, n, d)[row] == i &&
                  row in Picked(size, Indices(size), size, e)
  }

  /** The pairs of draw sequences after which item `i` is still there. */
  ghost function KeepingBoth(size: nat, n: nat, m: nat, i: int): set<Pair>
    requires size <= Loaded(size, n) + m
  {
    set d, e | d in FirstDraws(size, n) && e in Draws(size, Loaded(size, n) + m) && SurvivesBoth(size, n, m, i, d, e)
      :: (d, e)
  }

  /** The first draws after which item `i` is in the file. */
  ghost function InFile(size: nat, n: nat, i: int): set<seq<int>> {
    set d | d in FirstDraws(size, n) && i in FileRows(size, n, d)
  }

  ghost function RowOf(size: nat, n: nat, i: int, d: seq<int>): (row: nat)
    requires d in InFile(size, n, i)
    ensures row < Loaded(size, n) && FileRows(size, n, d)[row] == i
  {
    var row :| 0 <= row < Loaded(size, n) && FileRows(size, n, d)[row] == i;
    row
  }

  lemma SurvivesByRow(size: nat, n: nat, m: nat, i: int, d: seq<int>, e: seq<int>)
    requires size <= Loaded(size, n) + m
    requires d in FirstDraws(size, n) && e in Draws(size, Loaded(size, n) + m)
    ensures SurvivesBoth(size, n, m, i, d, e) <==>
            d in InFile(size, n, i) && e in Keeping(size, Loaded(size, n) + m, RowOf(size, n, i, d))
  {
    FileRowsDistinct(size, n, d);
    if SurvivesBoth(size, n, m, i, d, e) {
      var row :| 0 <= row < Loaded(size, n) && FileRows(size, n, d)[row] == i &&
                 row in Picked(size, Indices(size), size, e);
      assert row == RowOf(size, n, i, d);
    }
  }

  ghost function SecondHalves(size: nat, n: nat, m: nat, i: int): (f: map<seq<int>, set<seq<int>>>)
    requires size <= Loaded(size, n) + m
    ensures f.Keys == InFile(size, n, i)
    ensures forall d :: d in f ==> f[d] == Keeping(size, Loaded(size, n) + m, RowOf(size, n, i, d))
  {
    map d | d in InFile(size, n, i) :: Keeping(size, Loaded(size, n) + m, RowOf(size, n, i, d))
  }

  lemma KeepingBothIsFibres(size: nat, n: nat, m: nat, i: int)
    requires size <= Loaded(size, n) + m
    ensures KeepingBoth(size, n, m, i) == Fibres(InFile(size, n, i), SecondHalves(size, n, m, i))
  {
    forall d, e
      ensures (d, e) in KeepingBoth(size, n, m, i) <==>
              (d, e) in Fibres(InFile(size, n, i), SecondHalves(size, n, m, i))
    {
      if d in FirstDraws(size, n) && e in Draws(size, Loaded(size, n) + m) {
        SurvivesByRow(size, n, m, i, d, e);
      }
    }
  }

  lemma KeptTimes(kept: nat, all: nat, k: nat, scale: nat)
    requires kept * scale == all && k * scale == all && scale > 0
    ensures kept == k
  {
    Distribute(kept - k, k, scale);
    assert (kept - k) * scale == 0;
  }

  /** Every row of the file survives the second phase equally often, so the pairs are counted by a product. */
  lemma KeepingBothCount(size: nat, n: nat, m: nat, i: int)
    requires 0 < size <= Loaded(size, n) + m && 0 < m
    ensures |KeepingBoth(size, n, m, i)| == |InFile(size, n, i)| * |Keeping(size, Loaded(size, n) + m, 0)|
  {
    var total, f := Loaded(size, n) + m, SecondHalves(size, n, m, i);
    UniformShare(size, total, 0);
    forall d | d in InFile(size, n, i)
      ensures |f[d]| == |Keeping(size, total, 0)|
    {
      UniformShare(size, total, RowOf(size, n, i, d));
      KeptTimes(|f[d]|, size * |Draws(size, total)|, |Keeping(size, total, 0)|, total);
    }
    FibreCount(InFile(size, n, i), f, |Keeping(size, total, 0)|);
    KeepingBothIsFibres(size, n, m, i);
  }

  /** The same for an item seen before the restart: over all pairs of draw sequences, one for each phase, its share is
      the fair one if and only if nothing had been discarded. */
  lemma RestartShareOfEarlier(size: nat, n: nat, m: nat, i: int)
    requires 0 < size <= Loaded(size, n) + m && 0 < m && 0 <= i < n
    ensures var kept, all := |KeepingBoth(size, n, m, i)|, |FirstDraws(size, n)| * |Draws(size, Loaded(size, n) + m)|;
            kept * (n + m) == size * all <==> n <= size
  {
    var total := Loaded(size, n) + m;
    KeepingBothCount(size, n, m, i);
    UniformShare(size, total, 0);
    if n < size {
      assert Indices(n)[i] == i;
      assert InFile(size, n, i) == {[]};
    } else {
      assert InFile(size, n, i) == Keeping(size, n, i);
      UniformShare(size, n, i);
      DrawsNonempty(size, n);
      DrawsNonempty(size, total);
      EarlierShares(|Keeping(size, n, i)|, |Draws(size, n)|, |Keeping(size, total, 0)|, |Draws(size, total)|,
                    size, n, m);
    }
  }

  // --------------------------------------------------- the drift mode's weights

  function MaxOf(ts: seq<real>): real
    requires ts != []
  {
    if |ts| == 1 then ts[0] else Max(MaxOf(ts[..|ts| - 1]), ts[|ts| - 1])
  }

  function Scale(ts: seq<real>): (s: real)
    requires ts != []
    ensures s > 0.0
  {
    if MaxOf(ts) > 0.0 then MaxOf(ts) else 1.0
  }

  /** How heavily slot `i` weighs for eviction, before the weights are normalised to sum to one. */
  function Weight(ts: seq<real>, i: nat): real
    requires i < |ts|
  {
    1.0 + ts[i] / Scale(ts)
  }

  function TotalWeight(ts: seq<real>, n: nat): real
    requires n <= |ts|
  {
    if n == 0 then 0.0 else TotalWeight(ts, n - 1) + Weight(ts, n - 1)
  }

  /** The probability with which slot `i` is evicted. */
  function Chance(ts: seq<real>, i: nat): real
    requires i < |ts| && TotalWeight(ts, |ts|) > 0.0
  {
    Weight(ts, i) / TotalWeight(ts, |ts|)
  }

  lemma QuotientsCompare(x: real, y: real, s: real)
    requires s > 0.0
    ensures x / s < y / s <==> x < y
  {
    var p, q := x / s, y / s;
    assert p * s == x && q * s == y;
    if p < q { assert (q - p) * s > 0.0; } else { assert (p - q) * s >= 0.0; }
  }

  /** The newer of two examples is the likelier one to be evicted. */
  lemma NewerIsLikelierEvicted(ts: seq<real>, i: nat, j: nat)
    requires i < |ts| && j < |ts| && TotalWeight(ts, |ts|) > 0.0
    ensures Chance(ts, i) < Chance(ts, j) <==> ts[i] < ts[j]
  {
    QuotientsCompare(ts[i], ts[j], Scale(ts));
    QuotientsCompare(Weight(ts, i), Weight(ts, j), TotalWeight(ts, |ts|));
  }

  /** As documented: of two examples the older one is at least as likely to be replaced. */
  ghost predicate OlderGoFirst(ts: seq<real>)
    requires TotalWeight(ts, |ts|) > 0.0
  {
    forall i, j :: 0 <= i < |ts| && 0 <= j < |ts| && ts[i] <= ts[j] ==> Chance(ts, i) >= Chance(ts, j)
  }

  /** That holds if and only if all timestamps are equal. */
  lemma DocumentedOrderIff(ts: seq<real>)
    requires TotalWeight(ts, |ts|) > 0.0
    ensures OlderGoFirst(ts) <==> forall i, j :: 0 <= i < |ts| && 0 <= j < |ts| ==> ts[i] == ts[j]
  {
    forall i: nat, j: nat | i < |ts| && j < |ts|
      ensures Chance(ts, i) < Chance(ts, j) <==> ts[i] < ts[j]
    {
      NewerIsLikelierEvicted(ts, i, j);
    }
  }

  lemma {:induction false} DrawsNonempty(t: nat, n: nat)
    requires t <= n
    ensures |Draws(t, n)| > 0
    decreases n - t
  {
    if t < n {
      DrawsNonempty(t + 1, n);
      DrawsCount(t, n);
      assert (t + 1) * |Draws(t + 1, n)| >= |Draws(t + 1, n)|;
    } else {
      assert [] in Draws(t, n);
    }
  }
}
