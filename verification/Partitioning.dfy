/** The partitioned dataset store (data/partitioning.py, lines 377-510, 523-633): a writer that appends shards and a
    reader that concatenates them. */
module Partitioning {
  import opened Common
  import opened ShardNames
  import PartitionPaths

  // ----------------------------------------------------------------- the store

  /** One partition directory: its shard files by number, and the row count of its metadata. */
  datatype Partition<Row> = Partition(shards: map<nat, seq<Row>>, rowCount: nat)

  /** A row with the partition key the strategy gives it. */
  datatype Keyed<Row> = Keyed(key: string, row: Row)

  /** The shards are numbered from zero without gaps. */
  ghost predicate Numbered<Row>(p: Partition<Row>) {
    forall i :: i in p.shards <==> 0 <= i < |p.shards|
  }

  function Appended<Row>(p: Option<Partition<Row>>, group: seq<Row>): Partition<Row> {
    if p.None? then Partition(map[0 := group], |group|)
    else Partition(p.value.shards[|p.value.shards| := group], p.value.rowCount + |group|)
  }

  /** The rows of one key, in their order. */
  function Group<Row>(frame: seq<Keyed<Row>>, k: string): seq<Row> {
    if frame == [] then []
    else
      var n := |frame| - 1;
      if frame[n].key == k then Group(frame[..n], k) + [frame[n].row] else Group(frame[..n], k)
  }

  /** The keys, each once, in order of first appearance. */
  function GroupKeys<Row>(frame: seq<Keyed<Row>>): seq<string> {
    if frame == [] then []
    else
      var n := |frame| - 1;
      var ks := GroupKeys(frame[..n]);
      if frame[n].key in ks then ks else ks + [frame[n].key]
  }

  lemma {:induction false} GroupKeysAreTheKeys<Row>(frame: seq<Keyed<Row>>)
    ensures Distinct(GroupKeys(frame))
    ensures forall k :: k in GroupKeys(frame) <==> Group(frame, k) != []
  {
    if frame != [] {
      GroupKeysAreTheKeys(frame[..|frame| - 1]);
    }
  }

  /** What one write of the keyed rows of a frame does to the partitions. */
  ghost predicate Wrote<Row>(
    before: map<string, Partition<Row>>, after: map<string, Partition<Row>>, frame: seq<Keyed<Row>>)
  {
    forall k :: Lookup(after, k) ==
      (if Group(frame, k) == [] then Lookup(before, k) else Some(Appended(Lookup(before, k), Group(frame, k))))
  }

  ghost predicate WroteKeys<Row>(
    before: map<string, Partition<Row>>, after: map<string, Partition<Row>>, frame: seq<Keyed<Row>>, ks: seq<string>)
  {
    forall k :: Lookup(after, k) ==
      (if k in ks then Some(Appended(Lookup(before, k), Group(frame, k))) else Lookup(before, k))
  }

  ghost predicate Counts<Row>(written: map<string, nat>, frame: seq<Keyed<Row>>, ks: seq<string>) {
    forall k :: Lookup(written, k) == (if k in ks then Some(|Group(frame, k)|) else None)
  }

  datatype Strategy<!Row> = Strategy(addColumns: Row -> Row, keyOf: Row -> string)

  function KeyedRows<Row>(s: Strategy<Row>, addColumns: bool, df: seq<Row>): (r: seq<Keyed<Row>>)
    ensures |r| == |df|
    ensures forall i :: 0 <= i < |df| ==>
      r[i].row == (if addColumns then s.addColumns(df[i]) else df[i]) && r[i].key == s.keyOf(r[i].row)
  {
    if df == [] then []
    else
      var row := if addColumns then s.addColumns(df[|df| - 1]) else df[|df| - 1];
      KeyedRows(s, addColumns, df[..|df| - 1]) + [Keyed(s.keyOf(row), row)]
  }

  class DatasetRoot<Row> {
    var partitions: map<string, Partition<Row>>

    constructor ()
      ensures partitions == map[]
    {
      partitions := map[];
    }

    ghost predicate Valid()
      reads this
    {
      forall k :: k in partitions ==> Numbered(partitions[k])
    }
  }

  class PartitionedDatasetWriter<!Row> {
    const root: DatasetRoot<Row>
    const strategy: Strategy<Row>
    const addColumns: bool

    constructor (root: DatasetRoot<Row>, strategy: Strategy<Row>, addColumns: bool)
      ensures this.root == root && this.strategy == strategy && this.addColumns == addColumns
    {
      this.root, this.strategy, this.addColumns := root, strategy, addColumns;
    }

    /** One more than the largest number in use. */
    method NextShardIndex(key: string) returns (next: nat)
      requires root.Valid()
      ensures next == if key in root.partitions then |root.partitions[key].shards| else 0
    {
      if key !in root.partitions {
        return 0;
      }
      ghost var p := root.partitions[key];
      var left := root.partitions[key].shards.Keys;
      next := 0;
      while left != {}
        invariant forall i :: i in left ==> i in p.shards
        invariant forall i :: i in p.shards && i !in left ==> i < next
        invariant next == 0 || next - 1 in p.shards
        decreases |left|
      {
        var i :| i in left;
        left := left - {i};
        if i + 1 > next {
          next := i + 1;
        }
      }
      assert next < |p.shards| ==> next in p.shards;
    }

    method WriteGroup(key: string, group: seq<Row>)
      requires root.Valid()
      modifies root
      ensures root.Valid()
      ensures root.partitions == old(root.partitions)[key := Appended(Lookup(old(root.partitions), key), group)]
    {
      var shard := NextShardIndex(key);
      if key !in root.partitions {
        root.partitions := root.partitions[key := Partition(map[shard := group], |group|)];
      } else {
        var p := root.partitions[key];
        root.partitions := root.partitions[key := Partition(p.shards[shard := group], p.rowCount + |group|)];
      }
    }

    /** An empty frame is refused; otherwise the answer says how many rows went to each partition. */
    method Write(df: seq<Row>) returns (r: Result<map<string, nat>, string>)
      requires root.Valid()
      modifies root
      ensures root.Valid()
      ensures r.Err? <==> df == []
      ensures r.Err? ==> root.partitions == old(root.partitions)
      ensures r.Ok? ==>
        var frame := KeyedRows(strategy, addColumns, df);
        Wrote(old(root.partitions), root.partitions, frame) && Counts(r.value, frame, GroupKeys(frame))
    {
      if df == [] {
        return Err("empty frame");
      }
      var written := WriteGroups(KeyedRows(strategy, addColumns, df));
      return Ok(written);
    }

    method WriteGroups(frame: seq<Keyed<Row>>) returns (written: map<string, nat>)
      requires root.Valid()
      modifies root
      ensures root.Valid() && Wrote(old(root.partitions), root.partitions, frame)
      ensures Counts(written, frame, GroupKeys(frame))
    {
      var keys := GroupKeys(frame);
      ghost var before := root.partitions;
      written := map[];
      for i := 0 to |keys|
        invariant root.Valid() && WroteKeys(before, root.partitions, frame, keys[..i])
        invariant Counts(written, frame, keys[..i])
      {
        WriteGroup(keys[i], Group(frame, keys[i]));
        written := written[keys[i] := |Group(frame, keys[i])|];
        GroupKeysAreTheKeys(frame);
        assert keys[..i + 1] == keys[..i] + [keys[i]];
      }
      assert keys[..|keys|] == keys;
      GroupKeysAreTheKeys(frame);
    }
  }

  ghost function Positions<Row>(frame: seq<Keyed<Row>>, k: string): set<int> {
    set i | 0 <= i < |frame| && frame[i].key == k
  }

  lemma {:induction false} GroupSize<Row>(frame: seq<Keyed<Row>>, k: string)
    ensures |Group(frame, k)| == |Positions(frame, k)|
  {
    if frame == [] {
      assert Positions(frame, k) == {};
    } else {
      var n, before := |frame| - 1, frame[..|frame| - 1];
      GroupSize(before, k);
      assert Positions(frame, k) == Positions(before, k) + if frame[n].key == k then {n} else {};
    }
  }

  lemma {:induction false} OccursIff<Row>(frame: seq<Keyed<Row>>, k: string)
    ensures Group(frame, k) != [] <==> exists i :: 0 <= i < |frame| && frame[i].key == k
  {
    GroupSize(frame, k);
    if Positions(frame, k) != {} {
      var i :| i in Positions(frame, k);
    }
    if i :| 0 <= i < |frame| && frame[i].key == k { assert i in Positions(frame, k); }
  }

  /** The answer of a write has an entry for every key that occurs in the frame, and for no other: the number of
      positions at which it occurs. */
  lemma {:induction false} CountsTold<Row>(written: map<string, nat>, frame: seq<Keyed<Row>>, k: string)
    requires Counts(written, frame, GroupKeys(frame))
    ensures k in written <==> exists i :: 0 <= i < |frame| && frame[i].key == k
    ensures k in written ==> written[k] == |Positions(frame, k)|
  {
    GroupKeysAreTheKeys(frame);
    OccursIff(frame, k);
    GroupSize(frame, k);
    assert Lookup(written, k) == if k in GroupKeys(frame) then Some(|Group(frame, k)|) else None;
  }

  // ----------------------------------------------------------------- reading

  function Chunk<K, Row>(m: map<K, seq<Row>>, k: K): seq<Row> {
    if k in m then m[k] else []
  }

  /** The shards of a partition, or the partitions of a store, one after the other in the order `order`. */
  function Concat<K, Row>(m: map<K, seq<Row>>, order: seq<K>): seq<Row> {
    if order == [] then [] else Concat(m, order[..|order| - 1]) + Chunk(m, order[|order| - 1])
  }

  lemma ConcatMore<K, Row>(m: map<K, seq<Row>>, order: seq<K>, i: nat)
    requires i < |order|
    ensures Concat(m, order[..i + 1]) == Concat(m, order[..i]) + Chunk(m, order[i])
  {
    assert order[..i + 1][..i] == order[..i];
  }

  ghost function ReadPartition<Row>(p: Partition<Row>): seq<Row> {
    Concat(p.shards, Listed(p.shards.Keys))
  }

  ghost predicate AreChunks<Row>(ps: map<string, Partition<Row>>, m: map<string, seq<Row>>) {
    m.Keys == ps.Keys && forall k :: k in ps ==> m[k] == ReadPartition(ps[k])
  }

  lemma ChunksExist<Row>(ps: map<string, Partition<Row>>)
    ensures exists m :: AreChunks(ps, m)
  {
    assert AreChunks(ps, map k | k in ps :: ReadPartition(ps[k]));
  }

  /** What a read of each partition alone gives. */
  ghost function Chunks<Row>(ps: map<string, Partition<Row>>): (m: map<string, seq<Row>>)
    ensures AreChunks(ps, m)
  {
    ChunksExist(ps);
    var m :| AreChunks(ps, m);
    m
  }

  /** What an unfiltered read gives: the partitions in path order. */
  ghost function ReadAll<Row>(ps: map<string, Partition<Row>>): seq<Row> {
    Concat(Chunks(ps), PartitionPaths.PathsListed(ps.Keys))
  }

  class PartitionedDatasetReader<Row> {
    const root: DatasetRoot<Row>

    constructor (root: DatasetRoot<Row>)
      ensures this.root == root
    {
      this.root := root;
    }

    method ReadShards(p: Partition<Row>) returns (rows: seq<Row>)
      ensures rows == ReadPartition(p)
    {
      var order := List(p.shards.Keys);
      rows := [];
      for i := 0 to |order|
        invariant rows == Concat(p.shards, order[..i])
      {
        assert order[i] in p.shards;
        rows := rows + p.shards[order[i]];
        ConcatMore(p.shards, order, i);
      }
      assert order[..|order|] == order;
    }

    method Read() returns (rows: seq<Row>)
      ensures rows == ReadAll(root.partitions)
    {
      var order := PartitionPaths.ListPaths(root.partitions.Keys);
      ghost var chunks := Chunks(root.partitions);
      rows := [];
      for i := 0 to |order|
        invariant rows == Concat(chunks, order[..i])
      {
        assert order[i] in root.partitions;
        var chunk := ReadShards(root.partitions[order[i]]);
        rows := rows + chunk;
        ConcatMore(chunks, order, i);
      }
      assert order[..|order|] == order;
    }
  }

  // -------------------------------------------------------------- whole runs

  /** All rows of the first n frames. */
  function AllRows<Row>(frames: seq<seq<Keyed<Row>>>, n: nat): seq<Keyed<Row>>
    requires n <= |frames|
  {
    if n == 0 then [] else AllRows(frames, n - 1) + frames[n - 1]
  }

  ghost predicate WroteNext<Row>(frames: seq<seq<Keyed<Row>>>, ss: seq<map<string, Partition<Row>>>, j: nat)
    requires j < |frames| < |ss|
  {
    Wrote(ss[j], ss[j + 1], frames[j])
  }

  /** The partitions before each write into an empty root, and after the last. */
  ghost predicate IsRun<Row>(frames: seq<seq<Keyed<Row>>>, ss: seq<map<string, Partition<Row>>>) {
    |ss| == |frames| + 1 && ss[0] == map[] && forall j :: 0 <= j < |frames| ==> WroteNext(frames, ss, j)
  }

  /** The first n shards in the order they were written. */
  function Contents<Row>(shards: map<nat, seq<Row>>, n: nat): seq<Row> {
    if n == 0 then [] else Contents(shards, n - 1) + Chunk(shards, n - 1)
  }

  lemma {:induction false} ContentsOfMore<Row>(shards: map<nat, seq<Row>>, group: seq<Row>, m: nat, n: nat)
    requires n <= m
    ensures Contents(shards[m := group], n) == Contents(shards, n)
  {
    if n > 0 { ContentsOfMore(shards, group, m, n - 1); }
  }

  lemma {:induction false} GroupOfBoth<Row>(a: seq<Keyed<Row>>, b: seq<Keyed<Row>>, k: string)
    ensures Group(a + b, k) == Group(a, k) + Group(b, k)
  {
    if b == [] {
      assert a + b == a;
    } else {
      var n := |b| - 1;
      assert (a + b)[..|a| + n] == a + b[..n];
      GroupOfBoth(a, b[..n], k);
    }
  }

  /** A partition that holds exactly `rows`, written in that order, counted right, in shards none of which is empty. */
  ghost predicate HoldsRows<Row>(p: Partition<Row>, rows: seq<Row>) {
    && Numbered(p) && Contents(p.shards, |p.shards|) == rows && p.rowCount == |rows|
    && |p.shards| > 0 && forall i :: i in p.shards ==> p.shards[i] != []
  }

  lemma FirstHolds<Row>(group: seq<Row>)
    requires group != []
    ensures HoldsRows(Appended(None, group), group)
  {
    var shards: map<nat, seq<Row>> := map[0 := group];
    assert Contents(shards, 1) == Contents(shards, 0) + group;
  }

  lemma MoreHolds<Row>(p: Partition<Row>, rows: seq<Row>, group: seq<Row>)
    requires HoldsRows(p, rows) && group != []
    ensures HoldsRows(Appended(Some(p), group), rows + group)
  {
    var n := |p.shards|;
    var shards := p.shards[n := group];
    ContentsOfMore(p.shards, group, n, n);
    assert shards.Keys == p.shards.Keys + {n};
    assert Contents(shards, n + 1) == rows + group;
  }

  lemma AppendHolds<Row>(p: Option<Partition<Row>>, rows: seq<Row>, group: seq<Row>)
    requires if p.None? then rows == [] else HoldsRows(p.value, rows)
    requires group != []
    ensures HoldsRows(Appended(p, group), rows + group)
  {
    if p.None? {
      FirstHolds(group);
      assert rows + group == group;
    } else {
      MoreHolds(p.value, rows, group);
    }
  }

  /** After any writes each partition holds exactly the rows of its key, in the order they were written. */
  lemma {:induction false} PartitionsHoldTheirRows<Row>(
    frames: seq<seq<Keyed<Row>>>, ss: seq<map<string, Partition<Row>>>, n: nat, k: string)
    requires IsRun(frames, ss) && n <= |frames|
    ensures var rows := Group(AllRows(frames, n), k);
            (k in ss[n] <==> rows != []) && (k in ss[n] ==> HoldsRows(ss[n][k], rows))
  {
    if n > 0 {
      PartitionsHoldTheirRows(frames, ss, n - 1, k);
      assert WroteNext(frames, ss, n - 1);
      GroupOfBoth(AllRows(frames, n - 1), frames[n - 1], k);
      var group := Group(frames[n - 1], k);
      assert Lookup(ss[n], k) ==
             if group == [] then Lookup(ss[n - 1], k) else Some(Appended(Lookup(ss[n - 1], k), group));
      if group != [] {
        AppendHolds(Lookup(ss[n - 1], k), Group(AllRows(frames, n - 1), k), group);
      }
    }
  }

  /** No later write replaces or removes a shard. */
  lemma {:induction false} ShardsAreKept<Row>(
    frames: seq<seq<Keyed<Row>>>, ss: seq<map<string, Partition<Row>>>, m: nat, n: nat, k: string, i: nat)
    requires IsRun(frames, ss) && m <= n <= |frames| && k in ss[m] && i in ss[m][k].shards
    ensures k in ss[n] && i in ss[n][k].shards && ss[n][k].shards[i] == ss[m][k].shards[i]
    decreases n - m
  {
    if m < n {
      ShardsAreKept(frames, ss, m, n - 1, k, i);
      assert WroteNext(frames, ss, n - 1);
      PartitionsHoldTheirRows(frames, ss, n - 1, k);
      var group := Group(frames[n - 1], k);
      assert Lookup(ss[n], k) ==
             if group == [] then Lookup(ss[n - 1], k) else Some(Appended(Lookup(ss[n - 1], k), group));
    }
  }

  // ------------------------------------------------- what a read returns

  lemma ConcatLast<K, Row>(m: map<K, seq<Row>>, order: seq<K>, k: K)
    ensures Concat(m, order + [k]) == Concat(m, order) + Chunk(m, k)
  {
    assert (order + [k])[..|order|] == order;
  }

  lemma {:induction false} ConcatTakesOut<K, Row>(m: map<K, seq<Row>>, a: seq<K>, k: K, b: seq<K>)
    ensures multiset(Concat(m, a + [k] + b)) == multiset(Concat(m, a + b)) + multiset(Chunk(m, k))
  {
    if b == [] {
      assert a + [k] + b == a + [k] && a + b == a;
      ConcatLast(m, a, k);
    } else {
      var t, e := b[..|b| - 1], b[|b| - 1];
      assert a + [k] + b == (a + [k] + t) + [e] && a + b == (a + t) + [e];
      ConcatLast(m, a + [k] + t, e);
      ConcatLast(m, a + t, e);
      ConcatTakesOut(m, a, k, t);
    }
  }

  ghost predicate IsPermutation<K(!new)>(x: seq<K>, y: seq<K>) {
    |x| == |y| && Distinct(x) && Distinct(y) && forall k :: k in x <==> k in y
  }

  lemma TakeOut<K(!new)>(x: seq<K>, y: seq<K>) returns (a: seq<K>, b: seq<K>)
    requires IsPermutation(x, y) && x != []
    ensures y == a + [x[|x| - 1]] + b && IsPermutation(x[..|x| - 1], a + b)
  {
    var n := |x| - 1;
    assert x[n] in y;
    var j :| 0 <= j < |y| && y[j] == x[n];
    a, b := y[..j], y[j + 1..];
    forall k
      ensures k in x[..n] <==> k in a + b
    {
      if k in x[..n] { assert k in y && k != y[j]; }
      if k in a + b { assert k in x && k != x[n]; }
    }
  }

  /** The order of concatenation does not change which rows come out. */
  lemma {:induction false} ConcatPermuted<K(!new), Row>(m: map<K, seq<Row>>, x: seq<K>, y: seq<K>)
    requires IsPermutation(x, y)
    ensures multiset(Concat(m, x)) == multiset(Concat(m, y))
    decreases |x|
  {
    if x != [] {
      var k := x[|x| - 1];
      var a, b := TakeOut(x, y);
      ConcatPermuted(m, x[..|x| - 1], a + b);
      ConcatTakesOut(m, a, k, b);
    }
  }

  lemma {:induction false} ContentsIsConcat<Row>(shards: map<nat, seq<Row>>, n: nat)
    ensures Contents(shards, n) == Concat(shards, Numbers(n))
  {
    if n > 0 {
      ContentsIsConcat(shards, n - 1);
      assert Numbers(n)[..n - 1] == Numbers(n - 1);
    }
  }

  /** Reading a partition returns its rows, and in their order too up to a hundred thousand shards. */
  lemma ReadReturnsContents<Row>(p: Partition<Row>)
    requires Numbered(p)
    ensures multiset(ReadPartition(p)) == multiset(Contents(p.shards, |p.shards|))
    ensures |p.shards| <= 100000 ==> ReadPartition(p) == Contents(p.shards, |p.shards|)
  {
    var n := |p.shards|;
    ContentsIsConcat(p.shards, n);
    NumbersAre(n);
    ConcatPermuted(p.shards, Listed(p.shards.Keys), Numbers(n));
    if n <= 100000 {
      assert |p.shards.Keys| == n;
      ListedIsNumbers(p.shards.Keys);
    }
  }

  // ------------------------------------------------- in which order rows come back

  /** `x` occurs before `y`. */
  ghost predicate Before<T>(s: seq<T>, x: T, y: T) {
    exists i, j :: 0 <= i < j < |s| && s[i] == x && s[j] == y
  }

  lemma NotBothWays<T>(s: seq<T>, x: T, y: T)
    requires Distinct(s) && Before(s, x, y)
    ensures !Before(s, y, x)
  {
  }

  lemma {:induction false} ChunkInConcat<Row>(m: map<nat, seq<Row>>, order: seq<nat>, p: nat)
    requires p < |order| && Chunk(m, order[p]) != []
    ensures Chunk(m, order[p])[0] in Concat(m, order)
    decreases |order|
  {
    var n := |order| - 1;
    if p < n {
      ChunkInConcat(m, order[..n], p);
    } else {
      assert Concat(m, order)[|Concat(m, order[..n])|] == Chunk(m, order[n])[0];
    }
  }

  lemma {:induction false} ConcatKeepsOrder<Row>(m: map<nat, seq<Row>>, order: seq<nat>, p: nat, q: nat)
    requires p < q < |order| && Chunk(m, order[p]) != [] && Chunk(m, order[q]) != []
    ensures Before(Concat(m, order), Chunk(m, order[p])[0], Chunk(m, order[q])[0])
    decreases |order|
  {
    var n := |order| - 1;
    var init, all := Concat(m, order[..n]), Concat(m, order);
    var x, y := Chunk(m, order[p])[0], Chunk(m, order[q])[0];
    if q < n {
      ConcatKeepsOrder(m, order[..n], p, q);
      var i, j :| 0 <= i < j < |init| && init[i] == x && init[j] == y;
      assert all[i] == x && all[j] == y;
    } else {
      ChunkInConcat(m, order[..n], p);
      var i :| 0 <= i < |init| && init[i] == x;
      assert all[i] == x && all[|init|] == y;
    }
  }

  lemma ListedByName(shards: set<nat>, i: nat, j: nat)
    requires i < |Listed(shards)| && j < |Listed(shards)|
    ensures i < j ==> NameLe(Listed(shards)[i], Listed(shards)[j])
  {
  }

  lemma LongNameListedFirst(shards: set<nat>) returns (p: nat, q: nat)
    requires (forall i :: i in shards <==> 0 <= i < |shards|) && |shards| > 100000
    ensures p < q < |Listed(shards)| && Listed(shards)[p] == 100000 && Listed(shards)[q] == 99999
  {
    var s := Listed(shards);
    assert 100000 in s && 99999 in s;
    p :| 0 <= p < |s| && s[p] == 100000;
    q :| 0 <= q < |s| && s[q] == 99999;
    LongNameFirst(99999, 100000);
    ListedByName(shards, q, p);
  }

  lemma OtherOrderBeyond<Row>(p: Partition<Row>)
    requires Numbered(p) && (forall i :: i in p.shards ==> p.shards[i] != []) && |p.shards| > 100000
    requires Distinct(Contents(p.shards, |p.shards|))
    ensures ReadPartition(p) != Contents(p.shards, |p.shards|)
  {
    var n, x, y := |p.shards|, p.shards[99999][0], p.shards[100000][0];
    assert |p.shards.Keys| == n;
    var a, b := LongNameListedFirst(p.shards.Keys);
    ConcatKeepsOrder(p.shards, Listed(p.shards.Keys), a, b);
    ContentsIsConcat(p.shards, n);
    ConcatKeepsOrder(p.shards, Numbers(n), 99999, 100000);
    NotBothWays(Contents(p.shards, n), x, y);
  }

  /** A partition of rows that are all different comes back in the order written if and only if it has at most a hundred
      thousand shards. */
  lemma ReadInOrderIff<Row>(p: Partition<Row>)
    requires Numbered(p) && forall i :: i in p.shards ==> p.shards[i] != []
    requires Distinct(Contents(p.shards, |p.shards|))
    ensures ReadPartition(p) == Contents(p.shards, |p.shards|) <==> |p.shards| <= 100000
  {
    ReadReturnsContents(p);
    if |p.shards| > 100000 { OtherOrderBeyond(p); }
  }

  // ------------------------------------------------- what a whole read returns

  lemma {:induction false} ConcatSplits<K, Row>(m: map<K, seq<Row>>, order: seq<K>, p: nat, q: nat)
    returns (x: seq<Row>, y: seq<Row>, z: seq<Row>)
    requires p < q < |order|
    ensures Concat(m, order) == x + Chunk(m, order[p]) + y + Chunk(m, order[q]) + z
    decreases |order|
  {
    var n := |order| - 1;
    if q < n {
      x, y, z := ConcatSplits(m, order[..n], p, q);
      z := z + Chunk(m, order[n]);
    } else {
      var u, v := ConcatSplitsAt(m, order[..n], p);
      x, y, z := u, v, [];
    }
  }

  lemma {:induction false} ConcatSplitsAt<K, Row>(m: map<K, seq<Row>>, order: seq<K>, p: nat)
    returns (x: seq<Row>, y: seq<Row>)
    requires p < |order|
    ensures Concat(m, order) == x + Chunk(m, order[p]) + y
    decreases |order|
  {
    var n := |order| - 1;
    if p < n {
      x, y := ConcatSplitsAt(m, order[..n], p);
      y := y + Chunk(m, order[n]);
    } else {
      x, y := Concat(m, order[..n]), [];
    }
  }

  /** All rows of a partition come before all rows of any other whose path comes later: where the paths first
      differ, it has no component left or the lesser one. */
  lemma ReadInPathOrder<Row>(ps: map<string, Partition<Row>>, a: string, b: string)
    returns (x: seq<Row>, y: seq<Row>, z: seq<Row>)
    requires a in ps && b in ps && PartitionPaths.PathPrecedes(a, b)
    ensures ReadAll(ps) == x + ReadPartition(ps[a]) + y + ReadPartition(ps[b]) + z
  {
    var order := PartitionPaths.PathsListed(ps.Keys);
    assert a in order && b in order;
    var p :| 0 <= p < |order| && order[p] == a;
    var q :| 0 <= q < |order| && order[q] == b;
    PartitionPaths.PathsDiffer(a, b);
    PartitionPaths.ListedByComponents(ps.Keys, p, q);
    x, y, z := ConcatSplits(Chunks(ps), order, p, q);
  }

  /** The rows whose key is among `ks`. */
  function RowsOf<Row>(frame: seq<Keyed<Row>>, ks: seq<string>): seq<Row> {
    if frame == [] then []
    else
      var n := |frame| - 1;
      if frame[n].key in ks then RowsOf(frame[..n], ks) + [frame[n].row] else RowsOf(frame[..n], ks)
  }

  function RowsIn<Row>(frame: seq<Keyed<Row>>): seq<Row> {
    if frame == [] then [] else RowsIn(frame[..|frame| - 1]) + [frame[|frame| - 1].row]
  }

  lemma {:induction false} RowsOfMore<Row>(frame: seq<Keyed<Row>>, ks: seq<string>, k: string)
    requires k !in ks
    ensures multiset(RowsOf(frame, ks + [k])) == multiset(RowsOf(frame, ks)) + multiset(Group(frame, k))
  {
    if frame != [] {
      RowsOfMore(frame[..|frame| - 1], ks, k);
    }
  }

  lemma {:induction false} RowsOfNone<Row>(frame: seq<Keyed<Row>>)
    ensures RowsOf(frame, []) == []
  {
    if frame != [] { RowsOfNone(frame[..|frame| - 1]); }
  }

  lemma {:induction false} RowsOfEvery<Row>(frame: seq<Keyed<Row>>, ks: seq<string>)
    requires forall k :: Group(frame, k) != [] ==> k in ks
    ensures RowsOf(frame, ks) == RowsIn(frame)
  {
    if frame != [] {
      var n := |frame| - 1;
      assert Group(frame, frame[n].key) != [];
      forall k | Group(frame[..n], k) != []
        ensures k in ks
      {
        assert Group(frame, k) != [];
      }
      RowsOfEvery(frame[..n], ks);
    }
  }

  lemma {:induction false} ConcatOfGroups<Row>(frame: seq<Keyed<Row>>, m: map<string, seq<Row>>, ks: seq<string>)
    requires Distinct(ks)
    requires forall k :: k in ks ==> multiset(Chunk(m, k)) == multiset(Group(frame, k))
    ensures multiset(Concat(m, ks)) == multiset(RowsOf(frame, ks))
  {
    if ks == [] {
      RowsOfNone(frame);
    } else {
      var n := |ks| - 1;
      ConcatOfGroups(frame, m, ks[..n]);
      RowsOfMore(frame, ks[..n], ks[n]);
      assert ks[..n] + [ks[n]] == ks;
    }
  }

  lemma ChunkHasItsRows<Row>(frames: seq<seq<Keyed<Row>>>, ss: seq<map<string, Partition<Row>>>, n: nat, k: string)
    requires IsRun(frames, ss) && n <= |frames| && k in ss[n]
    ensures multiset(ReadPartition(ss[n][k])) == multiset(Group(AllRows(frames, n), k))
    ensures |ss[n][k].shards| <= 100000 ==> ReadPartition(ss[n][k]) == Group(AllRows(frames, n), k)
  {
    PartitionsHoldTheirRows(frames, ss, n, k);
    ReadReturnsContents(ss[n][k]);
  }

  /** After any writes an unfiltered read returns exactly the rows written, each as often as it was written. */
  lemma ReadReturnsEverything<Row>(
    frames: seq<seq<Keyed<Row>>>, ss: seq<map<string, Partition<Row>>>, n: nat)
    requires IsRun(frames, ss) && n <= |frames|
    ensures multiset(ReadAll(ss[n])) == multiset(RowsIn(AllRows(frames, n)))
  {
    var frame, chunks, order := AllRows(frames, n), Chunks(ss[n]), PartitionPaths.PathsListed(ss[n].Keys);
    forall k | k in order
      ensures multiset(Chunk(chunks, k)) == multiset(Group(frame, k))
    {
      ChunkHasItsRows(frames, ss, n, k);
    }
    ConcatOfGroups(frame, chunks, order);
    forall k | Group(frame, k) != []
      ensures k in order
    {
      PartitionsHoldTheirRows(frames, ss, n, k);
    }
    RowsOfEvery(frame, order);
  }
}
