/** The Merkle audit chain (detection/audit_trail.py).

    SHA-256 is an ideal hash: a digest is the term of what was hashed.  A leaf
    preimage starts with a decimal index and a colon, a node preimage is 128
    hexadecimal characters, so the constructors below never collide. */
module AuditTrail {
  import opened Common
  import opened Ordering

  datatype Digest =
    | ContentDigest(json: string)
    | Leaf(index: int, content: Digest)
    | Node(left: Digest, right: Digest)
    | Empty
    | Genesis
    | Foreign(text: string) // any other text found in a stored column

  // ------------------------------------------------------------ Merkle root

  /** One pass of the level loop; an odd last node is paired with its own copy. */
  function Level(nodes: seq<Digest>): (r: seq<Digest>)
    requires |nodes| > 1
    ensures 0 < |r| < |nodes| && |nodes| <= 2 * |r| <= |nodes| + 1
  {
    seq((|nodes| + 1) / 2, i requires 0 <= i < (|nodes| + 1) / 2 =>
          Node(nodes[2 * i], if 2 * i + 1 < |nodes| then nodes[2 * i + 1] else nodes[2 * i]))
  }

  function Root(leaves: seq<Digest>): Digest
    decreases |leaves|
  {
    if leaves == [] then Empty
    else if |leaves| == 1 then leaves[0]
    else Root(Level(leaves))
  }

  method MerkleRoot(leafHashes: seq<Digest>) returns (root: Digest)
    ensures root == Root(leafHashes)
  {
    if leafHashes == [] {
      return Empty;
    }
    var nodes := leafHashes;
    while |nodes| > 1
      invariant nodes != [] && Root(nodes) == Root(leafHashes)
      decreases |nodes|
    {
      ghost var before := nodes;
      if |nodes| % 2 == 1 {
        nodes := nodes + [nodes[|nodes| - 1]];
      }
      nodes := seq(|nodes| / 2, i requires 0 <= i < |nodes| / 2 => Node(nodes[2 * i], nodes[2 * i + 1]));
      assert nodes == Level(before);
    }
    return nodes[0];
  }

  /** Leaf hashes stamped with their position. */
  function Leaves(contents: seq<Digest>): (r: seq<Digest>)
    ensures |r| == |contents|
  {
    seq(|contents|, i requires 0 <= i < |contents| => Leaf(i, contents[i]))
  }

  // ---------------------------------------------------------------- binding

  ghost function Depth(d: Digest): nat {
    if d.Node? then Depth(d.left) + 1 else 0
  }

  ghost predicate Uniform(nodes: seq<Digest>, depth: nat) {
    forall i :: 0 <= i < |nodes| ==> Depth(nodes[i]) == depth
  }

  lemma LevelShape(nodes: seq<Digest>, depth: nat)
    requires |nodes| > 1 && Distinct(nodes) && Uniform(nodes, depth)
    ensures Distinct(Level(nodes)) && Uniform(Level(nodes), depth + 1)
  {
    var up := Level(nodes);
    forall i | 0 <= i < |up|
      ensures up[i].Node? && up[i].left == nodes[2 * i]
    {
    }
  }

  /** Distinctness is what rules out confusing an odd level with its padded copy. */
  lemma LevelInjective(a: seq<Digest>, b: seq<Digest>)
    requires |a| > 1 && |b| > 1 && Distinct(a) && Distinct(b)
    requires Level(a) == Level(b)
    ensures a == b
  {
    LastPair(a);
    LastPair(b);
    assert |a| == |b|;
    forall k | 0 <= k < |a|
      ensures a[k] == b[k]
    {
      var i := k / 2;
      assert Level(a)[i] == Level(b)[i];
      assert k == 2 * i || k == 2 * i + 1;
    }
  }

  lemma LastPair(nodes: seq<Digest>)
    requires |nodes| > 1 && Distinct(nodes)
    ensures var m := |Level(nodes)|;
            Level(nodes)[m - 1].Node? &&
            (|nodes| == 2 * m - 1 <==> Level(nodes)[m - 1].left == Level(nodes)[m - 1].right)
  {
    var m := |Level(nodes)|;
    assert |nodes| == 2 * m || |nodes| == 2 * m - 1;
  }

  lemma {:induction false} RootDepth(nodes: seq<Digest>, depth: nat)
    requires nodes != [] && Distinct(nodes) && Uniform(nodes, depth)
    ensures Depth(Root(nodes)) >= depth && (|nodes| > 1 ==> Depth(Root(nodes)) > depth)
    decreases |nodes|
  {
    if |nodes| > 1 {
      LevelShape(nodes, depth);
      RootDepth(Level(nodes), depth + 1);
    }
  }

  lemma {:induction false} RootInjective(a: seq<Digest>, b: seq<Digest>, depth: nat)
    requires a != [] && b != [] && Distinct(a) && Distinct(b) && Uniform(a, depth) && Uniform(b, depth)
    requires Root(a) == Root(b)
    ensures a == b
    decreases |a|
  {
    RootDepth(a, depth);
    RootDepth(b, depth);
    if |a| > 1 {
      LevelShape(a, depth);
      LevelShape(b, depth);
      RootInjective(Level(a), Level(b), depth + 1);
      LevelInjective(a, b);
    }
  }

  /** The root of index-stamped leaves commits to their number and to every content. */
  lemma RootBinding(c1: seq<Digest>, c2: seq<Digest>)
    ensures Root(Leaves(c1)) == Root(Leaves(c2)) <==> c1 == c2
  {
    if Root(Leaves(c1)) == Root(Leaves(c2)) {
      if c1 == [] || c2 == [] {
        NonemptyRoot(c1);
        NonemptyRoot(c2);
      } else {
        RootInjective(Leaves(c1), Leaves(c2), 0);
        forall i | 0 <= i < |c1|
          ensures c1[i] == c2[i]
        {
          assert Leaves(c1)[i] == Leaf(i, c1[i]) && Leaves(c2)[i] == Leaf(i, c2[i]);
        }
      }
    }
  }

  lemma NonemptyRoot(c: seq<Digest>)
    ensures Root(Leaves(c)) == Empty <==> c == []
  {
    if |c| > 1 {
      RootDepth(Leaves(c), 0);
    }
  }

  lemma LevelOfDuplicated(nodes: seq<Digest>, m: nat)
    requires |nodes| == 2 * m + 1 && m > 0
    ensures Level(nodes + [nodes[2 * m]]) == Level(nodes)
  {
    var longer := nodes + [nodes[2 * m]];
    assert |Level(longer)| == |Level(nodes)| == m + 1;
    forall i | 0 <= i < m + 1
      ensures Level(longer)[i] == Level(nodes)[i]
    {
    }
  }

  /** Without the index stamp the scheme would not bind: an odd list and the same
      list with its last element repeated have one root. */
  lemma DuplicationAmbiguous(nodes: seq<Digest>, m: nat)
    requires |nodes| == 2 * m + 1 && m > 0
    ensures Root(nodes + [nodes[2 * m]]) == Root(nodes)
  {
    LevelOfDuplicated(nodes, m);
  }

  // -------------------------------------------------------------- the chain

  datatype Row = Row(contentHash: Option<Digest>, prevRoot: Option<Digest>, root: Digest)

  datatype Entry = Entry(index: int, row: Row)

  datatype AppendError = ChainIncomplete | DuplicateIndex

  /** The process state together with the durable table, which is keyed by the unique `entry_index`. */
  datatype Chain = Chain(entries: seq<Entry>, rows: map<int, Row>)

  datatype Outcome =
    | Verified
    | MissingEntry(at: nat)
    | IncompleteEntry(at: nat)
    | EntryRootMismatch(at: nat)
    | NoStoredRoot(at: nat)
    | StoredRootMismatch(at: nat)

  predicate AllPresent(entries: seq<Entry>) {
    forall i :: 0 <= i < |entries| ==> entries[i].row.contentHash.Some?
  }

  function ContentsOf(entries: seq<Entry>): (r: seq<Digest>)
    requires AllPresent(entries)
    ensures |r| == |entries|
  {
    seq(|entries|, i requires 0 <= i < |entries| => entries[i].row.contentHash.value)
  }

  /** `append` stamps with the stored index of each entry, `verify_chain` with its position. */
  function StoredLeaves(entries: seq<Entry>): seq<Digest>
    requires AllPresent(entries)
  {
    seq(|entries|, i requires 0 <= i < |entries| => Leaf(entries[i].index, entries[i].row.contentHash.value))
  }

  function NewEntry(entries: seq<Entry>, json: string): Entry
    requires AllPresent(entries)
  {
    var prev := if entries == [] then Genesis else entries[|entries| - 1].row.root;
    var root := Root(StoredLeaves(entries) + [Leaf(|entries|, ContentDigest(json))]);
    Entry(|entries|, Row(Some(ContentDigest(json)), Some(prev), root))
  }

  /** `append`: the entry joins memory before the insert, so a violated unique index leaves it there. */
  function AppendTo(c: Chain, json: string): (Chain, Result<Entry, AppendError>) {
    if !AllPresent(c.entries) then (c, Err(ChainIncomplete))
    else
      var entry := NewEntry(c.entries, json);
      var entries := c.entries + [entry];
      if |c.entries| in c.rows then (Chain(entries, c.rows), Err(DuplicateIndex))
      else (Chain(entries, c.rows[|c.entries| := entry.row]), Ok(entry))
  }

  ghost function OrderedIndices(rows: map<int, Row>): (r: seq<int>)
    ensures |r| == |rows|
  {
    IntOrder();
    Sorted(rows.Keys, IntLe)
  }

  lemma OrderedFacts(rows: map<int, Row>)
    ensures Increasing(OrderedIndices(rows))
    ensures forall k :: k in OrderedIndices(rows) <==> k in rows
    ensures forall i :: 0 <= i < |rows| ==> OrderedIndices(rows)[i] in rows
  {
    IntOrder();
    SortedElements(rows.Keys, IntLe);
    SortedAscends(rows.Keys, IntLe);
    var keys := OrderedIndices(rows);
    forall i | 0 <= i < |keys|
      ensures keys[i] in rows
    {
      assert keys[i] in keys;
    }
  }

  ghost predicate Increasing(s: seq<int>) {
    forall i, j :: 0 <= i < j < |s| ==> s[i] < s[j]
  }

  lemma {:induction false} IncreasingBounds(s: seq<int>, lo: int, hi: int)
    requires Increasing(s) && forall i :: 0 <= i < |s| ==> lo <= s[i] < hi
    ensures forall i :: 0 <= i < |s| ==> lo + i <= s[i] <= hi - |s| + i
  {
    if s != [] {
      IncreasingBounds(s[1..], s[0] + 1, hi);
      forall i | 0 <= i < |s|
        ensures lo + i <= s[i] <= hi - |s| + i
      {
        assert i > 0 ==> s[i] == s[1..][i - 1];
        assert |s| > 1 ==> s[1] == s[1..][0];
      }
    }
  }

  /** `_rehydrate_entries`: the stored rows in index order. */
  ghost function Rehydrated(rows: map<int, Row>): (r: seq<Entry>)
    ensures |r| == |rows| == |OrderedIndices(rows)|
    ensures forall i :: 0 <= i < |r| ==>
              r[i].index == OrderedIndices(rows)[i] && r[i].index in rows && r[i].row == rows[r[i].index]
  {
    OrderedFacts(rows);
    var keys := OrderedIndices(rows);
    seq(|keys|, i requires 0 <= i < |keys| => Entry(keys[i], rows[keys[i]]))
  }

  lemma RehydratedAt(rows: map<int, Row>, i: nat)
    requires i < |OrderedIndices(rows)|
    ensures var k := OrderedIndices(rows)[i];
            i < |Rehydrated(rows)| && k in rows && Rehydrated(rows)[i] == Entry(k, rows[k])
  {
    assert Rehydrated(rows)[i].index == OrderedIndices(rows)[i];
  }

  class RootTable {
    var rows: map<int, Row>

    constructor (rows: map<int, Row>)
      ensures this.rows == rows
    {
      this.rows := rows;
    }
  }

  /** The declarative meaning of one verified position. */
  ghost predicate Passes(c: Chain, start: int, i: nat) {
    && i < |c.entries|
    && c.entries[i].row.contentHash.Some?
    && (start <= i ==>
          && AllPresent(c.entries[..i + 1])
          && c.entries[i].row.root == Root(Leaves(ContentsOf(c.entries[..i + 1])))
          && i in c.rows
          && c.rows[i].root == c.entries[i].row.root)
  }

  /** The reported failure is the first failing check at the first failing position. */
  ghost predicate Explains(c: Chain, start: int, out: Outcome)
    requires !out.Verified?
  {
    var i := out.at;
    if i >= |c.entries| then out.MissingEntry?
    else if c.entries[i].row.contentHash.None? then out.IncompleteEntry?
    else
      && start <= i && AllPresent(c.entries[..i + 1])
      && var recomputed := Root(Leaves(ContentsOf(c.entries[..i + 1])));
         if recomputed != c.entries[i].row.root then out.EntryRootMismatch?
         else if i !in c.rows then out.NoStoredRoot?
         else out.StoredRootMismatch? && c.rows[i].root != recomputed
  }

  ghost predicate Accepts(c: Chain, start: int, stop: int) {
    forall i :: 0 <= i < stop ==> Passes(c, start, i)
  }

  /** What `verify_chain` answers: success, or the first failing check at the first failing position. */
  ghost predicate IsAnswer(c: Chain, start: int, stop: int, out: Outcome) {
    if out.Verified? then Accepts(c, start, stop)
    else out.at < stop && Accepts(c, start, out.at) && !Passes(c, start, out.at) && Explains(c, start, out)
  }

  lemma LeavesOfMore(entries: seq<Entry>, i: nat)
    requires i < |entries| && AllPresent(entries[..i]) && entries[i].row.contentHash.Some?
    ensures AllPresent(entries[..i + 1])
    ensures Leaves(ContentsOf(entries[..i + 1])) ==
            Leaves(ContentsOf(entries[..i])) + [Leaf(i, entries[i].row.contentHash.value)]
  {
  }

  class AuditMerkleChain {
    var entries: seq<Entry>
    const table: RootTable

    ghost function State(): Chain
      reads this, table
    {
      Chain(entries, table.rows)
    }

    constructor (table: RootTable)
      ensures this.table == table && State() == Chain(Rehydrated(table.rows), table.rows)
    {
      this.table := table;
      new;
      var loaded := Rehydrate(table.rows);
      entries := loaded;
    }

    static method Rehydrate(rows: map<int, Row>) returns (loaded: seq<Entry>)
      ensures loaded == Rehydrated(rows)
    {
      var keys := SortIndices(rows);
      loaded := [];
      for i := 0 to |keys|
        invariant loaded == Rehydrated(rows)[..i]
      {
        RehydratedAt(rows, i);
        loaded := loaded + [Entry(keys[i], rows[keys[i]])];
      }
    }

    static method SortIndices(rows: map<int, Row>) returns (keys: seq<int>)
      ensures keys == OrderedIndices(rows)
    {
      IntOrder();
      keys := Sort(rows.Keys, IntLe);
    }

    method Append(json: string) returns (r: Result<Entry, AppendError>)
      modifies this, table
      ensures (State(), r) == AppendTo(old(State()), json)
    {
      if exists i :: 0 <= i < |entries| && entries[i].row.contentHash.None? {
        return Err(ChainIncomplete);
      }
      var index := |entries|;
      var prev := if entries == [] then Genesis else entries[|entries| - 1].row.root;
      var leaves := StoredLeaves(entries) + [Leaf(index, ContentDigest(json))];
      var root := MerkleRoot(leaves);
      var entry := Entry(index, Row(Some(ContentDigest(json)), Some(prev), root));
      entries := entries + [entry];
      if index in table.rows {
        return Err(DuplicateIndex);
      }
      table.rows := table.rows[index := entry.row];
      return Ok(entry);
    }

    /** Both recorded roots of one entry against the root recomputed from the leaves up to it. */
    method CheckRoots(start: int, i: nat, leafHashes: seq<Digest>) returns (out: Outcome)
      requires start <= i < |entries| && AllPresent(entries[..i + 1])
      requires leafHashes == Leaves(ContentsOf(entries[..i + 1]))
      ensures out.Verified? <==> Passes(State(), start, i)
      ensures !out.Verified? ==> out.at == i && Explains(State(), start, out)
    {
      ghost var c := State();
      assert c.entries[..i + 1][i] == c.entries[i];
      var recomputed := MerkleRoot(leafHashes);
      if recomputed != entries[i].row.root {
        return EntryRootMismatch(i);
      }
      if i !in table.rows {
        return NoStoredRoot(i);
      }
      if table.rows[i].root != recomputed {
        return StoredRootMismatch(i);
      }
      return Verified;
    }

    method VerifyChain(start: int, end: Option<int>) returns (out: Outcome)
      ensures out.Verified? <==> Accepts(State(), start, if end.Some? then end.value else |entries|)
      ensures IsAnswer(State(), start, if end.Some? then end.value else |entries|, out)
    {
      var stop := if end.Some? then end.value else |entries|;
      ghost var c := State();
      var leafHashes: seq<Digest> := [];
      var i := 0;
      while i < stop
        invariant 0 <= i && (i <= stop || i == 0)
        invariant Accepts(c, start, i)
        invariant i <= |entries| && AllPresent(c.entries[..i])
        invariant leafHashes == Leaves(ContentsOf(c.entries[..i]))
      {
        if i >= |entries| {
          assert !Passes(c, start, i);
          return MissingEntry(i);
        }
        var entry := entries[i];
        if entry.row.contentHash.None? {
          assert !Passes(c, start, i);
          return IncompleteEntry(i);
        }
        leafHashes := leafHashes + [Leaf(i, entry.row.contentHash.value)];
        LeavesOfMore(c.entries, i);
        if start <= i {
          var checked := CheckRoots(start, i, leafHashes);
          if !checked.Verified? {
            return checked;
          }
        }
        i := i + 1;
      }
      return Verified;
    }
  }

  // ------------------------------------------------------------ honest runs

  datatype Op = Append(json: string) | Restart

  ghost function Apply(c: Chain, op: Op): Chain {
    match op
    case Append(json) => AppendTo(c, json).0
    case Restart => Chain(Rehydrated(c.rows), c.rows)
  }

  /** What the operations make of a given chain. */
  ghost function Replay(c: Chain, ops: seq<Op>): Chain {
    if ops == [] then c else Apply(Replay(c, ops[..|ops| - 1]), ops[|ops| - 1])
  }

  ghost function Run(ops: seq<Op>): Chain {
    Replay(Chain([], map[]), ops)
  }

  ghost function Appended(ops: seq<Op>): seq<string> {
    if ops == [] then []
    else
      Appended(ops[..|ops| - 1]) + AppendedBy(ops[|ops| - 1])
  }

  ghost function Hashes(contents: seq<string>): seq<Digest> {
    seq(|contents|, i requires 0 <= i < |contents| => ContentDigest(contents[i]))
  }

  /** The root that commits to exactly these contents. */
  ghost function HonestRoot(contents: seq<string>): Digest {
    Root(Leaves(Hashes(contents)))
  }

  ghost function HonestRow(contents: seq<string>, i: nat): Row
    requires i < |contents|
  {
    Row(Some(ContentDigest(contents[i])),
        Some(if i == 0 then Genesis else HonestRoot(contents[..i])),
        HonestRoot(contents[..i + 1]))
  }

  ghost predicate HonestTable(rows: map<int, Row>, contents: seq<string>) {
    && (forall k :: k in rows <==> 0 <= k < |contents|)
    && forall k: nat :: k < |contents| ==> rows[k] == HonestRow(contents, k)
  }

  ghost predicate Honest(c: Chain, contents: seq<string>) {
    && HonestTable(c.rows, contents)
    && |c.entries| == |contents|
    && forall i: nat :: i < |contents| ==> c.entries[i] == Entry(i, HonestRow(contents, i))
  }

  lemma RowsOfPrefix(contents: seq<string>, more: seq<string>, i: nat)
    requires contents <= more && i < |contents|
    ensures HonestRow(more, i) == HonestRow(contents, i)
  {
    assert more[..i + 1] == contents[..i + 1] && more[..i] == contents[..i];
  }

  lemma NewEntryIsHonest(entries: seq<Entry>, contents: seq<string>, json: string)
    requires |entries| == |contents|
    requires forall i: nat :: i < |contents| ==> entries[i] == Entry(i, HonestRow(contents, i))
    ensures AllPresent(entries)
    ensures NewEntry(entries, json) == Entry(|contents|, HonestRow(contents + [json], |contents|))
  {
    var more := contents + [json];
    var n := |contents|;
    assert AllPresent(entries);
    assert StoredLeaves(entries) + [Leaf(n, ContentDigest(json))] == Leaves(Hashes(more));
    assert more[..n + 1] == more && more[..n] == contents;
    assert contents[..n] == contents;
  }

  lemma AppendKeepsHonest(c: Chain, contents: seq<string>, json: string)
    requires Honest(c, contents)
    ensures Honest(AppendTo(c, json).0, contents + [json])
    ensures AppendTo(c, json).1 == Ok(Entry(|contents|, HonestRow(contents + [json], |contents|)))
  {
    var more := contents + [json];
    NewEntryIsHonest(c.entries, contents, json);
    forall i: nat | i < |contents|
      ensures HonestRow(more, i) == HonestRow(contents, i)
    {
      RowsOfPrefix(contents, more, i);
    }
  }

  lemma OrderedIndicesAreAll(rows: map<int, Row>, n: nat)
    requires forall k :: k in rows <==> 0 <= k < n
    ensures |OrderedIndices(rows)| == n
    ensures forall i :: 0 <= i < n ==> OrderedIndices(rows)[i] == i
  {
    KeyCount(rows, n);
    OrderedFacts(rows);
    IncreasingBounds(OrderedIndices(rows), 0, n);
  }

  lemma RestartKeepsHonest(rows: map<int, Row>, contents: seq<string>)
    requires HonestTable(rows, contents)
    ensures Honest(Chain(Rehydrated(rows), rows), contents)
  {
    OrderedIndicesAreAll(rows, |contents|);
    forall i: nat | i < |contents|
      ensures Rehydrated(rows)[i] == Entry(i, HonestRow(contents, i))
    {
      assert OrderedIndices(rows)[i] == i;
    }
  }

  lemma KeyCount(rows: map<int, Row>, n: nat)
    requires forall k :: k in rows <==> 0 <= k < n
    ensures |rows| == n
  {
    assert rows.Keys == UpTo(n);
  }

  ghost function AppendedBy(op: Op): seq<string> {
    if op.Append? then [op.json] else []
  }

  lemma StepKeepsHonest(c: Chain, contents: seq<string>, op: Op)
    requires Honest(c, contents)
    ensures Honest(Apply(c, op), contents + AppendedBy(op))
  {
    match op
    case Append(json) => AppendKeepsHonest(c, contents, json);
    case Restart =>
      RestartKeepsHonest(c.rows, contents);
      assert contents + [] == contents;
  }

  /** Every run of appends and restarts leaves exactly the honest entries and rows. */
  lemma {:induction false} RunIsHonest(ops: seq<Op>)
    ensures Honest(Run(ops), Appended(ops))
  {
    if ops != [] {
      var before := ops[..|ops| - 1];
      RunIsHonest(before);
      StepKeepsHonest(Run(before), Appended(before), ops[|ops| - 1]);
    }
  }

  /** On an honest chain `verify_chain` accepts exactly the windows that end within it. */
  lemma HonestAccepts(c: Chain, contents: seq<string>, start: int, stop: int)
    requires Honest(c, contents)
    ensures Accepts(c, start, stop) <==> stop <= |contents|
  {
    forall i | 0 <= i < |contents|
      ensures Passes(c, start, i)
    {
      assert ContentsOf(c.entries[..i + 1]) == Hashes(contents[..i + 1]);
    }
    if stop > |contents| {
      assert !Passes(c, start, |contents|);
    }
  }

  /** After any run, verification succeeds on every window over what was appended. */
  lemma RunsVerify(ops: seq<Op>, start: int, stop: int)
    ensures Accepts(Run(ops), start, stop) <==> stop <= |Appended(ops)|
  {
    RunIsHonest(ops);
    HonestAccepts(Run(ops), Appended(ops), start, stop);
  }

  // -------------------------------------------------------------- tampering

  /** Whatever was altered: if a nonempty window [start, stop) verifies and its last stored root is the
      honest one, then all contents before `stop`, and all roots in the window, are the honest ones. */
  lemma WindowPinsHistory(c: Chain, start: int, stop: nat, contents: seq<string>)
    requires start < stop && 0 < stop <= |contents|
    requires Accepts(c, start, stop)
    requires stop - 1 in c.rows && c.rows[stop - 1].root == HonestRoot(contents[..stop])
    ensures stop <= |c.entries|
    ensures AllPresent(c.entries[..stop]) && ContentsOf(c.entries[..stop]) == Hashes(contents[..stop])
    ensures forall i: nat :: start <= i < stop ==>
              i in c.rows && c.entries[i].row.root == c.rows[i].root == HonestRoot(contents[..i + 1])
  {
    assert Passes(c, start, stop - 1);
    RootBinding(ContentsOf(c.entries[..stop]), Hashes(contents[..stop]));
    forall i: nat | start <= i < stop
      ensures i in c.rows && c.entries[i].row.root == c.rows[i].root == HonestRoot(contents[..i + 1])
    {
      assert Passes(c, start, i);
      ContentsOfPrefix(c.entries, i + 1, stop);
      HashesOfPrefix(contents, i + 1, stop);
    }
  }

  lemma ContentsOfPrefix(entries: seq<Entry>, i: nat, n: nat)
    requires i <= n <= |entries| && AllPresent(entries[..n])
    ensures AllPresent(entries[..i]) && ContentsOf(entries[..i]) == ContentsOf(entries[..n])[..i]
  {
  }

  lemma HashesOfPrefix(contents: seq<string>, i: nat, n: nat)
    requires i <= n <= |contents|
    ensures Hashes(contents[..i]) == Hashes(contents[..n])[..i]
  {
  }

  ghost predicate IsPrefixSet(kept: set<int>) {
    forall k :: k in kept <==> 0 <= k < |kept|
  }

  /** What is left of an honest table once all rows outside `kept` are deleted. */
  ghost function Remaining(rows: map<int, Row>, kept: set<int>): (left: map<int, Row>)
    requires kept <= rows.Keys
    ensures left.Keys == kept && |left| == |kept|
  {
    var left := map k | k in rows && k in kept :: rows[k];
    assert left.Keys == kept;
    left
  }

  lemma RootTellsLength(hashes: seq<Digest>, contents: seq<string>)
    requires Root(Leaves(hashes)) == HonestRoot(contents)
    ensures |hashes| == |contents|
  {
    RootBinding(hashes, Hashes(contents));
  }

  ghost predicate AreHonestRows(left: map<int, Row>, contents: seq<string>) {
    forall k :: k in left ==> 0 <= k < |contents| && left[k] == HonestRow(contents, k)
  }

  lemma AcceptedRow(left: map<int, Row>, contents: seq<string>, i: nat)
    requires AreHonestRows(left, contents)
    requires i < |left| && Passes(Chain(Rehydrated(left), left), 0, i)
    ensures var k, entries := OrderedIndices(left)[i], Rehydrated(left)[..i + 1];
            0 <= k < |contents| && AllPresent(entries) &&
            Root(Leaves(ContentsOf(entries))) == HonestRoot(contents[..k + 1])
  {
    var k := OrderedIndices(left)[i];
    assert Rehydrated(left)[i].index == k && Rehydrated(left)[i].row == left[k];
  }

  lemma AcceptedIndex(left: map<int, Row>, contents: seq<string>, i: nat)
    requires AreHonestRows(left, contents)
    requires i < |left| && Accepts(Chain(Rehydrated(left), left), 0, |left|)
    ensures OrderedIndices(left)[i] == i
  {
    assert Passes(Chain(Rehydrated(left), left), 0, i);
    AcceptedRow(left, contents, i);
    RootTellsLength(ContentsOf(Rehydrated(left)[..i + 1]), contents[..OrderedIndices(left)[i] + 1]);
  }

  lemma CountingKeys(left: map<int, Row>)
    requires forall i: nat :: i < |left| ==> OrderedIndices(left)[i] == i
    ensures IsPrefixSet(left.Keys)
  {
    var keys := OrderedIndices(left);
    OrderedFacts(left);
    forall k
      ensures k in left <==> 0 <= k < |left|
    {
      if 0 <= k < |left| {
        assert keys[k] in keys;
      }
    }
  }

  lemma AcceptedMeansPrefix(left: map<int, Row>, contents: seq<string>)
    requires AreHonestRows(left, contents)
    requires Accepts(Chain(Rehydrated(left), left), 0, |left|)
    ensures IsPrefixSet(left.Keys)
  {
    forall i: nat | i < |left|
      ensures OrderedIndices(left)[i] == i
    {
      AcceptedIndex(left, contents, i);
    }
    CountingKeys(left);
  }

  /** Rows deleted from an honest table go unnoticed by a default `verify_chain()` after a
      restart exactly when they form its tail. */
  lemma DeletionDetectedUnlessTail(rows: map<int, Row>, contents: seq<string>, kept: set<int>)
    requires HonestTable(rows, contents) && kept <= rows.Keys
    ensures var left := Remaining(rows, kept);
            Accepts(Chain(Rehydrated(left), left), 0, |left|) <==> IsPrefixSet(kept)
  {
    var left := Remaining(rows, kept);
    if IsPrefixSet(kept) {
      if kept != {} {
        assert |kept| - 1 in rows;
      }
      PrefixIsHonest(left, contents, |kept|);
      HonestAccepts(Chain(Rehydrated(left), left), contents[..|kept|], 0, |left|);
    }
    if Accepts(Chain(Rehydrated(left), left), 0, |left|) {
      AcceptedMeansPrefix(left, contents);
    }
  }

  lemma PrefixIsHonest(left: map<int, Row>, contents: seq<string>, n: nat)
    requires n <= |contents|
    requires forall k :: k in left <==> 0 <= k < n
    requires forall k: nat :: k < n ==> left[k] == HonestRow(contents, k)
    ensures Honest(Chain(Rehydrated(left), left), contents[..n])
  {
    var some := contents[..n];
    forall k: nat | k < n
      ensures left[k] == HonestRow(some, k)
    {
      RowsOfPrefix(some, contents, k);
    }
    RestartKeepsHonest(left, some);
  }

  // ------------------------------------------------------------ legacy rows

  /** Position `g` is the first one without persisted content. */
  ghost predicate FirstGap(rows: map<int, Row>, g: nat) {
    var entries := Rehydrated(rows);
    g < |entries| && entries[g].row.contentHash.None? && AllPresent(entries[..g])
  }

  lemma GapRefusesAppends(rows: map<int, Row>, g: nat, json: string)
    requires FirstGap(rows, g)
    ensures AppendTo(Chain(Rehydrated(rows), rows), json) == (Chain(Rehydrated(rows), rows), Err(ChainIncomplete))
  {
    assert !AllPresent(Rehydrated(rows));
  }

  /** Restarts and refused appends leave such a store as it is, for ever. */
  lemma {:induction false} GapIsPermanent(rows: map<int, Row>, g: nat, ops: seq<Op>)
    requires FirstGap(rows, g)
    ensures Replay(Chain(Rehydrated(rows), rows), ops) == Chain(Rehydrated(rows), rows)
  {
    if ops != [] {
      var last := ops[|ops| - 1];
      GapIsPermanent(rows, g, ops[..|ops| - 1]);
      if last.Append? { GapRefusesAppends(rows, g, last.json); }
    }
  }

  /** A store with rows from before content was persisted, the first of them at position `g`, after any number of
      restarts and of attempts to append, which are all refused: no window that reaches past `g` verifies; a window that
      begins at or after `g`, or any when the very first rows are the old ones, is always answered with an incomplete
      entry at `g`, not with tampering; and whatever else may be wrong before `g`, no failure is reported after it. */
  lemma LegacyGap(rows: map<int, Row>, g: nat, ops: seq<Op>, json: string, start: int, stop: int, out: Outcome)
    requires FirstGap(rows, g) && g < stop
    requires IsAnswer(Replay(Chain(Rehydrated(rows), rows), ops), start, stop, out)
    ensures AppendTo(Replay(Chain(Rehydrated(rows), rows), ops), json).1 == Err(ChainIncomplete)
    ensures !out.Verified? && out.at <= g && (out.at == g ==> out == IncompleteEntry(g))
    ensures g == 0 || g <= start ==> out == IncompleteEntry(g)
  {
    var c := Chain(Rehydrated(rows), rows);
    GapIsPermanent(rows, g, ops);
    GapRefusesAppends(rows, g, json);
    assert !Passes(c, start, g);
    if g <= start && !out.Verified? && out.at < g {
      EarlierPasses(rows, g, start, out.at);
    }
  }

  lemma EarlierPasses(rows: map<int, Row>, g: nat, start: int, i: nat)
    requires FirstGap(rows, g) && i < g <= start
    ensures Passes(Chain(Rehydrated(rows), rows), start, i)
  {
    assert Rehydrated(rows)[..g][i] == Rehydrated(rows)[i];
  }

  // ------------------------------------------------- two processes on one table

  /** An append that raises leaves the process and the table unchanged if and only if it was refused for an incomplete
      chain: when its index is taken, the entry has already joined memory. */
  lemma FailedAppendUnchangedIff(c: Chain, json: string)
    requires AppendTo(c, json).1.Err?
    ensures AppendTo(c, json).0 == c <==> !AllPresent(c.entries)
    ensures AllPresent(c.entries) ==> |c.entries| in c.rows && AppendTo(c, json).0.rows == c.rows
  {
    if AllPresent(c.entries) {
      assert |AppendTo(c, json).0.entries| == |c.entries| + 1;
    }
  }

  lemma SameRootIff(a: seq<string>, b: seq<string>)
    ensures HonestRoot(a) == HonestRoot(b) <==> a == b
  {
    RootBinding(Hashes(a), Hashes(b));
    if Hashes(a) == Hashes(b) {
      forall i | 0 <= i < |a|
        ensures a[i] == b[i]
      {
        assert Hashes(a)[i] == ContentDigest(a[i]) && Hashes(b)[i] == ContentDigest(b[i]);
      }
    }
  }

  /** What a process and the table are after these appends, the failing ones included. */
  ghost function Tries(c: Chain, contents: seq<string>): Chain {
    if contents == [] then c else AppendTo(Tries(c, contents[..|contents| - 1]), contents[|contents| - 1]).0
  }

  /** Another process appends `theirs`; then this one, which has not seen it, appends `ours`. */
  ghost function Raced(c: Chain, theirs: seq<string>, ours: seq<string>): Chain {
    Tries(Chain(c.entries, Tries(c, theirs).rows), ours)
  }

  /** In memory, the honest chain of the own contents; in the table the other one's rows, and behind them the own. */
  ghost predicate IsRaced(s: Chain, contents: seq<string>, theirs: seq<string>, ours: seq<string>) {
    var a, b := contents + theirs, contents + ours;
    && |s.entries| == |b| && (forall i: nat :: i < |b| ==> s.entries[i] == Entry(i, HonestRow(b, i)))
    && (forall k :: k in s.rows <==> 0 <= k < |a| || 0 <= k < |b|)
    && (forall k: nat :: k < |a| ==> s.rows[k] == HonestRow(a, k))
    && (forall k: nat :: |a| <= k < |b| ==> s.rows[k] == HonestRow(b, k))
  }

  lemma {:induction false} TriesAreHonest(c: Chain, contents: seq<string>, more: seq<string>)
    requires Honest(c, contents)
    ensures Honest(Tries(c, more), contents + more)
  {
    if more == [] {
      assert contents + more == contents;
    } else {
      var before, x := more[..|more| - 1], more[|more| - 1];
      TriesAreHonest(c, contents, before);
      AppendKeepsHonest(Tries(c, before), contents + before, x);
      assert contents + before + [x] == contents + more;
    }
  }

  /** A racing append fails exactly while the other process is ahead. */
  lemma RaceStep(s: Chain, contents: seq<string>, theirs: seq<string>, ours: seq<string>, x: string)
    requires IsRaced(s, contents, theirs, ours)
    ensures IsRaced(AppendTo(s, x).0, contents, theirs, ours + [x])
    ensures AppendTo(s, x).1 ==
            if |ours| < |theirs| then Err(DuplicateIndex) else Ok(NewEntry(s.entries, x))
  {
    var b, more := contents + ours, contents + (ours + [x]);
    NewEntryIsHonest(s.entries, b, x);
    assert b + [x] == more;
    forall i: nat | i < |b|
      ensures HonestRow(more, i) == HonestRow(b, i)
    {
      RowsOfPrefix(b, more, i);
    }
  }

  lemma RaceStarts(c: Chain, contents: seq<string>, theirs: seq<string>)
    requires Honest(c, contents)
    ensures IsRaced(Chain(c.entries, Tries(c, theirs).rows), contents, theirs, [])
  {
    TriesAreHonest(c, contents, theirs);
    assert contents + [] == contents;
  }

  lemma {:induction false} RaceIs(c: Chain, contents: seq<string>, theirs: seq<string>, ours: seq<string>)
    requires Honest(c, contents)
    ensures IsRaced(Raced(c, theirs, ours), contents, theirs, ours)
  {
    if ours == [] {
      RaceStarts(c, contents, theirs);
    } else {
      var before, x := ours[..|ours| - 1], ours[|ours| - 1];
      RaceIs(c, contents, theirs, before);
      RaceStep(Raced(c, theirs, before), contents, theirs, before, x);
      assert before + [x] == ours;
    }
  }

  lemma PrefixRoot(entries: seq<Entry>, contents: seq<string>, i: nat)
    requires i < |contents| <= |entries|
    requires forall j: nat :: j <= i ==> entries[j].row.contentHash == Some(ContentDigest(contents[j]))
    ensures AllPresent(entries[..i + 1]) && Root(Leaves(ContentsOf(entries[..i + 1]))) == HonestRoot(contents[..i + 1])
  {
    assert ContentsOf(entries[..i + 1]) == Hashes(contents[..i + 1]);
  }

  /** In its own memory a racing process fails exactly where the other one's row commits to other contents. */
  lemma RacedPasses(s: Chain, contents: seq<string>, theirs: seq<string>, ours: seq<string>, start: int, i: nat)
    requires IsRaced(s, contents, theirs, ours) && i < |contents + ours|
    ensures var agree := i < |contents + theirs| ==> (contents + theirs)[..i + 1] == (contents + ours)[..i + 1];
            && (Passes(s, start, i) <==> (start <= i ==> agree))
            && (start <= i && !agree ==> Explains(s, start, StoredRootMismatch(i)))
  {
    PrefixRoot(s.entries, contents + ours, i);
    if i < |contents + theirs| { SameRootIff((contents + theirs)[..i + 1], (contents + ours)[..i + 1]); }
  }

  lemma PrefixesAgreeIff(contents: seq<string>, theirs: seq<string>, ours: seq<string>, i: nat)
    requires i < |contents + theirs| && i < |contents + ours|
    ensures (contents + theirs)[..i + 1] == (contents + ours)[..i + 1] <==>
            forall j :: 0 <= j <= i - |contents| ==> theirs[j] == ours[j]
  {
    var a, b := (contents + theirs)[..i + 1], (contents + ours)[..i + 1];
    if a == b {
      forall j | 0 <= j <= i - |contents|
        ensures theirs[j] == ours[j]
      {
        assert a[|contents| + j] == b[|contents| + j];
      }
    }
  }

  /** Another process has appended `theirs`, unseen, and this one `ours`. Its appends fail while the other is ahead, and
      stay in its memory; it accepts exactly what ends before the first position where the two differ, and there it
      reports a stored root that is not its own. */
  lemma StaleAppendDetected(
    c: Chain, contents: seq<string>, theirs: seq<string>, ours: seq<string>, next: string, start: int, stop: int)
    requires Honest(c, contents) && start <= |contents|
    ensures AppendTo(Raced(c, theirs, ours), next).1.Err? <==> |ours| < |theirs|
    ensures |ours| < |theirs| ==> AppendTo(Raced(c, theirs, ours), next).1 == Err(DuplicateIndex)
    ensures var s, n := Raced(c, theirs, ours), |contents|;
            && (Accepts(s, start, stop) <==>
                  && stop <= n + |ours|
                  && forall j :: 0 <= j < |theirs| && j < |ours| && n + j < stop ==> theirs[j] == ours[j])
            && forall d: nat :: d < |theirs| && d < |ours| && theirs[..d] == ours[..d] && theirs[d] != ours[d] ==>
                  !Passes(s, start, n + d) && Explains(s, start, StoredRootMismatch(n + d))
  {
    var s, n := Raced(c, theirs, ours), |contents|;
    RaceIs(c, contents, theirs, ours);
    RaceStep(s, contents, theirs, ours, next);
    forall i: nat | i < n + |ours|
      ensures Passes(s, start, i) <==>
              (start <= i && i < n + |theirs| ==> forall j :: 0 <= j <= i - n ==> theirs[j] == ours[j])
      ensures !Passes(s, start, i) ==> Explains(s, start, StoredRootMismatch(i))
    {
      RacedPasses(s, contents, theirs, ours, start, i);
      if i < n + |theirs| { PrefixesAgreeIff(contents, theirs, ours, i); }
    }
    if stop <= n + |ours| {
      forall j | 0 <= j < |theirs| && j < |ours| && n + j < stop && Accepts(s, start, stop)
        ensures theirs[j] == ours[j]
      {
        assert Passes(s, start, n + j);
      }
    } else {
      assert !Passes(s, start, n + |ours|);
    }
    forall d: nat | d < |theirs| && d < |ours| && theirs[..d] == ours[..d] && theirs[d] != ours[d]
      ensures !Passes(s, start, n + d)
    {
    }
  }

  // ---------------------------------------------------- what a race leaves behind

  /** The row has the content `all[j]`, and a root that is the honest one unless `lo <= j < hi`. */
  ghost predicate Fits(row: Row, all: seq<string>, lo: nat, hi: nat, j: nat)
    requires j < |all|
  {
    && row.contentHash == Some(ContentDigest(all[j]))
    && (row.root == HonestRoot(all[..j + 1]) <==> !(lo <= j < hi))
  }

  ghost predicate WrongWithin(rows: map<int, Row>, all: seq<string>, lo: nat, hi: nat) {
    && hi <= |all| && (forall k :: k in rows <==> 0 <= k < |all|)
    && forall j: nat :: j < |all| ==> Fits(rows[j], all, lo, hi, j)
  }

  ghost predicate Spoilt(c: Chain, all: seq<string>, lo: nat, hi: nat) {
    && WrongWithin(c.rows, all, lo, hi)
    && |c.entries| == |all| && forall i: nat :: i < |all| ==> c.entries[i] == Entry(i, c.rows[i])
  }

  lemma SpoiltEntries(c: Chain, all: seq<string>, lo: nat, hi: nat)
    requires Spoilt(c, all, lo, hi)
    ensures forall j: nat :: j < |all| ==> c.entries[j].row.contentHash == Some(ContentDigest(all[j]))
    ensures AllPresent(c.entries)
  {
    forall j: nat | j < |all|
      ensures c.entries[j].row.contentHash == Some(ContentDigest(all[j]))
    {
      assert Fits(c.rows[j], all, lo, hi, j);
    }
  }

  lemma SpoiltAppend(c: Chain, all: seq<string>, lo: nat, hi: nat, x: string)
    requires Spoilt(c, all, lo, hi)
    ensures Spoilt(AppendTo(c, x).0, all + [x], lo, hi) && AppendTo(c, x).1.Ok?
  {
    var n, more := |all|, all + [x];
    SpoiltEntries(c, all, lo, hi);
    assert StoredLeaves(c.entries) + [Leaf(n, ContentDigest(x))] == Leaves(Hashes(more));
    assert more[..n + 1] == more;
    assert Fits(NewEntry(c.entries, x).row, more, lo, hi, n);
    forall j: nat | j < n
      ensures Fits(c.rows[j], more, lo, hi, j)
    {
      assert Fits(c.rows[j], all, lo, hi, j) && more[..j + 1] == all[..j + 1];
    }
  }

  lemma SpoiltRestart(rows: map<int, Row>, all: seq<string>, lo: nat, hi: nat)
    requires WrongWithin(rows, all, lo, hi)
    ensures Spoilt(Chain(Rehydrated(rows), rows), all, lo, hi)
  {
    OrderedIndicesAreAll(rows, |all|);
    forall i: nat | i < |all|
      ensures Rehydrated(rows)[i] == Entry(i, rows[i])
    {
      RehydratedAt(rows, i);
      assert OrderedIndices(rows)[i] == i;
    }
  }

  lemma SpoiltStep(c: Chain, all: seq<string>, lo: nat, hi: nat, op: Op)
    requires Spoilt(c, all, lo, hi)
    ensures Spoilt(Apply(c, op), all + AppendedBy(op), lo, hi)
  {
    match op
    case Append(x) => SpoiltAppend(c, all, lo, hi, x);
    case Restart =>
      SpoiltRestart(c.rows, all, lo, hi);
      assert all + [] == all;
  }

  lemma {:induction false} SpoiltRun(c: Chain, all: seq<string>, lo: nat, hi: nat, ops: seq<Op>)
    requires Spoilt(c, all, lo, hi)
    ensures Spoilt(Replay(c, ops), all + Appended(ops), lo, hi)
  {
    if ops == [] {
      assert all + Appended(ops) == all;
    } else {
      var before, op := ops[..|ops| - 1], ops[|ops| - 1];
      SpoiltRun(c, all, lo, hi, before);
      SpoiltStep(Replay(c, before), all + Appended(before), lo, hi, op);
      assert all + Appended(before) + AppendedBy(op) == all + Appended(ops);
    }
  }

  lemma SpoiltPasses(c: Chain, all: seq<string>, lo: nat, hi: nat, start: int, i: nat)
    requires Spoilt(c, all, lo, hi) && i < |all|
    ensures Passes(c, start, i) <==> !(start <= i && lo <= i < hi)
    ensures !Passes(c, start, i) ==> Explains(c, start, EntryRootMismatch(i))
  {
    assert Fits(c.rows[i], all, lo, hi, i);
    SpoiltEntries(c, all, lo, hi);
    PrefixRoot(c.entries, all, i);
  }

  /** All contents of the table after a race: the other process's, and then those of ours that got in. */
  ghost function Joined(contents: seq<string>, theirs: seq<string>, ours: seq<string>): seq<string> {
    contents + theirs + if |theirs| < |ours| then ours[|theirs|..] else []
  }

  /** Where the rows end whose roots are wrong; they begin behind the other process's. */
  ghost function SpoiltEnd(contents: seq<string>, theirs: seq<string>, ours: seq<string>): nat {
    if theirs <= ours || |ours| < |theirs| then |contents + theirs| else |contents + ours|
  }

  lemma JoinedPrefixIff(contents: seq<string>, theirs: seq<string>, ours: seq<string>, j: nat)
    requires |contents| + |theirs| <= j < |contents| + |ours|
    ensures (contents + ours)[..j + 1] == Joined(contents, theirs, ours)[..j + 1] <==> theirs <= ours
    ensures Joined(contents, theirs, ours)[j] == (contents + ours)[j]
  {
    var all, n, m := Joined(contents, theirs, ours), |contents|, |theirs|;
    if theirs <= ours {
      assert ours == theirs + ours[m..];
      assert all == contents + ours;
    }
    if (contents + ours)[..j + 1] == all[..j + 1] {
      forall i | 0 <= i < m
        ensures theirs[i] == ours[i]
      {
        assert all[..j + 1][n + i] == theirs[i] && (contents + ours)[..j + 1][n + i] == ours[i];
      }
    }
  }

  lemma RacedRowFits(s: Chain, contents: seq<string>, theirs: seq<string>, ours: seq<string>, j: nat)
    requires IsRaced(s, contents, theirs, ours) && j < |Joined(contents, theirs, ours)|
    ensures j in s.rows
    ensures Fits(s.rows[j], Joined(contents, theirs, ours), |contents + theirs|, SpoiltEnd(contents, theirs, ours), j)
  {
    var all := Joined(contents, theirs, ours);
    if j < |contents + theirs| {
      assert all[..j + 1] == (contents + theirs)[..j + 1];
    } else {
      JoinedPrefixIff(contents, theirs, ours, j);
      SameRootIff((contents + ours)[..j + 1], all[..j + 1]);
    }
  }

  lemma RaceLeaves(s: Chain, contents: seq<string>, theirs: seq<string>, ours: seq<string>)
    requires IsRaced(s, contents, theirs, ours)
    ensures WrongWithin(s.rows, Joined(contents, theirs, ours), |contents + theirs|, SpoiltEnd(contents, theirs, ours))
  {
    forall j: nat | j < |Joined(contents, theirs, ours)|
      ensures j in s.rows && Fits(s.rows[j], Joined(contents, theirs, ours), |contents + theirs|,
                                  SpoiltEnd(contents, theirs, ours), j)
    {
      RacedRowFits(s, contents, theirs, ours, j);
    }
  }

  lemma SpoiltWindows(c: Chain, all: seq<string>, lo: nat, hi: nat, start: int, stop: int)
    requires Spoilt(c, all, lo, hi)
    ensures Accepts(c, start, stop) <==> stop <= |all| && (hi <= lo || stop <= lo || hi <= start || stop <= start)
    ensures var first := if start < lo then lo else start;
            first < hi && first < stop ==> IsAnswer(c, start, stop, EntryRootMismatch(first))
  {
    var first := if start < lo then lo else start;
    forall i: nat | i < |all|
      ensures Passes(c, start, i) <==> !(start <= i && lo <= i < hi)
      ensures !Passes(c, start, i) ==> Explains(c, start, EntryRootMismatch(i))
    {
      SpoiltPasses(c, all, lo, hi, start, i);
    }
    if stop > |all| { assert !Passes(c, start, |all|); }
    if first < hi && first < stop { assert !Passes(c, start, first); }
  }

  /** A process that goes on appending after such errors spoils the store for ever, although nobody tampers. The
      rows it adds commit to entries that never reached the table, unless what it lost is what the other process
      wrote. After a restart and any later appends and restarts, by which every append succeeds, a window verifies if
      and only if it ends within the chain and keeps clear of those rows; else the first of them in the window is
      reported as tampering. */
  lemma CarryingOnPoisons(
    c: Chain, contents: seq<string>, theirs: seq<string>, ours: seq<string>, ops: seq<Op>, start: int, stop: int)
    requires Honest(c, contents)
    ensures var rows, lo, hi := Raced(c, theirs, ours).rows, |contents + theirs|, |contents + ours|;
            var s, first := Replay(Chain(Rehydrated(rows), rows), ops), if start < lo then lo else start;
            && |s.entries| == |Joined(contents, theirs, ours)| + |Appended(ops)|
            && (Accepts(s, start, stop) <==>
                  stop <= |s.entries| && (theirs <= ours || hi <= lo || stop <= lo || hi <= start || stop <= start))
            && (!(theirs <= ours) && first < hi && first < stop ==>
                  IsAnswer(s, start, stop, EntryRootMismatch(first)))
  {
    var rows, all := Raced(c, theirs, ours).rows, Joined(contents, theirs, ours);
    var lo, end := |contents + theirs|, SpoiltEnd(contents, theirs, ours);
    RaceIs(c, contents, theirs, ours);
    RaceLeaves(Raced(c, theirs, ours), contents, theirs, ours);
    SpoiltRestart(rows, all, lo, end);
    SpoiltRun(Chain(Rehydrated(rows), rows), all, lo, end, ops);
    SpoiltWindows(Replay(Chain(Rehydrated(rows), rows), ops), all + Appended(ops), lo, end, start, stop);
  }
}
