/** What tree the Merkle root is (detection/audit_trail.py, lines 277-294). */
module MerkleTree {
  import opened AuditTrail

  /** What a digest commits to below its nodes, from left to right. */
  ghost function Fringe(d: Digest): (f: seq<Digest>)
    ensures f != []
  {
    if d.Node? then Fringe(d.left) + Fringe(d.right) else [d]
  }

  /** All paths down the digest have the same length. */
  ghost predicate Perfect(d: Digest, height: nat) {
    if height == 0 then !d.Node? else d.Node? && Perfect(d.left, height - 1) && Perfect(d.right, height - 1)
  }

  ghost predicate AllPerfect(nodes: seq<Digest>, height: nat) {
    forall i :: 0 <= i < |nodes| ==> Perfect(nodes[i], height)
  }

  /** The fringes of the nodes, one after the other. */
  ghost function Fringes(nodes: seq<Digest>): seq<Digest> {
    if nodes == [] then [] else Fringes(nodes[..|nodes| - 1]) + Fringe(nodes[|nodes| - 1])
  }

  lemma {:induction false} FringesSnoc(nodes: seq<Digest>, d: Digest)
    ensures Fringes(nodes + [d]) == Fringes(nodes) + Fringe(d)
  {
    assert (nodes + [d])[..|nodes|] == nodes;
  }

  /** One more parent, of two children. */
  lemma {:induction false} PairFringes(nodes: seq<Digest>, n: nat)
    requires n + 2 <= |nodes|
    ensures Fringes(nodes[..n + 2]) == Fringes(nodes[..n]) + Fringe(Node(nodes[n], nodes[n + 1]))
  {
    FringesSnoc(nodes[..n], nodes[n]);
    FringesSnoc(nodes[..n + 1], nodes[n + 1]);
    assert nodes[..n] + [nodes[n]] == nodes[..n + 1] && nodes[..n + 1] + [nodes[n + 1]] == nodes[..n + 2];
  }

  lemma {:induction false} FringesOfPairs(nodes: seq<Digest>, m: nat)
    requires |nodes| > 1 && 2 * m <= |nodes|
    ensures m <= |Level(nodes)| && Fringes(Level(nodes)[..m]) == Fringes(nodes[..2 * m])
  {
    var up := Level(nodes);
    if m > 0 {
      FringesOfPairs(nodes, m - 1);
      PairFringes(nodes, 2 * (m - 1));
      FringesSnoc(up[..m - 1], up[m - 1]);
      assert up[..m - 1] + [up[m - 1]] == up[..m];
    }
  }

  lemma {:induction false} LevelOfOdd(nodes: seq<Digest>, m: nat)
    requires |nodes| == 2 * m + 1 && m > 0
    ensures |Level(nodes)| == m + 1
    ensures Level(nodes) == Level(nodes)[..m] + [Node(nodes[2 * m], nodes[2 * m])]
  {
    assert |Level(nodes)| == m + 1;
  }

  lemma {:induction false} FringesOfDoubled(low: seq<Digest>, base: seq<Digest>, d: Digest)
    requires Fringes(low) == Fringes(base)
    ensures Fringes(low + [Node(d, d)]) == Fringes(base + [d]) + Fringe(d)
  {
    FringesSnoc(low, Node(d, d));
    FringesSnoc(base, d);
    assert Fringes(base) + (Fringe(d) + Fringe(d)) == Fringes(base) + Fringe(d) + Fringe(d);
  }

  lemma {:induction false} FringesOfOdd(nodes: seq<Digest>, m: nat)
    requires |nodes| == 2 * m + 1 && m > 0
    ensures Fringes(Level(nodes)) == Fringes(nodes) + Fringe(nodes[2 * m])
  {
    var low, base, d := Level(nodes)[..m], nodes[..2 * m], nodes[2 * m];
    LevelOfOdd(nodes, m);
    FringesOfPairs(nodes, m);
    FringesOfDoubled(low, base, d);
    assert base + [d] == nodes;
  }

  /** A level has the fringe of the level below; an odd one repeats its last node. */
  lemma {:induction false} FringesOfLevel(nodes: seq<Digest>)
    requires |nodes| > 1
    ensures |nodes| % 2 == 0 ==> Fringes(Level(nodes)) == Fringes(nodes)
    ensures |nodes| % 2 == 1 ==> Fringes(Level(nodes)) == Fringes(nodes) + Fringe(nodes[|nodes| - 1])
  {
    var m := |nodes| / 2;
    if |nodes| % 2 == 1 {
      FringesOfOdd(nodes, m);
    } else {
      FringesOfPairs(nodes, m);
      assert Level(nodes)[..m] == Level(nodes) && nodes[..2 * m] == nodes;
    }
  }

  lemma {:induction false} LevelPerfect(nodes: seq<Digest>, height: nat)
    requires |nodes| > 1 && AllPerfect(nodes, height)
    ensures AllPerfect(Level(nodes), height + 1)
  {
  }

  lemma {:induction false} FringesHold(nodes: seq<Digest>, i: nat)
    requires i < |nodes|
    ensures forall x :: x in Fringe(nodes[i]) ==> x in Fringes(nodes)
  {
    if i < |nodes| - 1 { FringesHold(nodes[..|nodes| - 1], i); }
  }

  function PowerOfTwo(h: nat): (p: nat)
    ensures p > 0
  {
    if h == 0 then 1 else 2 * PowerOfTwo(h - 1)
  }

  lemma {:induction false} FringeSize(d: Digest, height: nat)
    requires Perfect(d, height)
    ensures |Fringe(d)| == PowerOfTwo(height)
    decreases height
  {
    if height > 0 {
      FringeSize(d.left, height - 1);
      FringeSize(d.right, height - 1);
    }
  }

  lemma {:induction false} LevelKeepsFringe(nodes: seq<Digest>)
    requires |nodes| > 1
    ensures Fringes(nodes) <= Fringes(Level(nodes))
    ensures forall x :: x in Fringes(Level(nodes)) ==> x in Fringes(nodes)
  {
    FringesOfLevel(nodes);
    FringesHold(nodes, |nodes| - 1);
  }

  lemma RoomAbove(n: nat, m: nat, h: nat)
    requires n > 1 && n <= 2 * m <= n + 1 && m <= PowerOfTwo(h) < 2 * m
    ensures n <= PowerOfTwo(h + 1) < 2 * n
  {
    assert h > 0 ==> PowerOfTwo(h) == 2 * PowerOfTwo(h - 1);
  }

  lemma {:induction false} RootHeight(nodes: seq<Digest>, height: nat) returns (h: nat)
    requires nodes != [] && AllPerfect(nodes, height)
    ensures Perfect(Root(nodes), height + h) && |nodes| <= PowerOfTwo(h) < 2 * |nodes|
    decreases |nodes|
  {
    if |nodes| == 1 {
      h := 0;
    } else {
      LevelPerfect(nodes, height);
      h := RootHeight(Level(nodes), height + 1);
      RoomAbove(|nodes|, |Level(nodes)|, h);
      h := h + 1;
    }
  }

  lemma {:induction false} RootFringe(nodes: seq<Digest>)
    requires nodes != []
    ensures Fringes(nodes) <= Fringe(Root(nodes))
    ensures forall x :: x in Fringe(Root(nodes)) ==> x in Fringes(nodes)
    decreases |nodes|
  {
    if |nodes| == 1 {
      FringesSnoc([], nodes[0]);
      assert [] + [nodes[0]] == nodes;
    } else {
      RootFringe(Level(nodes));
      LevelKeepsFringe(nodes);
    }
  }

  ghost predicate AreLeaves(nodes: seq<Digest>) {
    forall i :: 0 <= i < |nodes| ==> !nodes[i].Node?
  }

  lemma {:induction false} FringesOfLeaves(nodes: seq<Digest>)
    requires AreLeaves(nodes)
    ensures Fringes(nodes) == nodes
  {
    if nodes != [] {
      FringesOfLeaves(nodes[..|nodes| - 1]);
    }
  }

  /** The root is the perfect binary tree of the least height with room for all leaves. Read from left to right it has
      each leaf in its place, and behind them repetitions only. */
  ghost predicate IsTreeOf(root: Digest, nodes: seq<Digest>, h: nat) {
    && Perfect(root, h) && |nodes| <= PowerOfTwo(h) < 2 * |nodes| && |Fringe(root)| == PowerOfTwo(h)
    && nodes <= Fringe(root) && forall i :: |nodes| <= i < PowerOfTwo(h) ==> Fringe(root)[i] in nodes
  }

  lemma {:induction false} RootIsTreeOf(nodes: seq<Digest>) returns (h: nat)
    requires nodes != [] && AreLeaves(nodes)
    ensures IsTreeOf(Root(nodes), nodes, h)
  {
    var root := Root(nodes);
    assert AllPerfect(nodes, 0);
    h := RootHeight(nodes, 0);
    RootFringe(nodes);
    FringeSize(root, h);
    FringesOfLeaves(nodes);
    forall i | |nodes| <= i < PowerOfTwo(h)
      ensures Fringe(root)[i] in nodes
    {
      assert Fringe(root)[i] in Fringe(root);
    }
  }

  /** A list of contents gets the tree of the leaves that stamp each of them with its position. */
  lemma {:induction false} RootIsTree(contents: seq<Digest>) returns (h: nat)
    requires contents != []
    ensures var root, n := Root(Leaves(contents)), |contents|;
            && Perfect(root, h) && n <= PowerOfTwo(h) < 2 * n && |Fringe(root)| == PowerOfTwo(h)
            && (forall i :: 0 <= i < n ==> Fringe(root)[i] == Leaf(i, contents[i]))
            && forall i :: n <= i < PowerOfTwo(h) ==> Fringe(root)[i] in Fringe(root)[..n]
  {
    h := RootIsTreeOf(Leaves(contents));
    assert Fringe(Root(Leaves(contents)))[..|contents|] == Leaves(contents);
  }

  /** An append commits to each entry under its stored index, and to the new content under the number of entries. */
  lemma {:induction false} AppendedRootIsTree(entries: seq<Entry>, json: string) returns (h: nat)
    requires AllPresent(entries)
    ensures var root, n := NewEntry(entries, json).row.root, |entries|;
            && Perfect(root, h) && n + 1 <= PowerOfTwo(h) < 2 * (n + 1) && n < |Fringe(root)|
            && (forall i :: 0 <= i < n ==>
                  Fringe(root)[i] == Leaf(entries[i].index, entries[i].row.contentHash.value))
            && Fringe(root)[n] == Leaf(n, ContentDigest(json))
  {
    var leaves := StoredLeaves(entries) + [Leaf(|entries|, ContentDigest(json))];
    h := RootIsTreeOf(leaves);
    forall i | 0 <= i < |leaves|
      ensures Fringe(Root(leaves))[i] == leaves[i]
    {
    }
  }
}
