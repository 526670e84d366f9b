/** The lineage graph of datasets and model inputs (data/lineage.py). */
module Lineage {
  import opened Common

  type Id = string

  datatype NodeType = SourceDataset | DerivedDataset | FeatureStore | ModelInput | ModelOutput

  datatype Node = Node(name: string, nodeType: NodeType, parents: seq<Id>)

  type Graph = map<Id, Node>

  // ------------------------------------------------------------- reachability

  predicate ParentOf(g: Graph, p: Id, c: Id) {
    p in g && c in g && p in g[c].parents
  }

  /** A directed path, each node a registered parent of the next. */
  ghost predicate IsPath(g: Graph, p: seq<Id>) {
    p != [] && p[0] in g && (|p| > 1 ==> ParentOf(g, p[0], p[1]) && IsPath(g, p[1..]))
  }

  ghost predicate Joins(g: Graph, p: seq<Id>, a: Id, d: Id) {
    IsPath(g, p) && |p| > 1 && p[0] == a && p[|p| - 1] == d
  }

  /** `a` is a strict ancestor of `d`: some path of at least one edge leads from `a` to `d`. */
  ghost predicate Reaches(g: Graph, a: Id, d: Id) {
    exists p :: Joins(g, p, a, d)
  }

  ghost predicate Acyclic(g: Graph) {
    forall x :: !Reaches(g, x, x)
  }

  ghost predicate ParentClosed(g: Graph) {
    forall x, p :: x in g && p in g[x].parents ==> p in g
  }

  lemma {:induction false} PathsConcatenate(g: Graph, p: seq<Id>, q: seq<Id>)
    requires IsPath(g, p) && IsPath(g, q) && p[|p| - 1] == q[0]
    ensures IsPath(g, p + q[1..])
  {
    if |p| == 1 {
      assert p + q[1..] == q;
    } else {
      PathsConcatenate(g, p[1..], q);
      assert (p + q[1..])[1..] == p[1..] + q[1..];
    }
  }

  lemma {:induction false} PathSplits(g: Graph, p: seq<Id>, k: nat)
    requires IsPath(g, p) && k < |p|
    ensures IsPath(g, p[k..]) && IsPath(g, p[..k + 1])
  {
    if k > 0 {
      PathSplits(g, p[1..], k - 1);
      assert p[1..][k - 1..] == p[k..];
      assert p[..k + 1][1..] == p[1..][..k];
    }
  }

  lemma EdgeReaches(g: Graph, p: Id, c: Id)
    requires ParentOf(g, p, c)
    ensures Reaches(g, p, c)
  {
    assert IsPath(g, [c]);
    assert [p, c][1..] == [c];
    assert Joins(g, [p, c], p, c);
  }

  lemma ReachesTransitive(g: Graph, a: Id, b: Id, c: Id)
    requires Reaches(g, a, b) && Reaches(g, b, c)
    ensures Reaches(g, a, c)
  {
    var p :| Joins(g, p, a, b);
    var q :| Joins(g, q, b, c);
    PathsConcatenate(g, p, q);
    assert Joins(g, p + q[1..], a, c);
  }

  lemma ReachesFirst(g: Graph, a: Id, d: Id) returns (c: Id)
    requires Reaches(g, a, d)
    ensures ParentOf(g, a, c) && (c == d || Reaches(g, c, d))
  {
    var p :| Joins(g, p, a, d);
    c := p[1];
    if |p| > 2 {
      assert Joins(g, p[1..], c, d);
    }
  }

  lemma ReachesLast(g: Graph, a: Id, d: Id) returns (b: Id)
    requires Reaches(g, a, d)
    ensures ParentOf(g, b, d) && (a == b || Reaches(g, a, b))
  {
    var p :| Joins(g, p, a, d);
    var n := |p|;
    b := p[n - 2];
    PathSplits(g, p, n - 2);
    assert p[n - 2..] == [b, d];
    if n > 2 {
      assert Joins(g, p[..n - 1], a, b);
    }
  }

  /** A set that contains the parents of `d` and the parents of its own members contains every ancestor of `d`. */
  lemma {:induction false} ClosedUnderParents(g: Graph, s: set<Id>, p: seq<Id>, a: Id, d: Id)
    requires Joins(g, p, a, d)
    requires forall x, q :: (x == d || x in s) && ParentOf(g, q, x) ==> q in s
    ensures a in s
  {
    if |p| > 2 {
      ClosedUnderParents(g, s, p[1..], p[1], d);
    }
    assert ParentOf(g, a, p[1]);
  }

  // ---------------------------------------------------------- registration

  datatype RegisterError = ParentNotFound(id: Id) | UnknownNodeType

  ghost function Below(g: Graph, a: Id): set<Id> {
    set d | d in g && Reaches(g, a, d)
  }

  /** No cycle can be reached from `a`. */
  ghost predicate Grounded(g: Graph, a: Id) {
    a in g && forall d :: d == a || Reaches(g, a, d) ==> !Reaches(g, d, d)
  }

  class LineageTracker {
    var nodes: Graph
    var order: seq<Id>

    ghost predicate Valid()
      reads this
    {
      Lists(order, nodes.Keys)
    }

    constructor ()
      ensures Valid() && nodes == map[] && order == []
    {
      nodes, order := map[], [];
    }

    method Put(id: Id, node: Node)
      requires Valid()
      modifies this
      ensures Valid() && nodes == old(nodes)[id := node]
      ensures order == if id in old(nodes) then old(order) else old(order) + [id]
    {
      if id !in nodes {
        order := order + [id];
      }
      nodes := nodes[id := node];
    }

    /** `nodeType` is absent when the given name is no node type; `derivedId` is the id taken from
        SHA-256 when no id is given. */
    method RegisterDataset(
      name: string, nodeType: Option<NodeType>, parentIds: seq<Id>, nodeId: Option<Id>, derivedId: Id)
      returns (r: Result<Id, RegisterError>)
      requires Valid()
      modifies this
      ensures Valid()
      ensures r.Ok? <==> nodeType.Some? && forall p :: p in parentIds ==> p in old(nodes)
      ensures r.Err? ==> nodes == old(nodes) && order == old(order)
      ensures r.Err? && r.error.ParentNotFound? ==>
                exists i :: 0 <= i < |parentIds| && parentIds[i] == r.error.id && r.error.id !in nodes &&
                            forall k :: 0 <= k < i ==> parentIds[k] in nodes
      ensures r.Err? && r.error.UnknownNodeType? ==> forall p :: p in parentIds ==> p in nodes
      ensures r.Ok? ==>
                && r.value == (if nodeId.Some? then nodeId.value else derivedId)
                && nodes == old(nodes)[r.value := Node(name, nodeType.value, parentIds)]
                && order == if r.value in old(nodes) then old(order) else old(order) + [r.value]
    {
      for i := 0 to |parentIds|
        invariant forall k :: 0 <= k < i ==> parentIds[k] in nodes
      {
        if parentIds[i] !in nodes {
          return Err(ParentNotFound(parentIds[i]));
        }
      }
      if nodeType.None? {
        return Err(UnknownNodeType);
      }
      var id := if nodeId.Some? then nodeId.value else derivedId;
      Put(id, Node(name, nodeType.value, parentIds));
      return Ok(id);
    }

    /** The id depends on the model name alone; `digest` is the 8-character SHA-256 prefix of that name. */
    method RegisterModelInput(modelName: string, datasetId: Id, digest: string) returns (r: Result<Id, RegisterError>)
      requires Valid()
      modifies this
      ensures Valid()
      ensures datasetId !in old(nodes) ==>
                r == Err(ParentNotFound(datasetId)) && nodes == old(nodes) && order == old(order)
      ensures datasetId in old(nodes) ==>
                var id := ModelInputId(modelName, digest);
                && r == Ok(id)
                && nodes == old(nodes)[id := ModelInputNode(modelName, datasetId)]
                && order == if id in old(nodes) then old(order) else old(order) + [id]
    {
      if datasetId !in nodes {
        return Err(ParentNotFound(datasetId));
      }
      var id := "model_input_" + modelName + "_" + digest;
      Put(id, Node("ModelInput:" + modelName, ModelInput, [datasetId]));
      return Ok(id);
    }

    /** Exactly the strict ancestors, none twice; in an acyclic graph each one after all of its own parents. */
    method GetAncestors(nodeId: Id) returns (r: Result<seq<Id>, Id>)
      ensures r.Ok? <==> nodeId in nodes
      ensures r.Err? ==> r == Err(nodeId)
      ensures r.Ok? ==> Distinct(r.value) && forall a :: a in r.value <==> Reaches(nodes, a, nodeId)
      ensures r.Ok? && Acyclic(nodes) ==>
                forall j, p :: 0 <= j < |r.value| && ParentOf(nodes, p, r.value[j]) ==> p in r.value[..j]
    {
      if nodeId !in nodes {
        return Err(nodeId);
      }
      var visited, ancestors := Dfs(nodes, nodeId, {}, []);
      forall a
        ensures a in ancestors <==> Reaches(nodes, a, nodeId)
      {
        if Reaches(nodes, a, nodeId) {
          var p :| Joins(nodes, p, a, nodeId);
          ClosedUnderParents(nodes, visited, p, a, nodeId);
        }
      }
      return Ok(ancestors);
    }

    /** The recursive closure: marks and lists what is not yet visited above `nid`. */
    static method Dfs(g: Graph, nid: Id, visited0: set<Id>, ancestors0: seq<Id>)
      returns (visited: set<Id>, ancestors: seq<Id>)
      requires nid in g && visited0 <= g.Keys && forall x :: x in ancestors0 ==> x in visited0
      ensures Explored(g, nid, |g[nid].parents|, visited0, ancestors0, visited, ancestors)
      ensures Acyclic(g) ==> ParentsFirst(g, visited0, ancestors0, ancestors)
      decreases g.Keys - visited0
    {
      visited, ancestors := visited0, ancestors0;
      var parents := g[nid].parents;
      for i := 0 to |parents|
        invariant Explored(g, nid, i, visited0, ancestors0, visited, ancestors)
        invariant Acyclic(g) ==> ParentsFirst(g, visited0, ancestors0, ancestors)
      {
        var pid := parents[i];
        if pid !in visited && pid in g {
          ghost var v1, a1 := visited, ancestors;
          visited := visited + {pid};
          visited, ancestors := Dfs(g, pid, visited, ancestors);
          ExploreParent(g, nid, i, visited0, ancestors0, v1, a1, visited, ancestors);
          if Acyclic(g) {
            OrderParent(g, nid, i, visited0, ancestors0, v1, a1, visited, ancestors);
          }
          ancestors := ancestors + [pid];
        }
      }
    }

    method GetDescendants(nodeId: Id) returns (r: Result<seq<Id>, Id>)
      requires Valid() && (nodeId in nodes ==> Grounded(nodes, nodeId))
      ensures r.Ok? <==> nodeId in nodes
      ensures r.Err? ==> r == Err(nodeId)
      ensures r.Ok? ==> r.value == Lasts(Routes(nodes, order, nodeId))
      decreases Below(nodes, nodeId)
    {
      if nodeId !in nodes {
        return Err(nodeId);
      }
      var descendants: seq<Id> := [];
      for i := 0 to |order|
        invariant Lasts(Routes(nodes, order, nodeId)) ==
                  descendants + Lasts(RoutesVia(nodes, order, nodeId, order[i..]))
      {
        var nid := order[i];
        assert order[i..][0] == nid && order[i..][1..] == order[i + 1..];
        assert nid in order;
        if nodeId in nodes[nid].parents {
          ChildIsSmaller(nodes, nodeId, nid);
          var deeper := GetDescendants(nid);
          LastsViaChild(nodes, order, nodeId, order[i..]);
          descendants := descendants + [nid] + deeper.value;
        }
      }
      return Ok(descendants);
    }
  }

  // ------------------------------------------------------------- the search

  /** The state of the search after the first `k` parents of `nid`. */
  ghost predicate Explored(
    g: Graph, nid: Id, k: nat, v0: set<Id>, a0: seq<Id>, v: set<Id>, a: seq<Id>)
    requires nid in g && k <= |g[nid].parents|
  {
    && v0 <= v <= g.Keys
    && a0 <= a && Distinct(a[|a0|..])
    && (forall x :: x in a[|a0|..] <==> x in v && x !in v0)
    && (forall q :: q in g[nid].parents[..k] && q in g ==> q in v)
    && (forall x, q :: x in v && x !in v0 && ParentOf(g, q, x) ==> q in v)
    && (forall x :: x in v && x !in v0 ==> Reaches(g, x, nid))
  }

  /** A parent of a newly listed node is listed before it or still being worked on. */
  ghost predicate ParentsFirst(g: Graph, v0: set<Id>, a0: seq<Id>, a: seq<Id>) {
    forall j, q :: |a0| <= j < |a| && ParentOf(g, q, a[j]) ==> q in a[..j] || (q in v0 && q !in a0)
  }

  lemma ExploreParent(
    g: Graph, nid: Id, k: nat, v0: set<Id>, a0: seq<Id>, v1: set<Id>, a1: seq<Id>, v2: set<Id>, a2: seq<Id>)
    requires nid in g && k < |g[nid].parents|
    requires Explored(g, nid, k, v0, a0, v1, a1)
    requires var pid := g[nid].parents[k];
             pid in g && pid !in v1 && Explored(g, pid, |g[pid].parents|, v1 + {pid}, a1, v2, a2)
    ensures Explored(g, nid, k + 1, v0, a0, v2, a2 + [g[nid].parents[k]])
  {
    var pid := g[nid].parents[k];
    EdgeReaches(g, pid, nid);
    forall x | x in v2 && x !in v0
      ensures Reaches(g, x, nid)
    {
      if x !in v1 && x != pid {
        ReachesTransitive(g, x, pid, nid);
      }
    }
    var old1, mid, new2 := a1[|a0|..], a2[|a1|..], (a2 + [pid])[|a0|..];
    DistinctConcat(old1, mid);
    DistinctConcat(old1 + mid, [pid]);
    assert new2 == old1 + mid + [pid];
    forall x
      ensures x in new2 <==> x in v2 && x !in v0
    {
      assert x in new2 <==> x in old1 || x in mid || x == pid;
    }
    assert g[pid].parents[..|g[pid].parents|] == g[pid].parents;
    assert g[nid].parents[..k + 1] == g[nid].parents[..k] + [pid];
  }

  lemma OrderParent(
    g: Graph, nid: Id, k: nat, v0: set<Id>, a0: seq<Id>, v1: set<Id>, a1: seq<Id>, v2: set<Id>, a2: seq<Id>)
    requires nid in g && k < |g[nid].parents| && Acyclic(g)
    requires Explored(g, nid, k, v0, a0, v1, a1) && ParentsFirst(g, v0, a0, a1)
    requires forall x :: x in a0 ==> x in v0
    requires var pid := g[nid].parents[k];
             && pid in g && pid !in v1
             && Explored(g, pid, |g[pid].parents|, v1 + {pid}, a1, v2, a2)
             && ParentsFirst(g, v1 + {pid}, a1, a2)
    ensures ParentsFirst(g, v0, a0, a2 + [g[nid].parents[k]])
  {
    var pid := g[nid].parents[k];
    var a := a2 + [pid];
    forall j, q | |a0| <= j < |a| && ParentOf(g, q, a[j])
      ensures q in a[..j] || (q in v0 && q !in a0)
    {
      if j < |a1| {
        assert a[..j] == a1[..j];
      } else {
        assert a[..j] == a2[..j];
        assert q != pid by {
          EdgeReaches(g, q, a[j]);
          if j < |a2| {
            assert a2[|a1|..][j - |a1|] == a[j];
            if q == pid {
              ReachesTransitive(g, pid, a[j], pid);
            }
          }
        }
        ListedOrOpen(g, v0, a0, v1, a1, v2, a2, j, q, pid);
      }
    }
  }

  lemma ListedOrOpen(
    g: Graph, v0: set<Id>, a0: seq<Id>, v1: set<Id>, a1: seq<Id>, v2: set<Id>, a2: seq<Id>, j: nat, q: Id, pid: Id)
    requires a0 <= a1 <= a2 && |a1| <= j <= |a2| && q != pid
    requires forall x :: x in a1[|a0|..] <==> x in v1 && x !in v0
    requires forall x :: x in a0 ==> x in v0
    requires if j < |a2| then q in a2[..j] || (q in v1 + {pid} && q !in a1)
             else q in v2 && (q in v1 + {pid} || q in a2[|a1|..])
    ensures q in a2[..j] || (q in v0 && q !in a0)
  {
    if q in v1 {
      if q !in v0 {
        assert q in a1[|a0|..];
        var i :| 0 <= i < |a1| && a1[i] == q;
        assert a2[..j][i] == q;
      } else if q in a0 {
        var i :| 0 <= i < |a0| && a0[i] == q;
        assert a2[..j][i] == q;
      }
    }
  }

  // ----------------------------------------------------- paths of descendants

  ghost function Lasts(routes: seq<seq<Id>>): (r: seq<Id>)
    requires forall i :: 0 <= i < |routes| ==> routes[i] != []
    ensures |r| == |routes|
  {
    seq(|routes|, i requires 0 <= i < |routes| => routes[i][|routes[i]| - 1])
  }

  ghost function Prepend(a: Id, routes: seq<seq<Id>>): (r: seq<seq<Id>>)
    ensures |r| == |routes| && forall i :: 0 <= i < |r| ==> r[i] == [a] + routes[i]
  {
    seq(|routes|, i requires 0 <= i < |routes| => [a] + routes[i])
  }

  lemma ChildIsSmaller(g: Graph, a: Id, c: Id)
    requires Grounded(g, a) && ParentOf(g, a, c)
    ensures Grounded(g, c) && Below(g, c) < Below(g, a)
  {
    EdgeReaches(g, a, c);
    forall d | Reaches(g, c, d)
      ensures Reaches(g, a, d)
    {
      ReachesTransitive(g, a, c, d);
    }
    assert c in Below(g, a) && c !in Below(g, c);
  }

  /** The directed paths that leave `a`, in the order in which the recursion meets their ends. */
  ghost function Routes(g: Graph, order: seq<Id>, a: Id): (r: seq<seq<Id>>)
    requires Grounded(g, a)
    ensures forall i :: 0 <= i < |r| ==> r[i] != []
    decreases Below(g, a), |order| + 1
  {
    RoutesVia(g, order, a, order)
  }

  ghost function RoutesVia(g: Graph, order: seq<Id>, a: Id, rest: seq<Id>): (r: seq<seq<Id>>)
    requires Grounded(g, a) && |rest| <= |order|
    ensures forall i :: 0 <= i < |r| ==> r[i] != []
    decreases Below(g, a), |rest|
  {
    if rest == [] then []
    else if ParentOf(g, a, rest[0]) then
      ChildIsSmaller(g, a, rest[0]);
      [[a, rest[0]]] + Prepend(a, Routes(g, order, rest[0])) + RoutesVia(g, order, a, rest[1..])
    else RoutesVia(g, order, a, rest[1..])
  }

  lemma LastsConcat(r: seq<seq<Id>>, s: seq<seq<Id>>)
    requires forall i :: 0 <= i < |r| ==> r[i] != []
    requires forall i :: 0 <= i < |s| ==> s[i] != []
    ensures forall i :: 0 <= i < |r + s| ==> (r + s)[i] != []
    ensures Lasts(r + s) == Lasts(r) + Lasts(s)
  {
  }

  lemma LastsPrepend(a: Id, routes: seq<seq<Id>>)
    requires forall i :: 0 <= i < |routes| ==> routes[i] != []
    ensures Lasts(Prepend(a, routes)) == Lasts(routes)
  {
  }

  lemma LastsViaChild(g: Graph, order: seq<Id>, a: Id, rest: seq<Id>)
    requires Grounded(g, a) && |rest| <= |order| && rest != [] && ParentOf(g, a, rest[0])
    ensures Grounded(g, rest[0])
    ensures Lasts(RoutesVia(g, order, a, rest)) ==
            [rest[0]] + Lasts(Routes(g, order, rest[0])) + Lasts(RoutesVia(g, order, a, rest[1..]))
  {
    var c := rest[0];
    ChildIsSmaller(g, a, c);
    var deeper, others := Prepend(a, Routes(g, order, c)), RoutesVia(g, order, a, rest[1..]);
    LastsPrepend(a, Routes(g, order, c));
    LastsConcat([[a, c]], deeper);
    LastsConcat([[a, c]] + deeper, others);
    assert Lasts([[a, c]]) == [c];
  }

  /** The enumeration contains every path of at least one edge from `a`, and nothing else. */
  lemma {:induction false} RoutesAreThePaths(g: Graph, order: seq<Id>, a: Id, p: seq<Id>)
    requires Grounded(g, a) && Lists(order, g.Keys)
    ensures p in Routes(g, order, a) <==> IsPath(g, p) && |p| > 1 && p[0] == a
    decreases Below(g, a), |order| + 1
  {
    ViaAreThePaths(g, order, a, order, p);
    if IsPath(g, p) && |p| > 1 {
      assert p[1] in order;
    }
  }

  lemma {:induction false} ViaAreThePaths(g: Graph, order: seq<Id>, a: Id, rest: seq<Id>, p: seq<Id>)
    requires Grounded(g, a) && Lists(order, g.Keys) && |rest| <= |order|
    ensures p in RoutesVia(g, order, a, rest) <==> IsPath(g, p) && |p| > 1 && p[0] == a && p[1] in rest
    decreases Below(g, a), |rest|
  {
    if rest != [] {
      ViaAreThePaths(g, order, a, rest[1..], p);
      if ParentOf(g, a, rest[0]) {
        ChildIsSmaller(g, a, rest[0]);
        ChildPaths(g, order, a, rest[0], p);
      }
    }
  }

  lemma ChildPaths(g: Graph, order: seq<Id>, a: Id, c: Id, p: seq<Id>)
    requires Grounded(g, a) && Grounded(g, c) && Lists(order, g.Keys) && ParentOf(g, a, c)
    requires Below(g, c) < Below(g, a)
    ensures p in [[a, c]] + Prepend(a, Routes(g, order, c)) <==>
            IsPath(g, p) && |p| > 1 && p[0] == a && p[1] == c
    decreases Below(g, a), 0
  {
    var deeper := Routes(g, order, c);
    assert [a, c][1..] == [c] && IsPath(g, [c]);
    if p != [] {
      RoutesAreThePaths(g, order, c, p[1..]);
      if p in Prepend(a, deeper) {
        var i :| 0 <= i < |deeper| && p == [a] + deeper[i];
        assert p[1..] == deeper[i];
      }
      if p[0] == a && p[1..] in deeper {
        var i :| 0 <= i < |deeper| && deeper[i] == p[1..];
        assert Prepend(a, deeper)[i] == p;
      }
      if |p| == 2 && p[0] == a && p[1] == c {
        assert p == [a, c];
      }
    }
  }

  lemma {:induction false} RoutesDistinct(g: Graph, order: seq<Id>, a: Id)
    requires Grounded(g, a) && Lists(order, g.Keys)
    ensures Distinct(Routes(g, order, a))
    decreases Below(g, a), |order| + 1
  {
    ViaDistinct(g, order, a, order);
  }

  lemma {:induction false} ViaDistinct(g: Graph, order: seq<Id>, a: Id, rest: seq<Id>)
    requires Grounded(g, a) && Lists(order, g.Keys) && |rest| <= |order| && Distinct(rest)
    ensures Distinct(RoutesVia(g, order, a, rest))
    decreases Below(g, a), |rest|
  {
    if rest != [] {
      ViaDistinct(g, order, a, rest[1..]);
      if ParentOf(g, a, rest[0]) {
        ChildIsSmaller(g, a, rest[0]);
        RoutesDistinct(g, order, rest[0]);
        var first := [[a, rest[0]]] + Prepend(a, Routes(g, order, rest[0]));
        FirstDistinct(g, order, a, rest[0]);
        forall p | p in first
          ensures p !in RoutesVia(g, order, a, rest[1..])
        {
          ChildPaths(g, order, a, rest[0], p);
          ViaAreThePaths(g, order, a, rest[1..], p);
        }
        DistinctConcat(first, RoutesVia(g, order, a, rest[1..]));
      }
    }
  }

  lemma FirstDistinct(g: Graph, order: seq<Id>, a: Id, c: Id)
    requires Grounded(g, c) && Lists(order, g.Keys) && Distinct(Routes(g, order, c))
    ensures Distinct([[a, c]] + Prepend(a, Routes(g, order, c)))
  {
    var deeper := Routes(g, order, c);
    var r := Prepend(a, deeper);
    forall i, j | 0 <= i < j < |r|
      ensures r[i] != r[j]
    {
      assert r[i][1..] == deeper[i] && r[j][1..] == deeper[j];
    }
    forall i | 0 <= i < |r|
      ensures r[i] != [a, c]
    {
      assert deeper[i] in deeper;
      RoutesAreThePaths(g, order, c, deeper[i]);
    }
  }

  lemma DistinctConcat<T>(s: seq<T>, t: seq<T>)
    requires Distinct(s) && Distinct(t) && forall x :: x in s ==> x !in t
    ensures Distinct(s + t)
  {
    forall i, j | 0 <= i < j < |s + t|
      ensures (s + t)[i] != (s + t)[j]
    {
      if i < |s| <= j {
        assert s[i] in s && t[j - |s|] in t;
      }
    }
  }

  /** The descendants listed are exactly the nodes reached. */
  lemma LastsReachAll(g: Graph, order: seq<Id>, a: Id)
    requires Grounded(g, a) && Lists(order, g.Keys)
    ensures forall d :: d in Lasts(Routes(g, order, a)) <==> Reaches(g, a, d)
  {
    forall d
      ensures d in Lasts(Routes(g, order, a)) <==> Reaches(g, a, d)
    {
      LastsReach(g, order, a, d);
    }
  }

  lemma LastsReach(g: Graph, order: seq<Id>, a: Id, d: Id)
    requires Grounded(g, a) && Lists(order, g.Keys)
    ensures d in Lasts(Routes(g, order, a)) <==> Reaches(g, a, d)
  {
    var routes := Routes(g, order, a);
    if d in Lasts(routes) {
      var i :| 0 <= i < |routes| && Lasts(routes)[i] == d;
      assert routes[i] in routes;
      RoutesAreThePaths(g, order, a, routes[i]);
      assert Joins(g, routes[i], a, d);
    }
    if Reaches(g, a, d) {
      var p :| Joins(g, p, a, d);
      RoutesAreThePaths(g, order, a, p);
      var i :| 0 <= i < |routes| && routes[i] == p;
      assert Lasts(routes)[i] == d;
    }
  }

  ghost function Ending(routes: seq<seq<Id>>, d: Id): set<seq<Id>> {
    set p | p in routes && p != [] && p[|p| - 1] == d
  }

  lemma EndingOfMore(p: seq<Id>, rest: seq<seq<Id>>, routes: seq<seq<Id>>, d: Id)
    requires p != [] && p !in rest && routes == [p] + rest
    ensures |Ending(routes, d)| == |Ending(rest, d)| + if p[|p| - 1] == d then 1 else 0
  {
    if p[|p| - 1] == d {
      assert Ending(routes, d) == Ending(rest, d) + {p};
    } else {
      assert Ending(routes, d) == Ending(rest, d);
    }
  }

  lemma CountOfMore(x: Id, rest: seq<Id>, d: Id)
    ensures multiset([x] + rest)[d] == multiset(rest)[d] + if x == d then 1 else 0
  {
  }

  lemma {:induction false} CountEndings(routes: seq<seq<Id>>, d: Id)
    requires Distinct(routes) && forall i :: 0 <= i < |routes| ==> routes[i] != []
    ensures multiset(Lasts(routes))[d] == |Ending(routes, d)|
  {
    if routes == [] {
      assert Ending(routes, d) == {};
    } else {
      var p, rest := routes[0], routes[1..];
      CountEndings(rest, d);
      CountOfMore(p[|p| - 1], Lasts(rest), d);
      assert Lasts(routes) == [p[|p| - 1]] + Lasts(rest);
      EndingOfMore(p, rest, routes, d);
    }
  }

  /** `d` occurs in `get_descendants(a)` exactly once per directed path from `a` to `d`. */
  lemma OncePerPath(g: Graph, order: seq<Id>, a: Id, d: Id) returns (paths: set<seq<Id>>)
    requires Grounded(g, a) && Lists(order, g.Keys)
    ensures forall p :: p in paths <==> Joins(g, p, a, d)
    ensures multiset(Lasts(Routes(g, order, a)))[d] == |paths|
  {
    var routes := Routes(g, order, a);
    RoutesDistinct(g, order, a);
    CountEndings(routes, d);
    paths := Ending(routes, d);
    forall p
      ensures p in paths <==> Joins(g, p, a, d)
    {
      RoutesAreThePaths(g, order, a, p);
    }
  }

  // ------------------------------------------------------- when it terminates

  lemma RepeatedNodeIsACycle(g: Graph, p: seq<Id>, i: nat, j: nat)
    requires IsPath(g, p) && i < j < |p| && p[i] == p[j]
    ensures Reaches(g, p[i], p[i])
  {
    PathSplits(g, p, i);
    PathSplits(g, p[i..], j - i);
    assert Joins(g, p[i..][..j - i + 1], p[i], p[i]);
  }

  lemma {:induction false} PathInGraph(g: Graph, p: seq<Id>)
    requires IsPath(g, p)
    ensures forall x :: x in p ==> x in g
  {
    if |p| > 1 {
      PathInGraph(g, p[1..]);
    }
  }

  lemma {:induction false} DistinctFits(p: seq<Id>, s: set<Id>)
    requires Distinct(p) && forall x :: x in p ==> x in s
    ensures |p| <= |s|
  {
    if p != [] {
      forall x | x in p[1..]
        ensures x in s - {p[0]}
      {
      }
      DistinctFits(p[1..], s - {p[0]});
    }
  }

  /** A cycle below `a` gives paths, that is, nested calls, of every length. */
  lemma {:induction false} CycleGivesLongPaths(g: Graph, c: Id, n: nat) returns (p: seq<Id>)
    requires Reaches(g, c, c)
    ensures IsPath(g, p) && p[0] == c == p[|p| - 1] && |p| > n
  {
    var loop :| Joins(g, loop, c, c);
    if n == 0 {
      p := loop;
    } else {
      var q := CycleGivesLongPaths(g, c, n - 1);
      PathsConcatenate(g, q, loop);
      p := q + loop[1..];
    }
  }

  /** The recursion of `get_descendants(a)`, whose nested calls follow the paths from `a`, is bounded in
      depth exactly when no cycle can be reached from `a`. */
  lemma DepthBoundedIffGrounded(g: Graph, a: Id)
    requires a in g
    ensures Grounded(g, a) <==> exists n :: DepthBounded(g, a, n)
  {
    if Grounded(g, a) {
      forall p | IsPath(g, p) && p[0] == a
        ensures |p| <= |g|
      {
        GroundedPathFits(g, a, p);
      }
      assert DepthBounded(g, a, |g|);
    }
    if exists n :: DepthBounded(g, a, n) {
      var n :| DepthBounded(g, a, n);
      forall c | c == a || Reaches(g, a, c)
        ensures !Reaches(g, c, c)
      {
        if Reaches(g, c, c) {
          var p := CycleGivesLongPaths(g, c, n);
          if c != a {
            var q :| Joins(g, q, a, c);
            var longer := q + p[1..];
            PathsConcatenate(g, q, p);
          }
        }
      }
    }
  }

  ghost predicate DepthBounded(g: Graph, a: Id, n: nat) {
    forall p :: IsPath(g, p) && p[0] == a ==> |p| <= n
  }

  lemma RepeatMeansUngrounded(g: Graph, a: Id, p: seq<Id>, i: nat, j: nat)
    requires IsPath(g, p) && p[0] == a && i < j < |p| && p[i] == p[j]
    ensures !Grounded(g, a)
  {
    RepeatedNodeIsACycle(g, p, i, j);
    PathSplits(g, p, i);
    assert i > 0 ==> Joins(g, p[..i + 1], a, p[i]);
  }

  lemma GroundedPathFits(g: Graph, a: Id, p: seq<Id>)
    requires Grounded(g, a) && IsPath(g, p) && p[0] == a
    ensures |p| <= |g|
  {
    forall i, j | 0 <= i < j < |p|
      ensures p[i] != p[j]
    {
      if p[i] == p[j] {
        RepeatMeansUngrounded(g, a, p, i, j);
      }
    }
    PathInGraph(g, p);
    DistinctFits(p, g.Keys);
    assert |g.Keys| == |g|;
  }

  // ------------------------------------------------------------ whole builds

  lemma {:induction false} PathAvoidingId(g: Graph, h: Graph, id: Id, p: seq<Id>)
    requires IsPath(g, p) && (forall x :: x in g ==> x in h)
    requires forall x :: x in g && x != id ==> h[x] == g[x]
    requires forall i :: 1 <= i < |p| ==> p[i] != id
    ensures IsPath(h, p)
  {
    if |p| > 1 {
      PathAvoidingId(g, h, id, p[1..]);
    }
  }

  /** Writing a node keeps the graph acyclic exactly when the written id is neither one of its own new
      parents nor, in the graph so far, an ancestor of one. */
  lemma RegisterAcyclicIff(g: Graph, id: Id, node: Node)
    requires Acyclic(g) && ParentClosed(g) && forall p :: p in node.parents ==> p in g
    ensures ParentClosed(g[id := node])
    ensures Acyclic(g[id := node]) <==> forall p :: p in node.parents ==> p != id && !Reaches(g, id, p)
  {
    var h := g[id := node];
    if p :| p in node.parents && AtOrBelow(g, id, p) {
      EdgeReaches(h, p, id);
      if p != id {
        ReachesSurvives(g, h, id, p);
        ReachesTransitive(h, id, p, id);
      }
      assert Reaches(h, id, id);
    }
    else if x :| Reaches(h, x, x) {
      var y := CycleWasThere(g, id, node, x);
    }
  }

  lemma ReachesSurvives(g: Graph, h: Graph, id: Id, p: Id)
    requires Acyclic(g) && Reaches(g, id, p)
    requires (forall x :: x in g ==> x in h) && forall x :: x in g && x != id ==> h[x] == g[x]
    ensures Reaches(h, id, p)
  {
    var q :| Joins(g, q, id, p);
    forall i | 1 <= i < |q|
      ensures q[i] != id
    {
      if q[i] == id {
        RepeatedNodeIsACycle(g, q, 0, i);
      }
    }
    PathAvoidingId(g, h, id, q);
    assert Joins(h, q, id, p);
  }

  ghost predicate AtOrBelow(g: Graph, id: Id, x: Id) {
    x == id || Reaches(g, id, x)
  }

  /** If no new parent lies at or below `id`, nothing at or below `id` leads to a new edge. */
  lemma {:induction false} StaysBelow(g: Graph, id: Id, node: Node, q: seq<Id>)
    requires ParentClosed(g) && forall p :: p in node.parents ==> !AtOrBelow(g, id, p)
    requires IsPath(g[id := node], q) && |q| > 1 && AtOrBelow(g, id, q[0])
    ensures IsPath(g, q)
  {
    assert ParentOf(g, q[0], q[1]);
    EdgeReaches(g, q[0], q[1]);
    if q[0] != id {
      ReachesTransitive(g, id, q[0], q[1]);
    }
    if |q| > 2 {
      StaysBelow(g, id, node, q[1..]);
    }
  }

  lemma CycleThrough(h: Graph, q: seq<Id>, x: Id, i: nat)
    requires Joins(h, q, x, x) && i < |q|
    ensures Reaches(h, q[i], q[i])
  {
    PathSplits(h, q, i);
    if 0 < i < |q| - 1 {
      assert Joins(h, q[i..], q[i], x);
      assert Joins(h, q[..i + 1], x, q[i]);
      ReachesTransitive(h, q[i], x, q[i]);
    }
  }

  lemma CycleWasThere(g: Graph, id: Id, node: Node, x: Id) returns (y: Id)
    requires ParentClosed(g) && forall p :: p in node.parents ==> !AtOrBelow(g, id, p)
    requires Reaches(g[id := node], x, x)
    ensures Reaches(g, y, y)
  {
    var h := g[id := node];
    var q :| Joins(h, q, x, x);
    if i :| 0 <= i < |q| && q[i] == id {
      CycleThrough(h, q, x, i);
      var r :| Joins(h, r, id, id);
      StaysBelow(g, id, node, r);
      y := id;
      assert Joins(g, r, id, id);
    } else {
      UntouchedPath(g, id, node, q);
      y := x;
      assert Joins(g, q, x, x);
    }
  }

  lemma {:induction false} UntouchedPath(g: Graph, id: Id, node: Node, q: seq<Id>)
    requires IsPath(g[id := node], q) && id !in q
    ensures IsPath(g, q)
  {
    if |q| > 1 {
      UntouchedPath(g, id, node, q[1..]);
    }
  }

  // ------------------------------------------------------------- whole builds

  datatype Registration = Registration(id: Id, node: Node)

  ghost function Build(regs: seq<Registration>): Graph {
    if regs == [] then map[]
    else
      var last := regs[|regs| - 1];
      Build(regs[..|regs| - 1])[last.id := last.node]
  }

  /** Every registration passed the parent check and used an id not in the graph yet. */
  ghost predicate FreshBuild(regs: seq<Registration>) {
    regs == [] ||
    (var before, last := regs[..|regs| - 1], regs[|regs| - 1];
     FreshBuild(before) && last.id !in Build(before) && forall p :: p in last.node.parents ==> p in Build(before))
  }

  /** With fresh ids the graph is always acyclic and closed under parents, so both searches apply to all of it. */
  lemma {:induction false} FreshBuildsAreDags(regs: seq<Registration>)
    requires FreshBuild(regs)
    ensures Acyclic(Build(regs)) && ParentClosed(Build(regs))
    ensures forall a :: a in Build(regs) ==> Grounded(Build(regs), a)
  {
    if regs != [] {
      var before, last := regs[..|regs| - 1], regs[|regs| - 1];
      var g := Build(before);
      FreshBuildsAreDags(before);
      forall p | p in last.node.parents
        ensures p != last.id && !Reaches(g, last.id, p)
      {
        if Reaches(g, last.id, p) {
          var c := ReachesFirst(g, last.id, p);
        }
      }
      RegisterAcyclicIff(g, last.id, last.node);
    }
  }

  /** Registering the input of a model a second time, on a dataset derived from the first input, closes a cycle. */
  lemma SecondModelInputCloses(g: Graph, id: Id, node: Node, dataset: Id)
    requires Acyclic(g) && ParentClosed(g) && Reaches(g, id, dataset) && node.parents == [dataset]
    ensures !Acyclic(g[id := node])
  {
    var b := ReachesLast(g, id, dataset);
    RegisterAcyclicIff(g, id, node);
  }

  function ModelInputId(modelName: string, digest: string): Id {
    "model_input_" + modelName + "_" + digest
  }

  function ModelInputNode(modelName: string, dataset: Id): Node {
    Node("ModelInput:" + modelName, ModelInput, [dataset])
  }

  /** A dataset, the input of a model on it, and a dataset derived from that input. */
  function InputChain(modelName: string, digest: string, raw: Node, derived: Node): seq<Registration> {
    var id := ModelInputId(modelName, digest);
    [Registration("ds", raw), Registration(id, ModelInputNode(modelName, "ds")),
     Registration("d2", derived.(parents := [id]))]
  }

  lemma InputChainBuilds(modelName: string, digest: string, raw: Node, derived: Node)
    requires raw.parents == []
    ensures var regs, id := InputChain(modelName, digest, raw, derived), ModelInputId(modelName, digest);
            FreshBuild(regs) && "d2" in Build(regs) && id in Build(regs) && Build(regs)["d2"].parents == [id]
  {
    var regs, id := InputChain(modelName, digest, raw, derived), ModelInputId(modelName, digest);
    assert id[0] == 'm' && "ds"[0] == 'd' && "d2"[0] == 'd' && "ds"[1] == 's' && "d2"[1] == '2';
    assert id != "ds" && id != "d2" && "ds" != "d2";
    assert regs[..2][..1] == regs[..1] && regs[..1][..0] == [];
    assert Build(regs[..1]) == map["ds" := raw];
    assert FreshBuild(regs[..1]);
    assert Build(regs[..2]) == Build(regs[..1])[id := regs[1].node];
    assert FreshBuild(regs[..2]);
    assert Build(regs) == Build(regs[..2])["d2" := regs[2].node];
  }

  /** For every model name there is a run of registrations, each with an id of its own, after which registering the
      model's input again on the derived dataset passes the parent check, takes the id of the first input, and closes a
      cycle: from then on the descendant search from it has no bound. */
  lemma SecondModelInputRun(modelName: string, digest: string, raw: Node, derived: Node)
    requires raw.parents == []
    ensures var regs, id := InputChain(modelName, digest, raw, derived), ModelInputId(modelName, digest);
            var after := Build(regs)[id := ModelInputNode(modelName, "d2")];
            && FreshBuild(regs) && Acyclic(Build(regs)) && "d2" in Build(regs)
            && !Acyclic(after) && !Grounded(after, id)
  {
    var regs, id := InputChain(modelName, digest, raw, derived), ModelInputId(modelName, digest);
    var g, after := Build(regs), Build(regs)[id := ModelInputNode(modelName, "d2")];
    InputChainBuilds(modelName, digest, raw, derived);
    FreshBuildsAreDags(regs);
    EdgeReaches(g, id, "d2");
    SecondModelInputCloses(g, id, ModelInputNode(modelName, "d2"), "d2");
    assert id != "d2" by { assert id[0] != "d2"[0]; }
    EdgeReaches(after, id, "d2");
    EdgeReaches(after, "d2", id);
    ReachesTransitive(after, id, "d2", id);
  }
}
