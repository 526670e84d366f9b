/** In which order descendants are listed, and which ids model inputs get (data/lineage.py, lines 213-301). */
module LineageOrder {
  import opened Common
  import opened Lineage

  /** `x` was registered before `y`. */
  ghost predicate Older(order: seq<Id>, x: Id, y: Id) {
    exists i, j :: 0 <= i < j < |order| && order[i] == x && order[j] == y
  }

  /** One route is a beginning of the other, or at the first fork it takes the node that was registered first. */
  ghost predicate RoutePrecedes(order: seq<Id>, p: seq<Id>, q: seq<Id>) {
    exists i :: 0 <= i <= |p| && i < |q| && p[..i] == q[..i] && (i == |p| || Older(order, p[i], q[i]))
  }

  ghost predicate InRouteOrder(order: seq<Id>, routes: seq<seq<Id>>) {
    forall i, j :: 0 <= i < j < |routes| ==> RoutePrecedes(order, routes[i], routes[j])
  }

  lemma PrependPrecedes(order: seq<Id>, a: Id, p: seq<Id>, q: seq<Id>)
    requires RoutePrecedes(order, p, q)
    ensures RoutePrecedes(order, [a] + p, [a] + q)
  {
    var i :| 0 <= i <= |p| && i < |q| && p[..i] == q[..i] && (i == |p| || Older(order, p[i], q[i]));
    assert ([a] + p)[..i + 1] == [a] + p[..i] && ([a] + q)[..i + 1] == [a] + q[..i];
  }

  lemma ForkPrecedes(order: seq<Id>, p: seq<Id>, q: seq<Id>)
    requires |p| > 1 && |q| > 1 && p[0] == q[0] && Older(order, p[1], q[1])
    ensures RoutePrecedes(order, p, q)
  {
    assert p[..1] == q[..1];
  }

  lemma ConcatInOrder(order: seq<Id>, r: seq<seq<Id>>, s: seq<seq<Id>>)
    requires InRouteOrder(order, r) && InRouteOrder(order, s)
    requires forall p, q :: p in r && q in s ==> RoutePrecedes(order, p, q)
    ensures InRouteOrder(order, r + s)
  {
    forall i, j | 0 <= i < j < |r + s|
      ensures RoutePrecedes(order, (r + s)[i], (r + s)[j])
    {
      if i < |r| <= j { assert r[i] in r && s[j - |r|] in s; }
    }
  }

  lemma {:induction false} ChildInOrder(g: Graph, order: seq<Id>, a: Id, c: Id)
    requires Grounded(g, a) && ParentOf(g, a, c) && Grounded(g, c) && Lists(order, g.Keys)
    requires InRouteOrder(order, Routes(g, order, c))
    ensures InRouteOrder(order, [[a, c]] + Prepend(a, Routes(g, order, c)))
  {
    var deeper := Routes(g, order, c);
    var below := Prepend(a, deeper);
    forall i, j | 0 <= i < j < |below|
      ensures RoutePrecedes(order, below[i], below[j])
    {
      PrependPrecedes(order, a, deeper[i], deeper[j]);
    }
    forall p, q | p in [[a, c]] && q in below
      ensures RoutePrecedes(order, p, q)
    {
      var j :| 0 <= j < |below| && below[j] == q;
      assert deeper[j] in deeper;
      RoutesAreThePaths(g, order, c, deeper[j]);
      assert q[..2] == [a, c];
    }
    ConcatInOrder(order, [[a, c]], below);
  }

  lemma {:induction false} ViaInOrder(g: Graph, order: seq<Id>, a: Id, rest: seq<Id>)
    requires Grounded(g, a) && Lists(order, g.Keys) && |rest| <= |order|
    requires forall i, j :: 0 <= i < j < |rest| ==> Older(order, rest[i], rest[j])
    ensures InRouteOrder(order, RoutesVia(g, order, a, rest))
    decreases Below(g, a), |rest|
  {
    if rest != [] {
      var c, others := rest[0], RoutesVia(g, order, a, rest[1..]);
      ViaInOrder(g, order, a, rest[1..]);
      if ParentOf(g, a, c) {
        ChildIsSmaller(g, a, c);
        RoutesInOrder(g, order, c);
        ChildInOrder(g, order, a, c);
        var first := [[a, c]] + Prepend(a, Routes(g, order, c));
        forall p, q | p in first && q in others
          ensures RoutePrecedes(order, p, q)
        {
          ChildPaths(g, order, a, c, p);
          ViaAreThePaths(g, order, a, rest[1..], q);
          var j :| 0 <= j < |rest| - 1 && rest[1..][j] == q[1];
          assert rest[j + 1] == q[1];
          ForkPrecedes(order, p, q);
        }
        ConcatInOrder(order, first, others);
      }
    }
  }

  /** The descendants are listed depth first: each route after the routes that it continues, and where two routes fork,
      the one through the child that was registered first. */
  lemma {:induction false} RoutesInOrder(g: Graph, order: seq<Id>, a: Id)
    requires Grounded(g, a) && Lists(order, g.Keys)
    ensures InRouteOrder(order, Routes(g, order, a))
    decreases Below(g, a), |order| + 1
  {
    ViaInOrder(g, order, a, order);
  }

  /** Different models get different input ids and names; the digest has eight characters. */
  lemma ModelInputsDiffer(m1: string, d1: string, m2: string, d2: string, dataset: Id)
    requires |d1| == 8 && |d2| == 8
    ensures ModelInputId(m1, d1) == ModelInputId(m2, d2) <==> m1 == m2 && d1 == d2
    ensures ModelInputNode(m1, dataset) == ModelInputNode(m2, dataset) <==> m1 == m2
    ensures ModelInputNode(m1, dataset).parents == [dataset]
  {
    var i1, i2, n := ModelInputId(m1, d1), ModelInputId(m2, d2), |"model_input_"|;
    assert i1[n..|i1| - 9] == m1 && i2[n..|i2| - 9] == m2;
    assert i1[|i1| - 8..] == d1 && i2[|i2| - 8..] == d2;
    var p := |"ModelInput:"|;
    assert ModelInputNode(m1, dataset).name[p..] == m1 && ModelInputNode(m2, dataset).name[p..] == m2;
  }
}
