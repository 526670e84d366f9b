/** The order in which the reader goes through the partition directories (data/partitioning.py, line 585): paths compare
    component by component. */
module PartitionPaths {
  import opened Ordering

  /** The components of a partition key. */
  function Parts(path: string): (ps: seq<string>)
    ensures ps != []
  {
    if path == "" then [""]
    else
      var rest := Parts(path[1..]);
      if path[0] == '/' then [""] + rest else [[path[0]] + rest[0]] + rest[1..]
  }

  function Joined(ps: seq<string>): string
    requires ps != []
  {
    if |ps| == 1 then ps[0] else ps[0] + "/" + Joined(ps[1..])
  }

  lemma {:induction false} JoinedParts(path: string)
    ensures Joined(Parts(path)) == path
  {
    if path != "" {
      var rest := Parts(path[1..]);
      JoinedParts(path[1..]);
      if path[0] == '/' {
        assert ([""] + rest)[1..] == rest;
        assert "" + "/" + path[1..] == path;
      } else {
        var ps := [[path[0]] + rest[0]] + rest[1..];
        assert ps[1..] == rest[1..];
        if |rest| == 1 {
          assert [path[0]] + path[1..] == path;
        } else {
          assert [path[0]] + rest[0] + "/" + Joined(rest[1..]) == [path[0]] + (rest[0] + "/" + Joined(rest[1..]));
          assert [path[0]] + path[1..] == path;
        }
      }
    }
  }

  /** Python's order on lists of strings. */
  predicate PartsLe(a: seq<string>, b: seq<string>) {
    a == [] || (b != [] && if a[0] == b[0] then PartsLe(a[1..], b[1..]) else StringLe(a[0], b[0]))
  }

  predicate PathLe(a: string, b: string) {
    PartsLe(Parts(a), Parts(b))
  }

  lemma {:induction false} PartsLeTotal(a: seq<string>, b: seq<string>)
    ensures PartsLe(a, a)
    ensures PartsLe(a, b) || PartsLe(b, a)
    ensures PartsLe(a, b) && PartsLe(b, a) ==> a == b
  {
    if a != [] && b != [] {
      PartsLeTotal(a[1..], b[1..]);
      StringLeTotal(a[0], b[0]);
      if a[0] == b[0] && a[1..] == b[1..] {
        assert a == [a[0]] + a[1..] && b == [b[0]] + b[1..];
      }
    } else if a != [] {
      PartsLeTotal(a[1..], b);
    }
  }

  lemma {:induction false} PartsLeTransitive(a: seq<string>, b: seq<string>, c: seq<string>)
    requires PartsLe(a, b) && PartsLe(b, c)
    ensures PartsLe(a, c)
  {
    if a != [] {
      if a[0] == b[0] == c[0] {
        PartsLeTransitive(a[1..], b[1..], c[1..]);
      } else {
        StringLeTotal(a[0], b[0]);
        StringLeTotal(b[0], c[0]);
        StringLeTransitive(a[0], b[0], c[0]);
      }
    }
  }

  lemma PathLeTotal(a: string, b: string)
    ensures PathLe(a, a)
    ensures PathLe(a, b) || PathLe(b, a)
    ensures PathLe(a, b) && PathLe(b, a) ==> a == b
  {
    PartsLeTotal(Parts(a), Parts(b));
    JoinedParts(a);
    JoinedParts(b);
  }

  lemma PathOrder()
    ensures TotalOrder(PathLe)
  {
    forall a, b {
      PathLeTotal(a, b);
    }
    forall a, b, c | PathLe(a, b) && PathLe(b, c)
      ensures PathLe(a, c)
    {
      PartsLeTransitive(Parts(a), Parts(b), Parts(c));
    }
  }

  lemma ListingExists(keys: set<string>)
    ensures exists s :: IsListing(keys, s, PathLe)
  {
    PathOrder();
    SortedIsListing(keys, PathLe);
  }

  /** The directories, each once, in path order. */
  ghost function PathsListed(keys: set<string>): (s: seq<string>)
    ensures IsListing(keys, s, PathLe)
  {
    ListingExists(keys);
    var s :| IsListing(keys, s, PathLe);
    s
  }

  method ListPaths(keys: set<string>) returns (s: seq<string>)
    ensures s == PathsListed(keys)
  {
    PathOrder();
    s := Sort(keys, PathLe);
    SortedIsListing(keys, PathLe);
    ListingUnique(keys, s, PathsListed(keys), PathLe);
  }

  // ---------------------------------------------------- the order, spelled out

  /** The components contain no slash, so with `JoinedParts` they are the pieces between the slashes. */
  lemma {:induction false} PartsHaveNoSlash(path: string)
    ensures forall i :: 0 <= i < |Parts(path)| ==> '/' !in Parts(path)[i]
  {
    if path != "" { PartsHaveNoSlash(path[1..]); }
  }

  lemma {:induction false} PartsLeIff(a: seq<string>, b: seq<string>)
    ensures PartsLe(a, b) <==> a == b || Precedes(a, b, StringLess)
  {
    if a == [] {
      assert b != [] ==> a[..0] == b[..0];
    } else if b != [] {
      forall x: string
        ensures !StringLess(x, x)
      {
        PrecedesNotItself(x);
      }
      PrecedesTail(a, b, StringLess);
      PartsLeIff(a[1..], b[1..]);
      StringLeIff(a[0], b[0]);
      assert a == [a[0]] + a[1..] && b == [b[0]] + b[1..];
    }
  }

  /** Where the paths first differ, the first one has no component left, or the one with the lesser character where
      those first differ, or that is all of them. */
  ghost predicate PathPrecedes(a: string, b: string) {
    Precedes(Parts(a), Parts(b), StringLess)
  }

  lemma PathsDiffer(a: string, b: string)
    requires PathPrecedes(a, b)
    ensures a != b
  {
    var p := Parts(a);
    if i :| 0 <= i <= |p| && i < |p| && StringLess(p[i], p[i]) { PrecedesNotItself(p[i]); }
  }

  /** One partition is listed before another if and only if its path precedes the other's. */
  lemma ListedByComponents(keys: set<string>, i: nat, j: nat)
    requires i < |keys| && j < |keys| && i != j
    ensures i < j <==> PathPrecedes(PathsListed(keys)[i], PathsListed(keys)[j])
  {
    var a, b := PathsListed(keys)[i], PathsListed(keys)[j];
    PathLeTotal(a, b);
    PartsLeIff(Parts(a), Parts(b));
    PartsLeIff(Parts(b), Parts(a));
    JoinedParts(a);
    JoinedParts(b);
  }
}
