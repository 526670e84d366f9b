/** Python's `sorted` on a set of distinct keys, for any total order. */
module Ordering {
  import opened Common

  ghost predicate TotalOrder<T(!new)>(le: (T, T) -> bool) {
    && (forall a :: le(a, a))
    && (forall a, b :: le(a, b) || le(b, a))
    && (forall a, b :: le(a, b) && le(b, a) ==> a == b)
    && (forall a, b, c :: le(a, b) && le(b, c) ==> le(a, c))
  }

  ghost predicate Ascending<T(!new)>(s: seq<T>, le: (T, T) -> bool) {
    forall i, j :: 0 <= i < j < |s| ==> le(s[i], s[j]) && s[i] != s[j]
  }

  ghost function Least<T(!new)>(s: set<T>, le: (T, T) -> bool): (m: T)
    requires TotalOrder(le) && s != {}
    ensures m in s && forall x :: x in s ==> le(m, x)
    decreases |s|
  {
    var e :| e in s;
    if s == {e} then e
    else
      var l := Least(s - {e}, le);
      if le(l, e) then l else e
  }

  /** The elements of `s`, each once, in ascending order. */
  ghost function Sorted<T(!new)>(s: set<T>, le: (T, T) -> bool): (r: seq<T>)
    requires TotalOrder(le)
    ensures |r| == |s|
    decreases |s|
  {
    if s == {} then [] else [Least(s, le)] + Sorted(s - {Least(s, le)}, le)
  }

  lemma {:induction false} SortedElements<T(!new)>(s: set<T>, le: (T, T) -> bool)
    requires TotalOrder(le)
    ensures forall x :: x in Sorted(s, le) <==> x in s
    decreases |s|
  {
    if s != {} {
      SortedElements(s - {Least(s, le)}, le);
    }
  }

  lemma {:induction false} SortedAscends<T(!new)>(s: set<T>, le: (T, T) -> bool)
    requires TotalOrder(le)
    ensures Ascending(Sorted(s, le), le)
    decreases |s|
  {
    if s != {} {
      var m := Least(s, le);
      var rest := Sorted(s - {m}, le);
      SortedAscends(s - {m}, le);
      SortedElements(s - {m}, le);
      forall j | 0 <= j < |rest|
        ensures le(m, rest[j]) && m != rest[j]
      {
        assert rest[j] in rest;
      }
    }
  }

  /** The loop that produces it: repeatedly take the least remaining element. */
  method Sort<T(==,!new)>(s: set<T>, le: (T, T) -> bool) returns (r: seq<T>)
    requires TotalOrder(le)
    ensures r == Sorted(s, le)
  {
    r := [];
    var left := s;
    while left != {}
      invariant Sorted(s, le) == r + Sorted(left, le)
      decreases |left|
    {
      ghost var least := Least(left, le);
      var m :| m in left && forall x | x in left :: le(m, x);
      assert m == least;
      r := r + [m];
      left := left - {m};
    }
  }

  lemma HeadIsElement<T(!new)>(s: seq<T>)
    requires s != []
    ensures exists x :: x in s
  {
    assert s[0] in s;
  }

  /** Two ascending listings of the same set are the same sequence. */
  lemma {:induction false} AscendingUnique<T(!new)>(a: seq<T>, b: seq<T>, le: (T, T) -> bool)
    requires TotalOrder(le) && Ascending(a, le) && Ascending(b, le)
    requires forall x :: x in a <==> x in b
    ensures a == b
  {
    if a == [] {
      if b != [] { HeadIsElement(b); }
    } else {
      assert a[0] in b && b != [];
      assert b[0] in a;
      assert a[0] == b[0];
      forall x
        ensures x in a[1..] <==> x in b[1..]
      {
        if x in a[1..] { assert x in b && x != b[0]; }
        if x in b[1..] { assert x in a && x != a[0]; }
      }
      AscendingUnique(a[1..], b[1..], le);
    }
  }

  /** The members of a set, each once, in ascending order. */
  ghost predicate IsListing<T(!new)>(members: set<T>, s: seq<T>, le: (T, T) -> bool) {
    |s| == |members| && Lists(s, members) && Ascending(s, le)
  }

  lemma SortedIsListing<T(!new)>(members: set<T>, le: (T, T) -> bool)
    requires TotalOrder(le)
    ensures IsListing(members, Sorted(members, le), le)
  {
    SortedElements(members, le);
    SortedAscends(members, le);
  }

  lemma ListingUnique<T(!new)>(members: set<T>, a: seq<T>, b: seq<T>, le: (T, T) -> bool)
    requires TotalOrder(le) && IsListing(members, a, le) && IsListing(members, b, le)
    ensures a == b
  {
    AscendingUnique(a, b, le);
  }

  // ------------------------------------------------------------- instances

  predicate IntLe(a: int, b: int) { a <= b }

  /** Python's order on strings: lexicographic by code point. */
  predicate StringLe(a: string, b: string) {
    a == [] || (b != [] && (a[0] < b[0] || (a[0] == b[0] && StringLe(a[1..], b[1..]))))
  }

  /** Python's order on pairs of strings. */
  predicate PairLe(a: (string, string), b: (string, string)) {
    if a.0 == b.0 then StringLe(a.1, b.1) else StringLe(a.0, b.0)
  }

  lemma IntOrder()
    ensures TotalOrder(IntLe)
  {
  }

  lemma {:induction false} StringLeTotal(a: string, b: string)
    ensures StringLe(a, a)
    ensures StringLe(a, b) || StringLe(b, a)
    ensures StringLe(a, b) && StringLe(b, a) ==> a == b
  {
    if a != [] && b != [] {
      StringLeTotal(a[1..], b[1..]);
      if a[0] == b[0] && a[1..] == b[1..] {
        assert a == [a[0]] + a[1..] && b == [b[0]] + b[1..];
      }
    } else if a != [] {
      StringLeTotal(a[1..], b);
    }
  }

  lemma {:induction false} StringLeTransitive(a: string, b: string, c: string)
    requires StringLe(a, b) && StringLe(b, c)
    ensures StringLe(a, c)
  {
    if a != [] && a[0] == b[0] == c[0] {
      StringLeTransitive(a[1..], b[1..], c[1..]);
    }
  }

  lemma StringOrder()
    ensures TotalOrder(StringLe)
  {
    forall a, b {
      StringLeTotal(a, b);
    }
    forall a, b, c | StringLe(a, b) && StringLe(b, c)
      ensures StringLe(a, c)
    {
      StringLeTransitive(a, b, c);
    }
  }

  lemma PairOrder()
    ensures TotalOrder(PairLe)
  {
    StringOrder();
  }

  // ------------------------------------------- the orders, by first difference

  /** `a` runs out first, or is the lesser at the first place where the two differ. */
  ghost predicate Precedes<T>(a: seq<T>, b: seq<T>, less: (T, T) -> bool) {
    exists i :: 0 <= i <= |a| && i < |b| && a[..i] == b[..i] && (i == |a| || less(a[i], b[i]))
  }

  ghost predicate CharLess(x: char, y: char) { x < y }

  ghost predicate StringLess(a: string, b: string) { Precedes(a, b, CharLess) }

  lemma PrecedesTail<T(!new)>(a: seq<T>, b: seq<T>, less: (T, T) -> bool)
    requires a != [] && b != [] && forall x :: !less(x, x)
    ensures Precedes(a, b, less) <==> if a[0] == b[0] then Precedes(a[1..], b[1..], less) else less(a[0], b[0])
  {
    var s, t := a[1..], b[1..];
    if i :| 0 <= i <= |a| && i < |b| && a[..i] == b[..i] && (i == |a| || less(a[i], b[i])) {
      if i > 0 {
        assert a[0] == a[..i][0] && b[0] == b[..i][0];
        assert s[..i - 1] == a[..i][1..] && t[..i - 1] == b[..i][1..];
      }
    }
    if a[0] == b[0] {
      if i :| 0 <= i <= |s| && i < |t| && s[..i] == t[..i] && (i == |s| || less(s[i], t[i])) {
        assert a[..i + 1] == [a[0]] + s[..i] && b[..i + 1] == [b[0]] + t[..i];
      }
    } else if less(a[0], b[0]) {
      assert a[..0] == b[..0];
    }
  }

  lemma {:induction false} StringLeIff(a: string, b: string)
    ensures StringLe(a, b) <==> a == b || StringLess(a, b)
  {
    if a == [] {
      assert b != [] ==> a[..0] == b[..0];
    } else if b != [] {
      PrecedesTail(a, b, CharLess);
      StringLeIff(a[1..], b[1..]);
      assert a == [a[0]] + a[1..] && b == [b[0]] + b[1..];
    }
  }

  lemma PairLeIff(a: (string, string), b: (string, string))
    ensures PairLe(a, b) <==> a == b || StringLess(a.0, b.0) || (a.0 == b.0 && StringLess(a.1, b.1))
  {
    StringLeIff(a.0, b.0);
    StringLeIff(a.1, b.1);
    PrecedesNotItself(a.0);
  }

  lemma PrecedesNotItself(a: string)
    ensures !StringLess(a, a)
  {
  }
}
