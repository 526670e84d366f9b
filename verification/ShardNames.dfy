/** Shard file names (data/partitioning.py, lines 457, 473-482, 586): their numbers, and the order they list in. */
module ShardNames {
  import opened Ordering

  function DigitChar(d: nat): char
    requires d < 10
  {
    ['0', '1', '2', '3', '4', '5', '6', '7', '8', '9'][d]
  }

  /** The decimal digits of `n`, padded with zeros to at least `width` of them. */
  function Padded(n: nat, width: nat): string
    decreases n, width
  {
    if n == 0 && width == 0 then ""
    else Padded(n / 10, if width == 0 then 0 else width - 1) + [DigitChar(n % 10)]
  }

  function ShardName(i: nat): string {
    "data_" + Padded(i, 5) + ".parquet"
  }

  /** The order in which the reader lists the shards of one directory: by file name. */
  predicate NameLe(i: nat, j: nat) { StringLe(ShardName(i), ShardName(j)) }

  function Value(s: string): int {
    if s == "" then 0 else 10 * Value(s[..|s| - 1]) + (s[|s| - 1] as int - '0' as int)
  }

  lemma DigitValue(d: nat)
    requires d < 10
    ensures DigitChar(d) as int - '0' as int == d
  {
  }

  lemma ValueOfMore(s: string, c: char)
    ensures Value(s + [c]) == 10 * Value(s) + (c as int - '0' as int)
  {
    assert (s + [c])[..|s|] == s;
  }

  lemma {:induction false} PaddedValue(n: nat, width: nat)
    ensures Value(Padded(n, width)) == n
    decreases n, width
  {
    if n != 0 || width != 0 {
      var w := if width == 0 then 0 else width - 1;
      PaddedValue(n / 10, w);
      DigitValue(n % 10);
      ValueOfMore(Padded(n / 10, w), DigitChar(n % 10));
    }
  }

  lemma ShardNamesDiffer(i: nat, j: nat)
    requires ShardName(i) == ShardName(j)
    ensures i == j
  {
    var a, b := Padded(i, 5), Padded(j, 5);
    assert |ShardName(i)| == 13 + |a| && |ShardName(j)| == 13 + |b|;
    assert ShardName(i)[5..5 + |a|] == a && ShardName(j)[5..5 + |b|] == b;
    PaddedValue(i, 5);
    PaddedValue(j, 5);
  }

  /** The first hundred thousand names have five decimal digits, the highest first. */
  lemma NameByDigits(n: nat)
    requires n < 100000
    ensures var digits := [DigitChar(n / 10000), DigitChar(n / 1000 % 10), DigitChar(n / 100 % 10),
                           DigitChar(n / 10 % 10), DigitChar(n % 10)];
            ShardName(n) == "data_" + digits + ".parquet"
  {
    var a, b, c, d := n / 10, n / 100, n / 1000, n / 10000;
    assert a / 10 == b && b / 10 == c && c / 10 == d && d / 10 == 0;
    assert Padded(0, 0) == "";
    assert Padded(d, 1) == [DigitChar(d)];
    assert Padded(c, 2) == [DigitChar(d), DigitChar(c % 10)];
    assert Padded(b, 3) == [DigitChar(d), DigitChar(c % 10), DigitChar(b % 10)];
    assert Padded(a, 4) == [DigitChar(d), DigitChar(c % 10), DigitChar(b % 10), DigitChar(a % 10)];
  }

  lemma NameOrder()
    ensures TotalOrder(NameLe)
  {
    StringOrder();
    forall i: nat, j: nat | NameLe(i, j) && NameLe(j, i)
      ensures i == j
    {
      ShardNamesDiffer(i, j);
    }
  }

  function Power(w: nat): nat { if w == 0 then 1 else 10 * Power(w - 1) }

  lemma {:induction false} PaddedLength(n: nat, w: nat)
    requires n < Power(w)
    ensures |Padded(n, w)| == w
    decreases w
  {
    if w > 0 { PaddedLength(n / 10, w - 1); }
  }

  lemma {:induction false} StringLeTail(a: string, b: string, x: string, y: string)
    requires |a| == |b| && (if a == b then StringLe(x, y) else StringLe(a, b))
    ensures StringLe(a + x, b + y)
  {
    if a == "" {
      assert a + x == x && b + y == y;
    } else {
      assert (a + x)[1..] == a[1..] + x && (b + y)[1..] == b[1..] + y;
      if a[0] == b[0] {
        assert a == b <==> a[1..] == b[1..];
        StringLeTail(a[1..], b[1..], x, y);
      }
    }
  }

  /** Numbers written with the same width compare like their digits. */
  lemma {:induction false} PaddedInOrder(i: nat, j: nat, w: nat)
    requires i < j < Power(w)
    ensures StringLe(Padded(i, w), Padded(j, w)) && Padded(i, w) != Padded(j, w)
    decreases w
  {
    PaddedValue(i, w);
    PaddedValue(j, w);
    PaddedLength(i / 10, w - 1);
    PaddedLength(j / 10, w - 1);
    if i / 10 < j / 10 {
      PaddedInOrder(i / 10, j / 10, w - 1);
    }
    StringLeTail(Padded(i / 10, w - 1), Padded(j / 10, w - 1), [DigitChar(i % 10)], [DigitChar(j % 10)]);
  }

  lemma NamesInOrder(i: nat, j: nat)
    requires i < j < 100000
    ensures NameLe(i, j)
  {
    assert Power(5) == 100000 by {
      assert Power(1) == 10 && Power(2) == 100 && Power(3) == 1000 && Power(4) == 10000;
    }
    PaddedInOrder(i, j, 5);
    PaddedLength(i, 5);
    PaddedLength(j, 5);
    var a, b := Padded(i, 5), Padded(j, 5);
    StringLeTail(a, b, ".parquet", ".parquet");
    StringLeTail("data_", "data_", a + ".parquet", b + ".parquet");
    assert ShardName(i) == "data_" + (a + ".parquet") && ShardName(j) == "data_" + (b + ".parquet");
  }

  /** Appending a digit keeps the first one. */
  lemma DigitsMore(n: nat, width: nat, d: nat, next: nat)
    requires d < 10 && next == 10 * n + d && Padded(n, width) != ""
    ensures Padded(next, width + 1) != "" && Padded(next, width + 1)[0] == Padded(n, width)[0]
  {
    assert next / 10 == n && next % 10 == d;
    assert Padded(next, width + 1) == Padded(n, width) + [DigitChar(d)];
  }

  lemma TwoMoreDigits(n: nat, width: nat, d: nat, next: nat, k: nat)
    requires d < 10 && Padded(n, width) != "" && next == 10 * n + d && k == 10 * next + d
    ensures Padded(k, width + 2) != "" && Padded(k, width + 2)[0] == Padded(n, width)[0]
  {
    DigitsMore(n, width, d, next);
    DigitsMore(next, width + 1, d, k);
  }

  lemma {:induction false} StringLeDrop(a: string, b: string, k: nat)
    requires k <= |a| && k <= |b| && forall i :: 0 <= i < k ==> a[i] == b[i]
    ensures StringLe(a, b) <==> StringLe(a[k..], b[k..])
  {
    if k > 0 {
      StringLeDrop(a[1..], b[1..], k - 1);
      assert a[1..][k - 1..] == a[k..] && b[1..][k - 1..] == b[k..];
    } else {
      assert a[0..] == a && b[0..] == b;
    }
  }

  lemma NineAndOne(i: nat, j: nat)
    requires i == 99999 && j == 100000
    ensures Padded(i, 5) != "" && Padded(j, 5) != "" && Padded(i, 5)[0] == '9' && Padded(j, 5)[0] == '1'
  {
    assert Padded(0, 0) == "";
    assert Padded(9, 1) == "9" && Padded(10, 1)[0] == '1';
    TwoMoreDigits(9, 1, 9, 99, 999);
    TwoMoreDigits(999, 3, 9, 9999, i);
    TwoMoreDigits(10, 1, 0, 100, 1000);
    TwoMoreDigits(1000, 3, 0, 10000, j);
  }

  lemma LaterDigit(s: string, t: string, k: nat)
    requires k < |s| && k < |t| && (forall i :: 0 <= i < k ==> s[i] == t[i]) && s[k] > t[k]
    ensures !StringLe(s, t)
  {
    StringLeDrop(s, t, k);
  }

  lemma LongNameFirst(i: nat, j: nat)
    requires i == 99999 && j == 100000
    ensures !NameLe(i, j)
  {
    NineAndOne(i, j);
    LaterDigit(ShardName(i), ShardName(j), 5);
  }

  /** The reader lists n shards in the order they were written if and only if there are at most a hundred thousand:
      the name of the next one is a digit longer, and sorts before the last. */
  lemma ListedInOrderIff(n: nat)
    ensures (forall i, j :: 0 <= i < j < n ==> NameLe(i, j)) <==> n <= 100000
  {
    LongNameFirst(99999, 100000);
    forall i: nat, j: nat | i < j < n && n <= 100000
      ensures NameLe(i, j)
    {
      NamesInOrder(i, j);
    }
  }

  // ------------------------------------------------------------ directory listings

  lemma ListingExists(shards: set<nat>)
    ensures exists s :: IsListing(shards, s, NameLe)
  {
    NameOrder();
    SortedIsListing(shards, NameLe);
  }

  /** The shards of a directory, each once, by file name. */
  ghost function Listed(shards: set<nat>): (s: seq<nat>)
    ensures IsListing(shards, s, NameLe)
  {
    ListingExists(shards);
    var s :| IsListing(shards, s, NameLe);
    s
  }

  method List(shards: set<nat>) returns (s: seq<nat>)
    ensures s == Listed(shards)
  {
    NameOrder();
    s := Sort(shards, NameLe);
    SortedIsListing(shards, NameLe);
    ListingUnique(shards, s, Listed(shards), NameLe);
  }

  /** 0, 1, ..., n - 1. */
  function Numbers(n: nat): (s: seq<nat>)
    ensures |s| == n && forall i :: 0 <= i < n ==> s[i] == i
  {
    if n == 0 then [] else Numbers(n - 1) + [n - 1]
  }

  lemma NumbersAre(n: nat)
    ensures forall i :: i in Numbers(n) <==> 0 <= i < n
  {
    assert forall i :: 0 <= i < n ==> Numbers(n)[i] == i;
  }

  /** Shards 0, ..., n - 1 are listed in number order if and only if there are at most a hundred thousand. */
  lemma ListedIsNumbers(shards: set<nat>)
    requires forall i :: i in shards <==> 0 <= i < |shards|
    ensures Listed(shards) == Numbers(|shards|) <==> |shards| <= 100000
  {
    ListedInOrderIff(|shards|);
    NumbersAre(|shards|);
    if |shards| <= 100000 {
      NameOrder();
      ListingUnique(shards, Listed(shards), Numbers(|shards|), NameLe);
    } else if Listed(shards) == Numbers(|shards|) {
      NamesAscend(shards);
    }
  }

  lemma NamesAscend(shards: set<nat>)
    requires Listed(shards) == Numbers(|shards|)
    ensures forall i, j :: 0 <= i < j < |shards| ==> NameLe(i, j)
  {
    forall i, j | 0 <= i < j < |shards|
      ensures NameLe(i, j)
    {
      assert Listed(shards)[i] == i && Listed(shards)[j] == j;
    }
  }
}
