/** Small definitions shared by the other modules. */
module Common {
  datatype Option<+T> = None | Some(value: T) {
    function GetOr(default: T): T {
      if Some? then value else default
    }
  }

  datatype Result<+T, +E> = Ok(value: T) | Err(error: E)

  function Lookup<K, V>(m: map<K, V>, k: K): Option<V> {
    if k in m then Some(m[k]) else None
  }

  function Min(a: real, b: real): real { if b < a then b else a }

  function Max(a: real, b: real): real { if b > a then b else a }

  ghost predicate Distinct<T>(s: seq<T>) {
    forall i, j :: 0 <= i < j < |s| ==> s[i] != s[j]
  }

  /** `order` lists every key once. */
  ghost predicate Lists<T(!new)>(order: seq<T>, keys: set<T>) {
    Distinct(order) && forall k :: k in order <==> k in keys
  }

  /** g[i] + ... + g[n - 1]. */
  function Sum(g: seq<real>, i: nat, n: nat): real
    requires i <= n <= |g|
    decreases n - i
  {
    if i == n then 0.0 else Sum(g, i, n - 1) + g[n - 1]
  }

  lemma NonNegative(a: real, b: real)
    requires a >= 0.0 && b >= 0.0
    ensures a * b >= 0.0
  {
  }

  lemma Distribute(a: int, b: int, n: int)
    ensures (a + b) * n == a * n + b * n
  {
  }

  ghost predicate IsRange(r: set<int>, n: nat) {
    |r| == n && forall k :: k in r <==> 0 <= k < n
  }

  lemma {:induction false} RangeExists(n: nat)
    ensures exists r :: IsRange(r, n)
  {
    if n == 0 {
      assert IsRange({}, 0);
    } else {
      RangeExists(n - 1);
      var r :| IsRange(r, n - 1);
      assert IsRange(r + {n - 1}, n);
    }
  }

  /** The indices 0, ..., n - 1. */
  ghost function UpTo(n: nat): (r: set<int>)
    ensures |r| == n && forall k :: k in r <==> 0 <= k < n
  {
    RangeExists(n);
    var r :| IsRange(r, n);
    r
  }
}
