/** Generic views over the id-keyed stores: rows in id order (the order a
    table without ORDER BY returns), filters, counts, first matches, and
    ordering by a timestamp, newest first. */
module Tables {
  import opened Wrappers

  /** The rows of `m` with keys below `n`, in increasing key order. */
  function InKeyOrder<T(!new)>(m: map<nat, T>, n: nat): (r: seq<T>)
    ensures |r| <= n
    ensures forall x :: x in r <==> exists k :: k < n && k in m && m[k] == x
  {
    if n == 0 then []
    else
      var prefix := InKeyOrder(m, n - 1);
      var k := n - 1;
      var r := prefix + (if k in m then [m[k]] else []);
      assert forall x :: x in r <==> x in prefix || (k in m && m[k] == x);
      r
  }

  /** Rows stored at or above `n` do not show in the first `n` keys. */
  lemma {:induction false} InKeyOrderUpdateAbove<T(!new)>(m: map<nat, T>, n: nat, k: nat, v: T)
    requires k >= n
    ensures InKeyOrder(m[k := v], n) == InKeyOrder(m, n)
  {
    if n > 0 {
      InKeyOrderUpdateAbove(m, n - 1, k, v);
    }
  }

  /** A row stored under the next key is appended at the end. */
  lemma InKeyOrderAppend<T(!new)>(m: map<nat, T>, n: nat, v: T)
    ensures InKeyOrder(m[n := v], n + 1) == InKeyOrder(m, n) + [v]
  {
    InKeyOrderUpdateAbove(m, n, n, v);
  }

  /** Removing a key that is not below `n` changes nothing below `n`. */
  lemma {:induction false} InKeyOrderRemoveAbove<T(!new)>(m: map<nat, T>, n: nat, k: nat)
    requires k >= n
    ensures InKeyOrder(m - {k}, n) == InKeyOrder(m, n)
  {
    if n > 0 {
      InKeyOrderRemoveAbove(m, n - 1, k);
    }
  }

  /** Keeping the rows that satisfy `p` in the map filters the table. */
  lemma {:induction false} InKeyOrderRestrict<T(!new)>(m: map<nat, T>, r: map<nat, T>, n: nat, p: T -> bool)
    requires forall k :: k in r <==> k in m && p(m[k])
    requires forall k :: k in r ==> r[k] == m[k]
    ensures InKeyOrder(r, n) == Filter(InKeyOrder(m, n), p)
  {
    if n > 0 {
      InKeyOrderRestrict(m, r, n - 1, p);
      var k := n - 1;
      var last := if k in m then [m[k]] else [];
      FilterAppend(InKeyOrder(m, n - 1), last, p);
      if k in m {
        assert Filter(last, p) == if p(m[k]) then [m[k]] else [];
      }
    }
  }

  /** Filters that agree on every row give the same rows. */
  lemma {:induction false} FilterCongruent<T(!new)>(s: seq<T>, p: T -> bool, q: T -> bool)
    requires forall x :: x in s ==> p(x) == q(x)
    ensures Filter(s, p) == Filter(s, q)
  {
    if s != [] {
      assert forall x :: x in s[1..] ==> x in s;
      FilterCongruent(s[1..], p, q);
    }
  }

  /** The rows of `s` satisfying `p`, in their original order. */
  function Filter<T(!new)>(s: seq<T>, p: T -> bool): (r: seq<T>)
    ensures |r| <= |s|
    ensures forall x :: x in r <==> x in s && p(x)
  {
    if s == [] then []
    else
      var rest := Filter(s[1..], p);
      assert forall x :: x in s <==> x == s[0] || x in s[1..];
      if p(s[0]) then [s[0]] + rest else rest
  }

  /** Filtering distributes over concatenation: it keeps the relative order. */
  lemma {:induction false} FilterAppend<T(!new)>(a: seq<T>, b: seq<T>, p: T -> bool)
    ensures Filter(a + b, p) == Filter(a, p) + Filter(b, p)
  {
    if a != [] {
      FilterAppend(a[1..], b, p);
      assert (a + b)[1..] == a[1..] + b;
    } else {
      assert a + b == b;
    }
  }

  /** A filter that keeps every row returns the rows unchanged. */
  lemma {:induction false} FilterKeepsAll<T(!new)>(s: seq<T>, p: T -> bool)
    requires forall i :: 0 <= i < |s| ==> p(s[i])
    ensures Filter(s, p) == s
  {
    if s != [] {
      FilterKeepsAll(s[1..], p);
    }
  }

  /** Filtering by `p` and then by `q` is filtering by any `r` that holds
      exactly where both hold. */
  lemma {:induction false} FilterFilter<T(!new)>(s: seq<T>, p: T -> bool, q: T -> bool, r: T -> bool)
    requires forall x :: x in s ==> r(x) == (p(x) && q(x))
    ensures Filter(Filter(s, p), q) == Filter(s, r)
  {
    if s != [] {
      assert forall x :: x in s[1..] ==> x in s;
      FilterFilter(s[1..], p, q, r);
    }
  }

  /** The number of rows satisfying `p` (a stream `filter(..).count()`). */
  function CountWhere<T(!new)>(s: seq<T>, p: T -> bool): (n: nat)
    ensures n == |Filter(s, p)|
  {
    if s == [] then 0 else (if p(s[0]) then 1 else 0) + CountWhere(s[1..], p)
  }

  /** A stricter predicate never counts more rows. */
  lemma {:induction false} CountWhereMonotone<T(!new)>(s: seq<T>, p: T -> bool, q: T -> bool)
    requires forall x :: x in s && p(x) ==> q(x)
    ensures CountWhere(s, p) <= CountWhere(s, q)
  {
    if s != [] {
      CountWhereMonotone(s[1..], p, q);
    }
  }

  /** The keys below `n` whose row satisfies `p`. */
  function KeysWhere<T(!new)>(m: map<nat, T>, n: nat, p: T -> bool): (r: set<nat>)
    ensures forall k :: k in r <==> k in m && k < n && p(m[k])
  {
    set k | k in m && k < n && p(m[k])
  }

  /** Counting the rows of a table that satisfy `p` counts the keys whose
      row satisfies `p`: every key contributes its row once. */
  lemma {:induction false} CountInKeyOrder<T(!new)>(m: map<nat, T>, n: nat, p: T -> bool)
    ensures CountWhere(InKeyOrder(m, n), p) == |KeysWhere(m, n, p)|
  {
    if n > 0 {
      var k := n - 1;
      var prefix := InKeyOrder(m, k);
      var last := if k in m then [m[k]] else [];
      assert InKeyOrder(m, n) == prefix + last;
      CountInKeyOrder(m, k, p);
      FilterAppend(prefix, last, p);
      assert |Filter(last, p)| == if k in m && p(m[k]) then 1 else 0;
      KeysWhereStep(m, k, p);
    }
  }

  /** One more key adds one to the matching keys exactly when its row matches. */
  lemma KeysWhereStep<T(!new)>(m: map<nat, T>, k: nat, p: T -> bool)
    ensures |KeysWhere(m, k + 1, p)| == |KeysWhere(m, k, p)| + (if k in m && p(m[k]) then 1 else 0)
  {
    if k in m && p(m[k]) {
      assert KeysWhere(m, k + 1, p) == KeysWhere(m, k, p) + {k};
    } else {
      assert KeysWhere(m, k + 1, p) == KeysWhere(m, k, p);
    }
  }

  /** The index of the first row satisfying `p` (`stream().filter(p).findFirst()`). */
  function FindFirst<T>(s: seq<T>, p: T -> bool): (r: Option<nat>)
    ensures r.Some? ==> r.value < |s| && p(s[r.value])
    ensures r.Some? ==> forall j :: 0 <= j < r.value ==> !p(s[j])
    ensures r.None? ==> forall j :: 0 <= j < |s| ==> !p(s[j])
  {
    if s == [] then None
    else if p(s[0]) then Some(0)
    else
      match FindFirst(s[1..], p)
      case None => None
      case Some(k) => Some(k + 1)
  }

  /** The smallest key below `n` whose row satisfies `p`. */
  function FindKey<T>(m: map<nat, T>, n: nat, p: T -> bool): (r: Option<nat>)
    ensures r.Some? ==> r.value < n && r.value in m && p(m[r.value])
    ensures r.Some? ==> forall k :: k < r.value && k in m ==> !p(m[k])
    ensures r.None? ==> forall k :: k < n && k in m ==> !p(m[k])
  {
    if n == 0 then None
    else
      match FindKey(m, n - 1, p)
      case Some(k) => Some(k)
      case None => if n - 1 in m && p(m[n - 1]) then Some(n - 1) else None
  }

  /** Rows ordered by `key`, largest first (ORDER BY key DESC). */
  ghost predicate SortedDesc<T>(s: seq<T>, key: T -> int)
  {
    forall i, j :: 0 <= i < j < |s| ==> key(s[i]) >= key(s[j])
  }

  /** Putting a row no smaller than the head in front keeps the order. */
  lemma ConsSortedDesc<T>(y: T, s: seq<T>, key: T -> int)
    requires SortedDesc(s, key) && (s == [] || key(y) >= key(s[0]))
    ensures SortedDesc([y] + s, key)
  {
    var r := [y] + s;
    forall i, j | 0 <= i < j < |r| ensures key(r[i]) >= key(r[j]) {
      if i == 0 && j > 1 { assert key(s[0]) >= key(s[j - 1]); }
    }
  }

  /** Inserts `x` into a sequence ordered by `key`, largest first. */
  function InsertDesc<T>(x: T, s: seq<T>, key: T -> int): (r: seq<T>)
    requires SortedDesc(s, key)
    ensures |r| == |s| + 1
    ensures r[0] == x || (s != [] && r[0] == s[0])
    ensures SortedDesc(r, key)
    ensures multiset(r) == multiset(s) + multiset{x}
  {
    if s == [] then [x]
    else if key(x) >= key(s[0]) then
      ConsSortedDesc(x, s, key);
      [x] + s
    else
      var rest := InsertDesc(x, s[1..], key);
      assert s == [s[0]] + s[1..];
      ConsSortedDesc(s[0], rest, key);
      [s[0]] + rest
  }

  /** Orders rows by `key`, largest first (insertion sort). */
  function SortDesc<T>(s: seq<T>, key: T -> int): (r: seq<T>)
    ensures SortedDesc(r, key)
    ensures multiset(r) == multiset(s)
  {
    if s == [] then []
    else
      assert s == [s[0]] + s[1..];
      InsertDesc(s[0], SortDesc(s[1..], key), key)
  }
}
