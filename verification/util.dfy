/** Generic helpers shared by the table models: an Option type, the SQL-like
    selection of rows (Filter), counting and summing over rows, and the
    "ORDER BY created_at DESC" listing order. */
module Util {

  datatype Option<T> = None | Some(value: T) {
    /** PHP's `??`: the value if present, the default otherwise. */
    function GetOr(default: T): T {
      match this
      case Some(v) => v
      case None => default
    }
  }

  /** `$m[$k] ?? null`: the entry of `m` under `k`, if any. */
  function Lookup<K, V>(m: map<K, V>, k: K): (r: Option<V>)
    ensures r.Some? <==> k in m
    ensures r.Some? ==> r.value == m[k]
  {
    if k in m then Some(m[k]) else None
  }

  /** The rows of `s` that satisfy `p`, in table order (a WHERE clause). */
  function Filter<T>(s: seq<T>, p: T -> bool): (r: seq<T>)
    ensures |r| <= |s|
    ensures forall i :: 0 <= i < |r| ==> r[i] in s && p(r[i])
    ensures forall i :: 0 <= i < |s| && p(s[i]) ==> s[i] in r
  {
    if s == [] then []
    else if p(s[0]) then [s[0]] + Filter(s[1..], p)
    else Filter(s[1..], p)
  }

  /** Selecting from `s` followed by `x` is selecting from `s`, then `x`
      if it passes. */
  lemma {:induction false} FilterAppend<T>(s: seq<T>, x: T, p: T -> bool)
    ensures Filter(s + [x], p) == Filter(s, p) + (if p(x) then [x] else [])
  {
    if s != [] {
      assert (s + [x])[1..] == s[1..] + [x];
      FilterAppend(s[1..], x, p);
    }
  }

  /** Extending a logged prefix of `s` by its next element. */
  lemma PrefixSnoc<T>(before: seq<T>, s: seq<T>, i: nat)
    requires i < |s|
    ensures before + s[..i + 1] == before + s[..i] + [s[i]]
  {
    assert s[..i + 1] == s[..i] + [s[i]];
  }

  /** Number of rows of `s` satisfying `p` (a COUNT(*) ... WHERE). */
  function Count<T>(s: seq<T>, p: T -> bool): nat {
    if s == [] then 0 else (if p(s[0]) then 1 else 0) + Count(s[1..], p)
  }

  /** Sum of `f` over the rows of `s` (a SUM(...)). */
  function Sum<T>(s: seq<T>, f: T -> real): real {
    if s == [] then 0.0 else f(s[0]) + Sum(s[1..], f)
  }

  lemma {:induction false} SumAppend<T>(s: seq<T>, x: T, f: T -> real)
    ensures Sum(s + [x], f) == Sum(s, f) + f(x)
  {
    if s != [] {
      assert (s + [x])[1..] == s[1..] + [x];
      SumAppend(s[1..], x, f);
    }
  }

  /** Counting the rows that pass `q` among those selected by `p` is counting
      the rows that pass both. */
  lemma {:induction false} CountFiltered<T>(s: seq<T>, p: T -> bool, q: T -> bool)
    ensures Count(Filter(s, p), q) == Count(s, x => p(x) && q(x))
  {
    if s != [] {
      CountFiltered(s[1..], p, q);
    }
  }

  /** Summing over the rows selected by `p` is summing `f` where `p` holds. */
  lemma {:induction false} SumFiltered<T>(s: seq<T>, p: T -> bool, f: T -> real)
    ensures Sum(Filter(s, p), f) == Sum(s, x => if p(x) then f(x) else 0.0)
  {
    if s != [] {
      SumFiltered(s[1..], p, f);
    }
  }

  /** Newest first: `key` (a creation time) never increases along `s`. */
  ghost predicate SortedDesc<T>(s: seq<T>, key: T -> int) {
    forall i, j :: 0 <= i < j < |s| ==> key(s[i]) >= key(s[j])
  }

  function InsertDesc<T>(x: T, s: seq<T>, key: T -> int): (r: seq<T>)
    requires SortedDesc(s, key)
    ensures SortedDesc(r, key)
    ensures multiset(r) == multiset(s) + multiset{x}
    ensures |r| == |s| + 1
    ensures r[0] == x || (s != [] && r[0] == s[0])
  {
    if s == [] || key(x) >= key(s[0]) then [x] + s
    else
      var rest := InsertDesc(x, s[1..], key);
      assert s == [s[0]] + s[1..];
      assert key(rest[0]) <= key(s[0]);
      [s[0]] + rest
  }

  /** The rows of `s` in "ORDER BY key DESC" order; rows with equal keys keep
      their table order. */
  function SortDesc<T>(s: seq<T>, key: T -> int): (r: seq<T>)
    ensures SortedDesc(r, key)
    ensures multiset(r) == multiset(s)
    ensures |r| == |s|
  {
    if s == [] then []
    else
      assert s == [s[0]] + s[1..];
      InsertDesc(s[0], SortDesc(s[1..], key), key)
  }

  lemma {:induction false} InsertKeepsCount<T>(x: T, s: seq<T>, key: T -> int, p: T -> bool)
    requires SortedDesc(s, key)
    ensures Count(InsertDesc(x, s, key), p) == (if p(x) then 1 else 0) + Count(s, p)
  {
    if s != [] && key(x) < key(s[0]) {
      InsertKeepsCount(x, s[1..], key, p);
    } else {
      assert ([x] + s)[1..] == s;
    }
  }

  /** Sorting a listing does not change how many of its rows satisfy `p`. */
  lemma {:induction false} SortKeepsCount<T>(s: seq<T>, key: T -> int, p: T -> bool)
    ensures Count(SortDesc(s, key), p) == Count(s, p)
  {
    if s != [] {
      SortKeepsCount(s[1..], key, p);
      InsertKeepsCount(s[0], SortDesc(s[1..], key), key, p);
    }
  }

  lemma {:induction false} InsertKeepsSum<T>(x: T, s: seq<T>, key: T -> int, f: T -> real)
    requires SortedDesc(s, key)
    ensures Sum(InsertDesc(x, s, key), f) == f(x) + Sum(s, f)
  {
    if s != [] && key(x) < key(s[0]) {
      InsertKeepsSum(x, s[1..], key, f);
    } else {
      assert ([x] + s)[1..] == s;
    }
  }

  /** Sorting a listing does not change the sum of `f` over its rows. */
  lemma {:induction false} SortKeepsSum<T>(s: seq<T>, key: T -> int, f: T -> real)
    ensures Sum(SortDesc(s, key), f) == Sum(s, f)
  {
    if s != [] {
      SortKeepsSum(s[1..], key, f);
      InsertKeepsSum(s[0], SortDesc(s[1..], key), key, f);
    }
  }

  /** "SELECT ... WHERE p ORDER BY key DESC": exactly the rows satisfying
      `p`, newest first. */
  lemma SortedSelection<T>(s: seq<T>, p: T -> bool, key: T -> int)
    ensures var r := SortDesc(Filter(s, p), key);
      && (forall x :: x in r <==> x in s && p(x))
      && (forall i, j :: 0 <= i < j < |r| ==> key(r[i]) >= key(r[j]))
  {
    var rows := Filter(s, p);
    var r := SortDesc(rows, key);
    forall x
      ensures x in r <==> x in s && p(x)
    {
      calc {
        x in r;
        x in multiset(r);
        x in multiset(rows);
        x in rows;
      }
      if x in s && p(x) {
        var i :| 0 <= i < |s| && s[i] == x;
      }
    }
  }

  /** Counting the rows that pass `q` among those selected by `p` is counting
      the rows that pass `pq`, when `pq` is the conjunction of the two. */
  lemma {:induction false} CountSelected<T>(s: seq<T>, p: T -> bool, q: T -> bool, pq: T -> bool)
    requires forall x :: pq(x) == (p(x) && q(x))
    ensures Count(Filter(s, p), q) == Count(s, pq)
  {
    if s != [] {
      CountSelected(s[1..], p, q, pq);
    }
  }
}
