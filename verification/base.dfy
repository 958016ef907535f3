/** Generic sequence helpers that mirror the JavaScript array methods the
    application uses: `filter`, `find`/`findIndex`, `reduce` as a sum,
    `Math.max(...xs)`, and `[...new Set(xs)]` (distinct values in the order
    they are first seen). */
module Base {

  /** JavaScript's `undefined`-or-value, as in a `find` that may miss. */
  datatype Option<+T> = None | Some(value: T)

  /** `a` is `b` with some elements deleted, the rest kept in order. */
  predicate IsSubseq<T(==)>(a: seq<T>, b: seq<T>)
    decreases |b|
  {
    if |a| == 0 then true
    else if |b| == 0 then false
    else if a[0] == b[0] then IsSubseq(a[1..], b[1..])
    else IsSubseq(a, b[1..])
  }

  predicate NoDups<T(==)>(s: seq<T>) {
    forall i, j :: 0 <= i < j < |s| ==> s[i] != s[j]
  }

  /** `s.filter(p)`. */
  function Filter<T(==)>(s: seq<T>, p: T -> bool): (r: seq<T>)
    ensures |r| <= |s|
    ensures forall i :: 0 <= i < |r| ==> r[i] in s && p(r[i])
    ensures forall i :: 0 <= i < |s| && p(s[i]) ==> s[i] in r
    ensures IsSubseq(r, s)
  {
    if |s| == 0 then []
    else if p(s[0]) then [s[0]] + Filter(s[1..], p)
    else Filter(s[1..], p)
  }

  /** A filter keeps every copy of each element `p` accepts and none of
      the others. */
  lemma {:induction false} FilterCount<T>(s: seq<T>, p: T -> bool)
    ensures forall x :: multiset(Filter(s, p))[x] == if p(x) then multiset(s)[x] else 0
  {
    if |s| > 0 {
      FilterCount(s[1..], p);
      assert s == [s[0]] + s[1..];
    }
  }

  /** Filtering with a predicate every element meets keeps everything. */
  lemma {:induction false} FilterAll<T>(s: seq<T>, p: T -> bool)
    requires forall i :: 0 <= i < |s| ==> p(s[i])
    ensures Filter(s, p) == s
  {
    if |s| > 0 {
      FilterAll(s[1..], p);
    }
  }

  /** Filtering preserves the absence of duplicates. */
  lemma {:induction false} FilterNoDups<T>(s: seq<T>, p: T -> bool)
    requires NoDups(s)
    ensures NoDups(Filter(s, p))
  {
    if |s| > 0 {
      FilterNoDups(s[1..], p);
      var t := Filter(s[1..], p);
      assert s[0] !in s[1..];
      if p(s[0]) {
        var r := [s[0]] + t;
        forall i, j | 0 <= i < j < |r| ensures r[i] != r[j] {
          if i == 0 { assert r[j] in t; }
        }
      }
    }
  }

  /** Filtering a concatenation filters each part. */
  lemma {:induction false} FilterAppend<T>(a: seq<T>, b: seq<T>, p: T -> bool)
    ensures Filter(a + b, p) == Filter(a, p) + Filter(b, p)
  {
    if |a| > 0 {
      assert (a + b)[1..] == a[1..] + b;
      FilterAppend(a[1..], b, p);
    } else {
      assert a + b == b;
    }
  }

  /** No two elements share a key. */
  predicate DistinctKeys<T, K(==)>(s: seq<T>, key: T -> K) {
    forall i, j :: 0 <= i < j < |s| ==> key(s[i]) != key(s[j])
  }

  /** Filtering keeps keys distinct. */
  lemma {:induction false} FilterDistinctKeys<T, K>(s: seq<T>, p: T -> bool, key: T -> K)
    requires DistinctKeys(s, key)
    ensures DistinctKeys(Filter(s, p), key)
  {
    if |s| > 0 {
      FilterDistinctKeys(s[1..], p, key);
      var t := Filter(s[1..], p);
      if p(s[0]) {
        var r := [s[0]] + t;
        forall i, j | 0 <= i < j < |r| ensures key(r[i]) != key(r[j]) {
          if i == 0 {
            assert r[j] in s[1..];
            var k :| 0 <= k < |s[1..]| && s[1..][k] == r[j];
            assert s[k + 1] == r[j];
          }
        }
      }
    }
  }

  /** The position of the first element satisfying `p`: `findIndex`. */
  function FindIndex<T>(s: seq<T>, p: T -> bool): (r: Option<nat>)
    ensures r.Some? ==> r.value < |s| && p(s[r.value]) && forall j :: 0 <= j < r.value ==> !p(s[j])
    ensures r.None? ==> forall j :: 0 <= j < |s| ==> !p(s[j])
  {
    if |s| == 0 then None
    else if p(s[0]) then Some(0)
    else match FindIndex(s[1..], p)
      case None => None
      case Some(k) => Some(k + 1)
  }

  /** The position of the last element satisfying `p`. */
  function FindLastIndex<T>(s: seq<T>, p: T -> bool): (r: Option<nat>)
    ensures r.Some? ==> r.value < |s| && p(s[r.value]) && forall j :: r.value < j < |s| ==> !p(s[j])
    ensures r.None? ==> forall j :: 0 <= j < |s| ==> !p(s[j])
  {
    if |s| == 0 then None
    else if p(s[|s| - 1]) then Some(|s| - 1)
    else FindLastIndex(s[..|s| - 1], p)
  }

  /** `s.find(p)`. */
  function Find<T>(s: seq<T>, p: T -> bool): (r: Option<T>)
    ensures r.None? <==> forall j :: 0 <= j < |s| ==> !p(s[j])
    ensures r.Some? ==> exists i :: 0 <= i < |s| && s[i] == r.value && p(s[i]) && forall j :: 0 <= j < i ==> !p(s[j])
  {
    match FindIndex(s, p)
    case None => None
    case Some(i) => Some(s[i])
  }

  /** The first element kept by a filter is the first match. */
  lemma {:induction false} FilterFirst<T>(s: seq<T>, p: T -> bool)
    requires FindIndex(s, p).Some?
    ensures |Filter(s, p)| > 0 && Filter(s, p)[0] == s[FindIndex(s, p).value]
  {
    if !p(s[0]) {
      FilterFirst(s[1..], p);
    }
  }

  /** The last element kept by a filter is the last match. */
  lemma FilterLast<T>(s: seq<T>, p: T -> bool)
    requires FindLastIndex(s, p).Some?
    ensures |Filter(s, p)| > 0 && Filter(s, p)[|Filter(s, p)| - 1] == s[FindLastIndex(s, p).value]
  {
    var k := FindLastIndex(s, p).value;
    var pre, post := s[..k], s[k + 1..];
    forall j | 0 <= j < |post| ensures !p(post[j]) {
      assert post[j] == s[k + 1 + j];
    }
    assert s == (pre + [s[k]]) + post;
    FilterAppend(pre + [s[k]], post, p);
    FilterAppend(pre, [s[k]], p);
    FilterNone(post, p);
    assert Filter([s[k]], p) == [s[k]];
  }

  /** Filtering with a predicate no element meets keeps nothing. */
  lemma {:induction false} FilterNone<T>(s: seq<T>, p: T -> bool)
    requires forall j :: 0 <= j < |s| ==> !p(s[j])
    ensures Filter(s, p) == []
  {
    if |s| > 0 {
      FilterNone(s[1..], p);
    }
  }

  /** `s.slice(0, n)`: the first `n` elements, or all of a shorter `s`. */
  function Take<T>(s: seq<T>, n: nat): (r: seq<T>)
    ensures r <= s
    ensures |r| == if |s| <= n then |s| else n
  {
    if |s| <= n then s else s[..n]
  }

  /** `s.reduce((a, x) => a + f(x), 0)`. */
  function SumBy<T>(s: seq<T>, f: T -> int): int
  {
    if |s| == 0 then 0 else f(s[0]) + SumBy(s[1..], f)
  }

  lemma {:induction false} SumByAppend<T>(a: seq<T>, b: seq<T>, f: T -> int)
    ensures SumBy(a + b, f) == SumBy(a, f) + SumBy(b, f)
  {
    if |a| > 0 {
      assert (a + b)[0] == a[0];
      assert (a + b)[1..] == a[1..] + b;
      SumByAppend(a[1..], b, f);
    } else {
      assert a + b == b;
    }
  }

  /** `Math.max(...s.map(f))` on a non-empty sequence. */
  function MaxBy<T>(s: seq<T>, f: T -> int): (m: int)
    requires |s| > 0
    ensures exists i :: 0 <= i < |s| && f(s[i]) == m
    ensures forall i :: 0 <= i < |s| ==> f(s[i]) <= m
  {
    if |s| == 1 then f(s[0])
    else
      var rest := MaxBy(s[1..], f);
      if f(s[0]) >= rest then f(s[0]) else rest
  }

  /** The position of the first occurrence of `x`. */
  function FirstIndex<T(==)>(s: seq<T>, x: T): (i: nat)
    requires x in s
    ensures i < |s| && s[i] == x && x !in s[..i]
  {
    if s[0] == x then 0
    else
      var k := FirstIndex(s[1..], x);
      assert s[..k + 1] == [s[0]] + s[1..][..k];
      k + 1
  }

  /** Any position of `x` with no earlier `x` is the first one. */
  lemma FirstIndexUnique<T>(s: seq<T>, x: T, i: nat)
    requires i < |s| && s[i] == x && x !in s[..i]
    ensures FirstIndex(s, x) == i
  {
  }

  /** `[...new Set(s)]`: the distinct elements of `s`, each kept at its
      first occurrence. */
  function FirstSeen<T(==)>(s: seq<T>): (r: seq<T>)
    ensures NoDups(r)
    ensures forall i :: 0 <= i < |r| ==> r[i] in s
    ensures forall i :: 0 <= i < |s| ==> s[i] in r
  {
    if |s| == 0 then []
    else
      var n := |s| - 1;
      var p := FirstSeen(s[..n]);
      assert forall i :: 0 <= i < n ==> s[i] == s[..n][i];
      if s[n] in p then p else p + [s[n]]
  }

  /** `FirstSeen` lists values in the order of their first occurrences. */
  lemma {:induction false} FirstSeenOrder<T>(s: seq<T>)
    ensures forall i, j :: 0 <= i < j < |FirstSeen(s)| ==> FirstIndex(s, FirstSeen(s)[i]) < FirstIndex(s, FirstSeen(s)[j])
  {
    if |s| > 0 {
      var n := |s| - 1;
      var p := FirstSeen(s[..n]);
      FirstSeenOrder(s[..n]);
      OrderInPrefix(s, n, p);
      if s[n] in p {
        assert FirstSeen(s) == p;
      } else {
        assert s[n] !in s[..n];
        FirstIndexUnique(s, s[n], n);
        OrderSnoc(s, p, s[n]);
        assert FirstSeen(s) == p + [s[n]];
      }
    }
  }

  /** Values in first-occurrence order within a prefix keep that order in
      the whole sequence. */
  lemma OrderInPrefix<T>(s: seq<T>, n: nat, xs: seq<T>)
    requires n <= |s| && forall i :: 0 <= i < |xs| ==> xs[i] in s[..n]
    requires forall i, j :: 0 <= i < j < |xs| ==> FirstIndex(s[..n], xs[i]) < FirstIndex(s[..n], xs[j])
    ensures forall i :: 0 <= i < |xs| ==> xs[i] in s && FirstIndex(s, xs[i]) < n
    ensures forall i, j :: 0 <= i < j < |xs| ==> FirstIndex(s, xs[i]) < FirstIndex(s, xs[j])
  {
    PrefixFirstIndex(s, n, xs);
  }

  /** A value first met after all of `xs` may follow them. */
  lemma OrderSnoc<T>(s: seq<T>, xs: seq<T>, x: T)
    requires x in s && forall i :: 0 <= i < |xs| ==> xs[i] in s && FirstIndex(s, xs[i]) < FirstIndex(s, x)
    requires forall i, j :: 0 <= i < j < |xs| ==> FirstIndex(s, xs[i]) < FirstIndex(s, xs[j])
    ensures var r := xs + [x];
      forall i, j :: 0 <= i < j < |r| ==> FirstIndex(s, r[i]) < FirstIndex(s, r[j])
  {
    var r := xs + [x];
    forall i, j | 0 <= i < j < |r| ensures FirstIndex(s, r[i]) < FirstIndex(s, r[j]) {
      assert r[i] == xs[i];
      if j < |xs| {
        assert r[j] == xs[j];
      } else {
        assert r[j] == x;
      }
    }
  }

  /** Values met before position `n` are first met at the same position
      in `s` and in its first `n` elements. */
  lemma PrefixFirstIndex<T>(s: seq<T>, n: nat, xs: seq<T>)
    requires n <= |s| && forall i :: 0 <= i < |xs| ==> xs[i] in s[..n]
    ensures forall i :: 0 <= i < |xs| ==> xs[i] in s && FirstIndex(s, xs[i]) == FirstIndex(s[..n], xs[i]) < n
  {
    var pre := s[..n];
    forall i | 0 <= i < |xs| ensures xs[i] in s && FirstIndex(s, xs[i]) == FirstIndex(pre, xs[i]) < n {
      var k := FirstIndex(pre, xs[i]);
      assert pre[..k] == s[..k];
      assert s[k] == pre[k];
      FirstIndexUnique(s, xs[i], k);
    }
  }
}
