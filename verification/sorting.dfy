/** `[...xs].sort((a, b) => key(a).localeCompare(key(b)))` as a stable
    insertion sort on a string key. Every sort in the application orders
    rows or records by their `month` string. */
module Sorting {
  import opened Text
  import opened Base

  predicate SortedBy<T>(s: seq<T>, key: T -> string) {
    forall i, j :: 0 <= i < j < |s| ==> LexLe(key(s[i]), key(s[j]))
  }

  /** Inserts `x` in front of the first element whose key is not smaller,
      so that `x` precedes the equal-keyed elements it came before. */
  function Insert<T(==)>(x: T, s: seq<T>, key: T -> string): (r: seq<T>)
    requires SortedBy(s, key)
    ensures SortedBy(r, key)
    ensures multiset(r) == multiset(s) + multiset{x}
  {
    if |s| == 0 then [x]
    else if LexLe(key(x), key(s[0])) then
      InsertFrontSorted(x, s, key);
      [x] + s
    else
      var t := Insert(x, s[1..], key);
      LexLeTotal(key(x), key(s[0]));
      InsertBehindSorted(s[0], t, s[1..], x, key);
      assert s == [s[0]] + s[1..];
      [s[0]] + t
  }

  lemma InsertFrontSorted<T>(x: T, s: seq<T>, key: T -> string)
    requires |s| > 0 && SortedBy(s, key) && LexLe(key(x), key(s[0]))
    ensures SortedBy([x] + s, key)
  {
    var r := [x] + s;
    forall i, j | 0 <= i < j < |r| ensures LexLe(key(r[i]), key(r[j])) {
      if i == 0 && j > 1 { LexLeTransitive(key(x), key(s[0]), key(s[j - 1])); }
    }
  }

  lemma InsertBehindSorted<T>(h: T, t: seq<T>, rest: seq<T>, x: T, key: T -> string)
    requires SortedBy(t, key)
    requires multiset(t) == multiset(rest) + multiset{x}
    requires forall i :: 0 <= i < |rest| ==> LexLe(key(h), key(rest[i]))
    requires LexLe(key(h), key(x))
    ensures SortedBy([h] + t, key)
  {
    var r := [h] + t;
    forall i, j | 0 <= i < j < |r| ensures LexLe(key(r[i]), key(r[j])) {
      if i == 0 {
        var y := t[j - 1];
        assert y in multiset(t);
        if y != x {
          assert y in multiset(rest);
          var k :| 0 <= k < |rest| && rest[k] == y;
        }
      }
    }
  }

  /** The sorted copy: ordered by key and a permutation of the input. */
  function SortBy<T(==)>(s: seq<T>, key: T -> string): (r: seq<T>)
    ensures SortedBy(r, key)
    ensures multiset(r) == multiset(s)
    ensures |r| == |s|
  {
    if |s| == 0 then []
    else
      assert s == [s[0]] + s[1..];
      Insert(s[0], SortBy(s[1..], key), key)
  }

  /** Inserting `x` keeps, among the elements `q` picks out, the order
      they would have with `x` in front: every element `x` passes has a
      smaller key, so none of them shares the one key `q` allows. */
  lemma {:induction false} InsertStable<T>(x: T, s: seq<T>, key: T -> string, q: T -> bool, k: string)
    requires SortedBy(s, key)
    requires forall y :: q(y) ==> key(y) == k
    ensures Filter(Insert(x, s, key), q) == Filter([x] + s, q)
  {
    if |s| > 0 && !LexLe(key(x), key(s[0])) {
      InsertStable(x, s[1..], key, q, k);
      var t := Insert(x, s[1..], key);
      assert ([s[0]] + t)[1..] == t;
      assert ([x] + s)[1..] == s && ([x] + s[1..])[1..] == s[1..];
      assert ([s[0]] + t)[0] == s[0];
      if q(x) {
        assert !q(s[0]);
      }
    }
  }

  /** The sort is stable: the elements of any one key keep their input
      order. Stated for every `q` that only picks elements of key `k`. */
  lemma {:induction false} SortByStable<T>(s: seq<T>, key: T -> string, q: T -> bool, k: string)
    requires forall y :: q(y) ==> key(y) == k
    ensures Filter(SortBy(s, key), q) == Filter(s, q)
  {
    if |s| > 0 {
      SortByStable(s[1..], key, q, k);
      InsertStable(s[0], SortBy(s[1..], key), key, q, k);
      var t := SortBy(s[1..], key);
      assert ([s[0]] + t)[1..] == t && ([s[0]] + t)[0] == s[0];
    }
  }

  /** `x` is, among the elements of `s` meeting `p` whose key is the
      least, the first in input order. */
  predicate FirstOfLeast<T(==)>(s: seq<T>, key: T -> string, p: T -> bool, x: T) {
    exists i :: 0 <= i < |s| && s[i] == x && p(x)
      && (forall j :: 0 <= j < |s| && p(s[j]) ==> LexLe(key(x), key(s[j])))
      && forall j :: 0 <= j < i ==> !(p(s[j]) && key(s[j]) == key(x))
  }

  /** `x` is, among the elements of `s` meeting `p` whose key is the
      greatest, the last in input order. */
  predicate LastOfGreatest<T(==)>(s: seq<T>, key: T -> string, p: T -> bool, x: T) {
    exists i :: 0 <= i < |s| && s[i] == x && p(x)
      && (forall j :: 0 <= j < |s| && p(s[j]) ==> LexLe(key(s[j]), key(x)))
      && forall j :: i < j < |s| ==> !(p(s[j]) && key(s[j]) == key(x))
  }

  /** `p` holding and the key being `k`. */
  function AndKey<T>(p: T -> bool, key: T -> string, k: string): T -> bool {
    (y: T) => p(y) && key(y) == k
  }

  /** `sorted.find(p)`: the first element of the sorted copy meeting `p`
      is the first such input element of the least key among them. */
  lemma SortByFirstMatch<T>(s: seq<T>, key: T -> string, p: T -> bool)
    requires FindIndex(SortBy(s, key), p).Some?
    ensures FirstOfLeast(s, key, p, SortBy(s, key)[FindIndex(SortBy(s, key), p).value])
  {
    var r := SortBy(s, key);
    var n := FindIndex(r, p).value;
    SortByStable(s, key, AndKey(p, key, key(r[n])), key(r[n]));
    FirstMatchOf(s, r, key, p, n);
  }

  lemma FirstMatchOf<T>(s: seq<T>, r: seq<T>, key: T -> string, p: T -> bool, n: nat)
    requires SortedBy(r, key) && multiset(r) == multiset(s)
    requires FindIndex(r, p) == Some(n)
    requires Filter(r, AndKey(p, key, key(r[n]))) == Filter(s, AndKey(p, key, key(r[n])))
    ensures FirstOfLeast(s, key, p, r[n])
  {
    var q := AndKey(p, key, key(r[n]));
    FirstMatchAgain(r, p, q, n);
    SameFilterSameFirst(r, s, q, n);
    var i := FindIndex(s, q).value;
    LeastOfMatches(s, r, key, p, n);
    forall j | 0 <= j < i ensures !(p(s[j]) && key(s[j]) == key(r[n])) {
      assert !q(s[j]);
    }
  }

  /** Two sequences a filter maps to the same result have the same first
      match. */
  lemma SameFilterSameFirst<T>(r: seq<T>, s: seq<T>, q: T -> bool, n: nat)
    requires Filter(r, q) == Filter(s, q)
    requires FindIndex(r, q) == Some(n)
    ensures FindIndex(s, q).Some? && s[FindIndex(s, q).value] == r[n]
  {
    FilterFirst(r, q);
    var y := Filter(s, q)[0];
    var j :| 0 <= j < |s| && s[j] == y;
    assert q(s[j]);
    FilterFirst(s, q);
  }

  /** Two sequences a filter maps to the same result have the same last
      match. */
  lemma SameFilterSameLast<T>(r: seq<T>, s: seq<T>, q: T -> bool, n: nat)
    requires Filter(r, q) == Filter(s, q)
    requires FindLastIndex(r, q) == Some(n)
    ensures FindLastIndex(s, q).Some? && s[FindLastIndex(s, q).value] == r[n]
  {
    FilterLast(r, q);
    var y := Filter(s, q)[0];
    var j :| 0 <= j < |s| && s[j] == y;
    assert q(s[j]);
    FilterLast(s, q);
  }

  /** The first match of `p` also comes first among the matches of a
      narrower `q` that it meets. */
  lemma FirstMatchAgain<T>(r: seq<T>, p: T -> bool, q: T -> bool, n: nat)
    requires FindIndex(r, p) == Some(n)
    requires forall y :: q(y) ==> p(y)
    requires q(r[n])
    ensures FindIndex(r, q) == Some(n)
  {
    var n' := FindIndex(r, q).value;
  }

  /** The last match of `p` also comes last among the matches of a
      narrower `q` that it meets. */
  lemma LastMatchAgain<T>(r: seq<T>, p: T -> bool, q: T -> bool, n: nat)
    requires FindLastIndex(r, p) == Some(n)
    requires forall y :: q(y) ==> p(y)
    requires q(r[n])
    ensures FindLastIndex(r, q) == Some(n)
  {
    var n' := FindLastIndex(r, q).value;
  }

  /** In a sorted sequence the first match has the least key of all
      matches, of `r` and so of any sequence with the same elements. */
  lemma LeastOfMatches<T>(s: seq<T>, r: seq<T>, key: T -> string, p: T -> bool, n: nat)
    requires SortedBy(r, key) && multiset(r) == multiset(s)
    requires FindIndex(r, p) == Some(n)
    ensures forall j :: 0 <= j < |s| && p(s[j]) ==> LexLe(key(r[n]), key(s[j]))
  {
    forall j | 0 <= j < |s| && p(s[j]) ensures LexLe(key(r[n]), key(s[j])) {
      assert s[j] in multiset(r);
      var t :| 0 <= t < |r| && r[t] == s[j];
    }
  }

  /** In a sorted sequence the last match has the greatest key of all
      matches. */
  lemma GreatestOfMatches<T>(s: seq<T>, r: seq<T>, key: T -> string, p: T -> bool, n: nat)
    requires SortedBy(r, key) && multiset(r) == multiset(s)
    requires FindLastIndex(r, p) == Some(n)
    ensures forall j :: 0 <= j < |s| && p(s[j]) ==> LexLe(key(s[j]), key(r[n]))
  {
    forall j | 0 <= j < |s| && p(s[j]) ensures LexLe(key(s[j]), key(r[n])) {
      assert s[j] in multiset(r);
      var t :| 0 <= t < |r| && r[t] == s[j];
    }
  }

  /** The last element of the sorted copy meeting `p` is the last such
      input element of the greatest key among them. */
  lemma SortByLastMatch<T>(s: seq<T>, key: T -> string, p: T -> bool)
    requires FindLastIndex(SortBy(s, key), p).Some?
    ensures LastOfGreatest(s, key, p, SortBy(s, key)[FindLastIndex(SortBy(s, key), p).value])
  {
    var r := SortBy(s, key);
    var n := FindLastIndex(r, p).value;
    SortByStable(s, key, AndKey(p, key, key(r[n])), key(r[n]));
    LastMatchOf(s, r, key, p, n);
  }

  lemma LastMatchOf<T>(s: seq<T>, r: seq<T>, key: T -> string, p: T -> bool, n: nat)
    requires SortedBy(r, key) && multiset(r) == multiset(s)
    requires FindLastIndex(r, p) == Some(n)
    requires Filter(r, AndKey(p, key, key(r[n]))) == Filter(s, AndKey(p, key, key(r[n])))
    ensures LastOfGreatest(s, key, p, r[n])
  {
    var q := AndKey(p, key, key(r[n]));
    LastMatchAgain(r, p, q, n);
    SameFilterSameLast(r, s, q, n);
    var i := FindLastIndex(s, q).value;
    GreatestOfMatches(s, r, key, p, n);
    forall j | i < j < |s| ensures !(p(s[j]) && key(s[j]) == key(r[n])) {
      assert !q(s[j]);
    }
  }

  /** A sum over the rows does not depend on their order. */
  lemma {:induction false} SumByInsert<T>(x: T, s: seq<T>, key: T -> string, f: T -> int)
    requires SortedBy(s, key)
    ensures SumBy(Insert(x, s, key), f) == f(x) + SumBy(s, f)
  {
    if |s| > 0 && !LexLe(key(x), key(s[0])) {
      SumByInsert(x, s[1..], key, f);
    }
  }

  lemma {:induction false} SumBySort<T>(s: seq<T>, key: T -> string, f: T -> int)
    ensures SumBy(SortBy(s, key), f) == SumBy(s, f)
  {
    if |s| > 0 {
      SumBySort(s[1..], key, f);
      SumByInsert(s[0], SortBy(s[1..], key), key, f);
    }
  }

  /** Every element of the sorted copy comes from the input and back. */
  lemma SortByMembers<T>(s: seq<T>, key: T -> string)
    ensures forall i :: 0 <= i < |s| ==> s[i] in SortBy(s, key)
    ensures forall i :: 0 <= i < |SortBy(s, key)| ==> SortBy(s, key)[i] in s
  {
    var r := SortBy(s, key);
    forall i | 0 <= i < |s| ensures s[i] in r { assert s[i] in multiset(s); }
    forall i | 0 <= i < |r| ensures r[i] in s { assert r[i] in multiset(r); }
  }

  /** In a sorted sequence the first key is the least and the last the
      greatest. */
  lemma SortedEnds<T>(s: seq<T>, key: T -> string)
    requires SortedBy(s, key) && |s| > 0
    ensures forall i :: 0 <= i < |s| ==> LexLe(key(s[0]), key(s[i])) && LexLe(key(s[i]), key(s[|s| - 1]))
  {
  }

  // ---------------------------------------------------------------------
  // Sorted distinct keys

  predicate StrictlySorted(s: seq<string>) {
    forall i, j :: 0 <= i < j < |s| ==> LexLt(s[i], s[j])
  }

  /** Inserts `x` into a strictly sorted sequence unless it is already there. */
  function InsertUnique(x: string, s: seq<string>): (r: seq<string>)
    requires StrictlySorted(s)
    ensures StrictlySorted(r)
    ensures forall y :: y in r <==> y == x || y in s
  {
    if |s| == 0 then [x]
    else if x == s[0] then s
    else if LexLt(x, s[0]) then
      assert forall j :: 0 < j < |s| ==> LexLt(x, s[j]) by {
        forall j | 0 < j < |s| ensures LexLt(x, s[j]) { LexLtTransitive(x, s[0], s[j]); }
      }
      [x] + s
    else
      var t := InsertUnique(x, s[1..]);
      LexLtTotal(x, s[0]);
      assert s == [s[0]] + s[1..];
      assert forall j :: 0 <= j < |t| ==> LexLt(s[0], t[j]) by {
        forall j | 0 <= j < |t| ensures LexLt(s[0], t[j]) {
          assert t[j] in t;
          if t[j] != x { var k :| 0 <= k < |s[1..]| && s[1..][k] == t[j]; }
        }
      }
      [s[0]] + t
  }

  /** The distinct values of `s` in ascending order: the months of
      `Object.values(byMonth).sort(...)`, which are distinct object keys. */
  function SortedUnique(s: seq<string>): (r: seq<string>)
    ensures StrictlySorted(r)
    ensures forall y :: y in r <==> y in s
  {
    if |s| == 0 then []
    else
      var r := InsertUnique(s[|s| - 1], SortedUnique(s[..|s| - 1]));
      assert s == s[..|s| - 1] + [s[|s| - 1]];
      r
  }

  /** A strictly sorted sequence has no duplicates. */
  lemma StrictlySortedNoDups(s: seq<string>)
    requires StrictlySorted(s)
    ensures NoDups(s)
  {
    forall i, j | 0 <= i < j < |s| ensures s[i] != s[j] { LexLtIrreflexive(s[i]); }
  }
}
