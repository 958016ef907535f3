/** String helpers shared by the whole model: JavaScript's whitespace and
    `trim`, prefix and suffix tests, `indexOf`, `split`/`join` on one
    character, decimal rendering of numbers, `padStart`, and the code-unit
    lexicographic order that `<`, `>` and `localeCompare` induce on the
    month strings the application sorts.

    A Dafny `char` is a Unicode scalar value while a JavaScript string is a
    sequence of UTF-16 code units; the two agree on every string outside the
    astral planes, which is all this model needs. */
module Text {

  import opened Base

  /** JavaScript's WhiteSpace and LineTerminator characters, the set that
      `String.prototype.trim` removes. */
  predicate IsWs(c: char) {
    || c == ' ' || c == '\t' || c == '\n' || c == '\r'
    || c == '\U{000B}' || c == '\U{000C}' || c == '\U{00A0}' || c == '\U{1680}'
    || ('\U{2000}' <= c <= '\U{200A}')
    || c == '\U{2028}' || c == '\U{2029}' || c == '\U{202F}' || c == '\U{205F}'
    || c == '\U{3000}' || c == '\U{FEFF}'
  }

  predicate AllWs(s: string) {
    forall i :: 0 <= i < |s| ==> IsWs(s[i])
  }

  /** Drops the longest all-whitespace prefix. */
  function TrimStart(s: string): (r: string)
    ensures |r| <= |s| && r == s[|s| - |r|..]
    ensures forall k :: 0 <= k < |s| - |r| ==> IsWs(s[k])
    ensures r == [] || !IsWs(r[0])
  {
    if |s| == 0 || !IsWs(s[0]) then s
    else
      var r := TrimStart(s[1..]);
      assert forall k :: 1 <= k < |s| ==> s[k] == s[1..][k - 1];
      r
  }

  /** Drops the longest all-whitespace suffix. */
  function TrimEnd(s: string): (r: string)
    ensures |r| <= |s| && r == s[..|r|]
    ensures forall k :: |r| <= k < |s| ==> IsWs(s[k])
    ensures r == [] || !IsWs(r[|r| - 1])
  {
    if |s| == 0 || !IsWs(s[|s| - 1]) then s
    else
      var r := TrimEnd(s[..|s| - 1]);
      assert forall k :: 0 <= k < |s| - 1 ==> s[k] == s[..|s| - 1][k];
      r
  }

  /** `r` is the infix of `s` at `i`, and everything outside it is
      whitespace. */
  predicate Framed(s: string, i: int, r: string) {
    && 0 <= i <= |s| - |r| && r == s[i..i + |r|]
    && (forall k :: 0 <= k < i ==> IsWs(s[k]))
    && (forall k :: i + |r| <= k < |s| ==> IsWs(s[k]))
  }

  /** `s.trim()`: the longest infix with no whitespace at either end. */
  function Trim(s: string): (r: string)
    ensures exists i :: Framed(s, i, r)
    ensures r == [] || (!IsWs(r[0]) && !IsWs(r[|r| - 1]))
  {
    var t := TrimStart(s);
    var r := TrimEnd(t);
    TrimFramed(s);
    TrimEnds(s);
    assert Framed(s, |s| - |t|, r);
    r
  }

  lemma TrimFramed(s: string)
    ensures var t := TrimStart(s); Framed(s, |s| - |t|, TrimEnd(t))
  {
    TrimInfix(s);
    TrimTail(s);
  }

  lemma TrimInfix(s: string)
    ensures var t := TrimStart(s); var r := TrimEnd(t);
      0 <= |s| - |t| <= |s| - |r| && r == s[|s| - |t|..|s| - |t| + |r|]
  {
    var t := TrimStart(s);
    SliceOfSlice(s, |s| - |t|, |TrimEnd(t)|);
  }

  lemma TrimTail(s: string)
    ensures var t := TrimStart(s); var r := TrimEnd(t);
      forall k :: |s| - |t| + |r| <= k < |s| ==> IsWs(s[k])
  {
    var t := TrimStart(s);
    var r := TrimEnd(t);
    var i := |s| - |t|;
    assert t == s[i..];
    forall k | i + |r| <= k < |s| ensures IsWs(s[k]) {
      assert |r| <= k - i < |t|;
      assert IsWs(t[k - i]);
      assert s[k] == t[k - i];
    }
  }

  lemma SliceOfSlice(s: string, i: nat, k: nat)
    requires i + k <= |s|
    ensures s[i..][..k] == s[i..i + k]
  {
  }

  lemma TrimEnds(s: string)
    ensures var r := TrimEnd(TrimStart(s)); r == [] || (!IsWs(r[0]) && !IsWs(r[|r| - 1]))
  {
    var t := TrimStart(s);
    var r := TrimEnd(t);
    if r != [] {
      assert r[0] == t[0];
    }
  }

  /** An empty trim result means the string was whitespace only. */
  lemma TrimEmptyIffAllWs(s: string)
    ensures Trim(s) == [] <==> AllWs(s)
  {
    var r := Trim(s);
    if r == [] {
      var i :| Framed(s, i, r);
      forall k | 0 <= k < |s| ensures IsWs(s[k]) {
        assert k < i || i + |r| <= k;
      }
    }
  }

  /** A string with no whitespace at either end is its own trim. */
  lemma TrimOfTrimmed(s: string)
    requires s == [] || (!IsWs(s[0]) && !IsWs(s[|s| - 1]))
    ensures Trim(s) == s
  {
  }

  /** Trimming twice changes nothing. */
  lemma TrimIdempotent(s: string)
    ensures Trim(Trim(s)) == Trim(s)
  {
    TrimOfTrimmed(Trim(s));
  }

  /** `s.indexOf(c)`: the first position of `c`, if any. */
  function IndexOf(s: string, c: char): (r: Option<nat>)
    ensures r.None? <==> c !in s
    ensures r.Some? ==> r.value < |s| && s[r.value] == c && c !in s[..r.value]
  {
    if |s| == 0 then None
    else if s[0] == c then Some(0)
    else match IndexOf(s[1..], c)
      case None => None
      case Some(k) => assert s[..k + 1] == [s[0]] + s[1..][..k]; Some(k + 1)
  }

  /** `s.lastIndexOf(c)`: the last position of `c`, if any. */
  function LastIndexOf(s: string, c: char): (r: Option<nat>)
    ensures r.None? <==> c !in s
    ensures r.Some? ==> r.value < |s| && s[r.value] == c && c !in s[r.value + 1..]
  {
    if |s| == 0 then None
    else if s[|s| - 1] == c then Some(|s| - 1)
    else match LastIndexOf(s[..|s| - 1], c)
      case None => None
      case Some(k) => assert s[k + 1..] == s[..|s| - 1][k + 1..] + [s[|s| - 1]]; Some(k)
  }

  /** `s.split(c)`: the maximal runs between occurrences of `c`. */
  function Split(s: string, c: char): (parts: seq<string>)
    ensures |parts| >= 1
    ensures forall i :: 0 <= i < |parts| ==> c !in parts[i]
    decreases |s|
  {
    match IndexOf(s, c)
    case None => [s]
    case Some(k) => [s[..k]] + Split(s[k + 1..], c)
  }

  /** `parts.join(c)`. */
  function Join(parts: seq<string>, c: char): string
  {
    if |parts| == 0 then ""
    else if |parts| == 1 then parts[0]
    else parts[0] + [c] + Join(parts[1..], c)
  }

  /** Splitting and joining on the same character gives the string back. */
  lemma {:induction false} JoinSplit(s: string, c: char)
    ensures Join(Split(s, c), c) == s
    decreases |s|
  {
    match IndexOf(s, c)
    case None =>
    case Some(k) =>
      var rest := Split(s[k + 1..], c);
      JoinSplit(s[k + 1..], c);
      assert Split(s, c) == [s[..k]] + rest;
      assert Join([s[..k]] + rest, c) == s[..k] + [c] + Join(rest, c);
      assert s == s[..k] + [c] + s[k + 1..];
  }

  /** The first piece of a split is the text before the first separator. */
  lemma SplitHead(s: string, c: char)
    ensures Split(s, c)[0] == (match IndexOf(s, c) case None => s case Some(k) => s[..k])
  {
  }

  // ---------------------------------------------------------------------
  // Decimal numbers

  predicate IsDigit(c: char) {
    '0' <= c <= '9'
  }

  predicate AllDigits(s: string) {
    forall i :: 0 <= i < |s| ==> IsDigit(s[i])
  }

  function DigitChar(d: nat): (c: char)
    requires d < 10
    ensures IsDigit(c)
  {
    ['0', '1', '2', '3', '4', '5', '6', '7', '8', '9'][d]
  }

  function DigitValue(c: char): (d: nat)
    requires IsDigit(c)
    ensures d < 10 && DigitChar(d) == c
  {
    if c == '0' then 0 else if c == '1' then 1 else if c == '2' then 2
    else if c == '3' then 3 else if c == '4' then 4 else if c == '5' then 5
    else if c == '6' then 6 else if c == '7' then 7 else if c == '8' then 8 else 9
  }

  /** The value of a string of decimal digits (most significant first). */
  function ParseDigits(s: string): (n: nat)
    requires AllDigits(s)
  {
    if |s| == 0 then 0 else 10 * ParseDigits(s[..|s| - 1]) + DigitValue(s[|s| - 1])
  }

  /** `String(n)` for a non-negative integer: shortest decimal form. */
  function NatToString(n: nat): (s: string)
    ensures |s| >= 1 && AllDigits(s)
    ensures s[0] == '0' ==> n == 0 && s == "0"
    ensures ParseDigits(s) == n
  {
    if n < 10 then [DigitChar(n)]
    else
      var p := NatToString(n / 10);
      var s := p + [DigitChar(n % 10)];
      assert s[..|s| - 1] == p;
      s
  }

  /** Two numbers with the same rendering are equal. */
  lemma NatToStringInjective(a: nat, b: nat)
    ensures NatToString(a) == NatToString(b) ==> a == b
  {
  }

  /** `String(i)` for any integer. */
  function IntToString(i: int): (s: string)
    ensures |s| >= 1
    ensures i >= 0 ==> s == NatToString(i)
    ensures i < 0 ==> s == "-" + NatToString(-i)
  {
    if i >= 0 then NatToString(i) else "-" + NatToString(-i)
  }

  /** `n` copies of `c`. */
  function Repeat(c: char, n: nat): (r: string)
    ensures |r| == n && forall i :: 0 <= i < n ==> r[i] == c
  {
    if n == 0 then [] else Repeat(c, n - 1) + [c]
  }

  /** `s.padStart(width, c)`. */
  function PadStart(s: string, width: nat, c: char): (r: string)
    ensures |r| == if |s| >= width then |s| else width
    ensures r == Repeat(c, |r| - |s|) + s
  {
    if |s| >= width then s else Repeat(c, width - |s|) + s
  }

  /** `String(n).padStart(2, '0')`. */
  function Pad2(n: nat): (s: string)
    ensures n < 100 ==> |s| == 2 && AllDigits(s) && 10 * DigitValue(s[0]) + DigitValue(s[1]) == n
  {
    var r := PadStart(NatToString(n), 2, '0');
    if n < 10 then Pad2One(n); r
    else if n < 100 then Pad2Two(n); r
    else r
  }

  /** The digit a digit character stands for is the one it was made from. */
  lemma DigitRoundTrip(d: nat)
    requires d < 10
    ensures IsDigit(DigitChar(d)) && DigitValue(DigitChar(d)) == d
  {
    var c := DigitChar(d);
    DigitValueCode(c);
    assert c as int == '0' as int + d;
  }

  lemma Pad2One(n: nat)
    requires n < 10
    ensures var r := PadStart(NatToString(n), 2, '0');
      |r| == 2 && AllDigits(r) && 10 * DigitValue(r[0]) + DigitValue(r[1]) == n
  {
    var t := NatToString(n);
    assert t == [DigitChar(n)];
    var r := PadStart(t, 2, '0');
    assert r == ['0', DigitChar(n)];
  }

  lemma Pad2Two(n: nat)
    requires 10 <= n < 100
    ensures var r := PadStart(NatToString(n), 2, '0');
      |r| == 2 && AllDigits(r) && 10 * DigitValue(r[0]) + DigitValue(r[1]) == n
  {
    var t := NatToString(n);
    assert NatToString(n / 10) == [DigitChar(n / 10)];
    assert t == NatToString(n / 10) + [DigitChar(n % 10)];
    assert |t| == 2 && PadStart(t, 2, '0') == t;
    DigitRoundTrip(n / 10);
    DigitRoundTrip(n % 10);
  }

  function Pow10(n: nat): (p: nat)
    ensures p >= 1
  {
    if n == 0 then 1 else 10 * Pow10(n - 1)
  }

  /** A string of `n` digits is below `10^n`. */
  lemma {:induction false} ParseDigitsBound(s: string)
    requires AllDigits(s)
    ensures ParseDigits(s) < Pow10(|s|)
  {
    if |s| > 0 {
      ParseDigitsBound(s[..|s| - 1]);
    }
  }

  /** The leading digit weighs `10^(n-1)`. */
  lemma {:induction false} ParseDigitsFront(s: string)
    requires AllDigits(s) && |s| > 0
    ensures ParseDigits(s) == DigitValue(s[0]) * Pow10(|s| - 1) + ParseDigits(s[1..])
  {
    if |s| > 1 {
      var init, t := s[..|s| - 1], s[1..];
      ParseDigitsFront(init);
      assert init[1..] == t[..|t| - 1];
      assert init[0] == s[0] && t[|t| - 1] == s[|s| - 1];
      var d, p, x, l := DigitValue(s[0]), Pow10(|s| - 2), ParseDigits(init[1..]), DigitValue(s[|s| - 1]);
      assert ParseDigits(s) == 10 * ParseDigits(init) + l;
      assert ParseDigits(t) == 10 * x + l;
      assert Pow10(|s| - 1) == 10 * p;
      ShiftDigit(d, p, x, l);
    } else {
      assert s[1..] == [] && s[..0] == [];
    }
  }

  lemma ShiftDigit(d: int, p: int, x: int, l: int)
    ensures 10 * (d * p + x) + l == d * (10 * p) + (10 * x + l)
  {
  }

  /** A digit's value follows its code. */
  lemma DigitValueCode(c: char)
    requires IsDigit(c)
    ensures DigitValue(c) == c as int - '0' as int
  {
  }

  /** A smaller leading digit makes a smaller value, whatever follows. */
  lemma LeadingDigitDecides(a: string, b: string)
    requires AllDigits(a) && AllDigits(b) && |a| == |b| > 0
    requires DigitValue(a[0]) < DigitValue(b[0])
    ensures ParseDigits(a) < ParseDigits(b)
  {
    ParseDigitsFront(a);
    ParseDigitsFront(b);
    ParseDigitsBound(a[1..]);
    WeightedLess(DigitValue(a[0]), DigitValue(b[0]), ParseDigits(a[1..]), ParseDigits(b[1..]), Pow10(|a| - 1));
  }

  lemma WeightedLess(da: nat, db: nat, ra: nat, rb: nat, p: nat)
    requires da < db && ra < p
    ensures da * p + ra < db * p + rb
  {
    var k := db - da;
    assert db * p == da * p + k * p;
    assert k * p >= p by { assert k * p == (k - 1) * p + p; }
  }

  /** Between digit strings of one length, `<` on strings is `<` on their
      values. */
  lemma {:induction false} LexLtDigits(a: string, b: string)
    requires AllDigits(a) && AllDigits(b) && |a| == |b|
    ensures LexLt(a, b) <==> ParseDigits(a) < ParseDigits(b)
  {
    if |a| > 0 {
      DigitValueCode(a[0]);
      DigitValueCode(b[0]);
      if a[0] < b[0] {
        LeadingDigitDecides(a, b);
      } else if b[0] < a[0] {
        LeadingDigitDecides(b, a);
      } else {
        ParseDigitsFront(a);
        ParseDigitsFront(b);
        LexLtDigits(a[1..], b[1..]);
      }
    }
  }

  /** Digit strings of one length with the same value are the same. */
  lemma DigitsInjective(a: string, b: string)
    requires AllDigits(a) && AllDigits(b) && |a| == |b|
    ensures a == b <==> ParseDigits(a) == ParseDigits(b)
  {
    LexLtTotal(a, b);
    LexLtDigits(a, b);
    LexLtDigits(b, a);
  }

  /** Printing a number of two or more digits prints its tenth, then one
      digit. */
  lemma NatToStringStep(n: nat)
    requires n >= 10
    ensures |NatToString(n)| == |NatToString(n / 10)| + 1
  {
  }

  /** A number from 1000 to 9999 prints as four digits. */
  lemma FourDigits(n: nat)
    requires 1000 <= n <= 9999
    ensures |NatToString(n)| == 4
  {
    var a := n / 10;
    var b := a / 10;
    var c := b / 10;
    assert 100 <= a && 10 <= b && 1 <= c < 10;
    NatToStringStep(n);
    NatToStringStep(a);
    NatToStringStep(b);
  }

  /** The value of two digits. */
  lemma TwoDigits(s: string)
    requires |s| == 2 && AllDigits(s)
    ensures ParseDigits(s) == 10 * DigitValue(s[0]) + DigitValue(s[1])
  {
    var head := s[..1];
    assert head[..0] == [] && head[0] == s[0];
    assert ParseDigits(head) == DigitValue(s[0]);
  }

  // ---------------------------------------------------------------------
  // Code-unit lexicographic order

  /** JavaScript's `a < b` on strings: lexicographic, a proper prefix first. */
  predicate LexLt(a: string, b: string)
  {
    if |a| == 0 then |b| > 0
    else if |b| == 0 then false
    else if a[0] != b[0] then a[0] < b[0]
    else LexLt(a[1..], b[1..])
  }

  predicate LexLe(a: string, b: string) {
    a == b || LexLt(a, b)
  }

  lemma {:induction false} LexLtIrreflexive(a: string)
    ensures !LexLt(a, a)
  {
    if |a| > 0 { LexLtIrreflexive(a[1..]); }
  }

  lemma {:induction false} LexLtTransitive(a: string, b: string, c: string)
    requires LexLt(a, b) && LexLt(b, c)
    ensures LexLt(a, c)
  {
    if |a| > 0 && |b| > 0 && |c| > 0 && a[0] == b[0] && b[0] == c[0] {
      LexLtTransitive(a[1..], b[1..], c[1..]);
    }
  }

  lemma {:induction false} LexLtTotal(a: string, b: string)
    ensures a == b || LexLt(a, b) || LexLt(b, a)
  {
    if |a| > 0 && |b| > 0 && a[0] == b[0] {
      LexLtTotal(a[1..], b[1..]);
      if a[1..] == b[1..] { assert a == [a[0]] + a[1..]; assert b == [b[0]] + b[1..]; }
    }
  }

  lemma LexLtAsymmetric(a: string, b: string)
    requires LexLt(a, b)
    ensures !LexLt(b, a)
  {
    if LexLt(b, a) { LexLtTransitive(a, b, a); LexLtIrreflexive(a); }
  }

  lemma LexLeTransitive(a: string, b: string, c: string)
    requires LexLe(a, b) && LexLe(b, c)
    ensures LexLe(a, c)
  {
    if a != b && b != c { LexLtTransitive(a, b, c); }
  }

  lemma LexLeTotal(a: string, b: string)
    ensures LexLe(a, b) || LexLe(b, a)
  {
    LexLtTotal(a, b);
  }

  lemma LexLeAntisymmetric(a: string, b: string)
    requires LexLe(a, b) && LexLe(b, a)
    ensures a == b
  {
    if a != b { LexLtAsymmetric(a, b); }
  }

  /** Comparing two strings whose heads have one length compares the heads
      first and the tails only on a tie. */
  lemma {:induction false} LexLtConcat(x: string, y: string, x': string, y': string)
    requires |x| == |x'|
    ensures LexLt(x + y, x' + y') <==> LexLt(x, x') || (x == x' && LexLt(y, y'))
  {
    if |x| == 0 {
      assert x + y == y && x' + y' == y';
    } else {
      assert (x + y)[1..] == x[1..] + y && (x' + y')[1..] == x'[1..] + y';
      LexLtConcat(x[1..], y, x'[1..], y');
      if x[0] == x'[0] && x[1..] == x'[1..] { assert x == [x[0]] + x[1..] && x' == [x'[0]] + x'[1..]; }
    }
  }
}
