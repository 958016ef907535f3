/** Months as the UI writes them, `YYYY-MM`, and the calendar months
    JavaScript's `Date` constructor produces.

    `src/components/DateRangePickerPopover.jsx` validates typed bounds with
    `isValidYM` and turns a bound back into a `Date` with `fromYM`;
    `src/hooks/useChartFilters.js` formats default bounds from the clock.
    Both sides meet here: for valid months, comparing the strings is
    comparing the months in time. */
module YearMonth {
  import opened Text

  /** `/^\d{4}-(0[1-9]|1[0-2])$/.test(v)`: four digits, a dash, and a month
      from `01` to `12`, nothing before or after. */
  predicate IsValidYM(v: string) {
    && |v| == 7
    && AllDigits(v[..4]) && v[4] == '-'
    && ((v[5] == '0' && '1' <= v[6] <= '9') || (v[5] == '1' && '0' <= v[6] <= '2'))
  }

  /** The year a valid month names. */
  function YearOf(v: string): (y: nat)
    requires IsValidYM(v)
    ensures y < 10000
  {
    ParseDigitsBound(v[..4]);
    ParseDigits(v[..4])
  }

  /** The month a valid month names, counted from 1. */
  function MonthOf(v: string): (m: nat)
    requires IsValidYM(v)
    ensures 1 <= m <= 12
  {
    assert AllDigits(v[5..]);
    TwoDigits(v[5..]);
    ParseDigits(v[5..])
  }

  /** The number of months from January of year 0 to the month named. */
  function Ordinal(v: string): (n: nat)
    requires IsValidYM(v)
  {
    YearOf(v) * 12 + MonthOf(v) - 1
  }

  /** Among strings of the right shape, exactly the ones whose month lies
      in 1..12 pass. */
  lemma ValidMeansMonth(v: string)
    requires |v| == 7 && AllDigits(v[..4]) && v[4] == '-' && AllDigits(v[5..])
    ensures IsValidYM(v) <==> 1 <= ParseDigits(v[5..]) <= 12
  {
    TwoDigits(v[5..]);
    DigitValueCode(v[5]);
    DigitValueCode(v[6]);
  }

  /** For valid months, string order is time order, and equal strings are
      equal months. */
  lemma Chronological(a: string, b: string)
    requires IsValidYM(a) && IsValidYM(b)
    ensures LexLt(a, b) <==> Ordinal(a) < Ordinal(b)
    ensures a == b <==> Ordinal(a) == Ordinal(b)
  {
    assert a == a[..4] + a[4..] && b == b[..4] + b[4..];
    LexLtConcat(a[..4], a[4..], b[..4], b[4..]);
    assert a[4..][1..] == a[5..] && b[4..][1..] == b[5..];
    assert LexLt(a[4..], b[4..]) == LexLt(a[5..], b[5..]);
    assert AllDigits(a[5..]) && AllDigits(b[5..]);
    LexLtDigits(a[..4], b[..4]);
    LexLtDigits(a[5..], b[5..]);
    DigitsInjective(a[..4], b[..4]);
    DigitsInjective(a[5..], b[5..]);
    assert a == b <==> a[..4] == b[..4] && a[5..] == b[5..] by {
      if a[..4] == b[..4] && a[5..] == b[5..] {
        assert a == a[..4] + "-" + a[5..] && b == b[..4] + "-" + b[5..];
      }
    }
  }

  /** A string ending in a dash and a two-digit month from `01` to `12`. */
  predicate EndsInMonth(t: string) {
    |t| >= 4 && t[|t| - 3] == '-' && AllDigits(t[|t| - 2..]) && 1 <= ParseDigits(t[|t| - 2..]) <= 12
  }

  /** `` `${year}-${String(index + 1).padStart(2, '0')}` ``: the year as
      `String` prints it, the month counted from 0 and padded to two
      digits. */
  function Format(year: int, index: nat): (v: string)
    ensures index < 12 ==> EndsInMonth(v) && ParseDigits(v[|v| - 2..]) == index + 1
  {
    var y := IntToString(year);
    var m := Pad2(index + 1);
    var v := y + "-" + m;
    if index < 12 then
      assert v[|v| - 2..] == m;
      TwoDigits(m);
      v
    else v
  }

  /** A four-digit year formats to seven characters: the year's digits, a
      dash, the month's two digits. */
  lemma FormatLayout(year: int, index: nat)
    requires 1000 <= year <= 9999 && index < 12
    ensures var v := Format(year, index);
      |v| == 7 && v[..4] == NatToString(year) && v[4] == '-' && v[5..] == v[|v| - 2..]
  {
    var y := NatToString(year);
    var m := Pad2(index + 1);
    FourDigits(year);
    assert |y| == 4 && |m| == 2;
    var v := y + "-" + m;
    FormatIs(year, index);
    assert v[..4] == y && v[4] == '-';
    assert v[5..] == m && v[|v| - 2..] == m;
  }

  lemma FormatIs(year: int, index: nat)
    ensures Format(year, index) == IntToString(year) + "-" + Pad2(index + 1)
  {
  }

  /** A four-digit year formats to a valid month naming that year and
      month. */
  lemma FormatValid(year: int, index: nat)
    requires 1000 <= year <= 9999 && index < 12
    ensures IsValidYM(Format(year, index))
    ensures YearOf(Format(year, index)) == year && MonthOf(Format(year, index)) == index + 1
    ensures Ordinal(Format(year, index)) == year * 12 + index
  {
    var v := Format(year, index);
    FormatLayout(year, index);
    ValidMeansMonth(v);
  }

  // ---------------------------------------------------------------------
  // Calendar months

  /** The first day of a month: a year and a month index. */
  datatype MonthStart = MonthStart(year: int, index: int)

  /** A date's own month index lies in 0..11. */
  predicate Normal(d: MonthStart) {
    0 <= d.index < 12
  }

  /** Months from January of year 0. */
  function Count(d: MonthStart): int {
    d.year * 12 + d.index
  }

  /** The year `new Date(year, …)` uses: 0 to 99 mean 1900 to 1999. */
  function JsYear(year: int): (y: int)
    ensures 0 <= year <= 99 ==> y == 1900 + year
    ensures !(0 <= year <= 99) ==> y == year
  {
    if 0 <= year <= 99 then 1900 + year else year
  }

  /** `new Date(year, index, 1)`: an index outside 0..11 moves into earlier
      or later years. */
  function MakeDate(year: int, index: int): (d: MonthStart)
    ensures Normal(d)
    ensures Count(d) == JsYear(year) * 12 + index
  {
    var total := JsYear(year) * 12 + index;
    MonthStart(total / 12, total % 12)
  }

  /** A normal month is the only normal month with its count. */
  lemma CountInjective(d: MonthStart, e: MonthStart)
    requires Normal(d) && Normal(e) && Count(d) == Count(e)
    ensures d == e
  {
    assert d.year == Count(d) / 12 && e.year == Count(e) / 12;
  }

  /** What `fromYM` gives back. */
  datatype Parsed =
    | Undefined
    | Date(month: MonthStart)
    /** A non-empty string that is not a valid month: `Number` conversion
        of its parts is outside this model. */
    | Unparsed

  /** `fromYM(s)`: `undefined` for `''`, otherwise the first day of the
      month `s` names. */
  function FromYM(s: string): (r: Parsed)
    ensures r.Undefined? <==> s == ""
    ensures r.Date? <==> IsValidYM(s)
    ensures r.Date? ==> Normal(r.month) && Count(r.month) == JsYear(YearOf(s)) * 12 + MonthOf(s) - 1
  {
    if s == "" then Undefined
    else if IsValidYM(s) then Date(MakeDate(YearOf(s), MonthOf(s) - 1))
    else Unparsed
  }

  /** From year 100 on, `fromYM` lands on the month the string names; years
      0000 to 0099 land in the twentieth century. */
  lemma FromYMMonth(s: string)
    requires IsValidYM(s)
    ensures YearOf(s) >= 100 ==> FromYM(s) == Date(MonthStart(YearOf(s), MonthOf(s) - 1))
    ensures YearOf(s) < 100 ==> FromYM(s) == Date(MonthStart(1900 + YearOf(s), MonthOf(s) - 1))
  {
    var d := FromYM(s).month;
    if YearOf(s) >= 100 {
      CountInjective(d, MonthStart(YearOf(s), MonthOf(s) - 1));
    } else {
      CountInjective(d, MonthStart(1900 + YearOf(s), MonthOf(s) - 1));
    }
  }
}
