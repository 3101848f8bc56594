/** The proleptic Gregorian calendar, UTC broken-down time, and the part of
    Python's `time.strptime` / `time.strftime` that the modelled code uses:
    formats made of literal characters and the numeric directives
    `%Y %m %d %H %M %S`. */
module Calendar {
  import opened Wrappers
  import opened Text
  import opened Numerals

  datatype Date = Date(year: int, month: int, day: int)

  /** A broken-down time as `time.struct_time` carries it; the derived
      weekday, day-of-year and daylight-saving fields are not represented. */
  datatype Tm = Tm(year: int, month: int, day: int, hour: int, minute: int, second: int) {
    function DateOf(): Date {
      Date(year, month, day)
    }
  }

  predicate IsLeap(y: int) {
    y % 4 == 0 && (y % 100 != 0 || y % 400 == 0)
  }

  function YearLength(y: int): int {
    if IsLeap(y) then 366 else 365
  }

  function DaysInMonth(y: int, m: int): int
    requires 1 <= m <= 12
  {
    if m == 2 then (if IsLeap(y) then 29 else 28)
    else if m == 4 || m == 6 || m == 9 || m == 11 then 30
    else 31
  }

  /** The dates Python's `datetime.date` accepts: years 1 to 9999. */
  predicate ValidDate(d: Date) {
    1 <= d.year <= 9999 && 1 <= d.month <= 12 && 1 <= d.day <= DaysInMonth(d.year, d.month)
  }

  /** A valid date with a time of day; seconds 60 and 61 are the leap seconds
      `time.struct_time` admits. */
  predicate ValidTm(tm: Tm) {
    ValidDate(tm.DateOf()) && 0 <= tm.hour <= 23 && 0 <= tm.minute <= 59 && 0 <= tm.second <= 61
  }

  /** Days from 0001-01-01 to the first day of year `y`. */
  function DaysBeforeYear(y: int): int
    requires y >= 1
  {
    var x := y - 1;
    365 * x + x / 4 - x / 100 + x / 400
  }

  /** Days from the first of January to the first day of month `m`. */
  function DaysBeforeMonth(y: int, m: int): int
    requires 1 <= m <= 12
  {
    [0, 31, 59, 90, 120, 151, 181, 212, 243, 273, 304, 334][m - 1] + (if m > 2 && IsLeap(y) then 1 else 0)
  }

  /** The number of days from 0001-01-01 to `d`. */
  function DayNumber(d: Date): int
    requires ValidDate(d)
  {
    DaysBeforeYear(d.year) + DaysBeforeMonth(d.year, d.month) + d.day - 1
  }

  lemma DaysBeforeYearNext(y: int)
    requires y >= 1
    ensures DaysBeforeYear(y + 1) == DaysBeforeYear(y) + YearLength(y)
  {
    var x := y - 1;
    assert (x + 1) / 4 == x / 4 + (if y % 4 == 0 then 1 else 0);
    assert (x + 1) / 100 == x / 100 + (if y % 100 == 0 then 1 else 0);
    assert (x + 1) / 400 == x / 400 + (if y % 400 == 0 then 1 else 0);
  }

  lemma {:induction false} DaysBeforeYearMono(a: int, b: int)
    requires 1 <= a <= b
    ensures DaysBeforeYear(a) + 365 * (b - a) <= DaysBeforeYear(b)
    decreases b - a
  {
    if a < b {
      DaysBeforeYearMono(a, b - 1);
      DaysBeforeYearNext(b - 1);
    }
  }

  lemma DaysBeforeMonthNext(y: int, m: int)
    requires 1 <= m <= 12
    ensures DaysBeforeMonth(y, m) + DaysInMonth(y, m) == if m == 12 then YearLength(y) else DaysBeforeMonth(y, m + 1)
  {
  }

  /** The day after `d`; `None` after 9999-12-31, where Python's date
      arithmetic raises OverflowError. */
  function NextDay(d: Date): (r: Option<Date>)
    requires ValidDate(d)
    ensures r.None? <==> d == Date(9999, 12, 31)
    ensures r.Some? ==> ValidDate(r.value) && DayNumber(r.value) == DayNumber(d) + 1
  {
    DaysBeforeMonthNext(d.year, d.month);
    if d.day < DaysInMonth(d.year, d.month) then Some(Date(d.year, d.month, d.day + 1))
    else if d.month < 12 then Some(Date(d.year, d.month + 1, 1))
    else if d.year < 9999 then (DaysBeforeYearNext(d.year); Some(Date(d.year + 1, 1, 1)))
    else None
  }

  /** The year containing day number `DaysBeforeYear(y) + n`, and the day's
      offset within that year. */
  function YearOf(n: int, y: int): (r: (int, int))
    requires y >= 1 && n >= 0
    ensures r.0 >= y && 0 <= r.1 < YearLength(r.0)
    ensures DaysBeforeYear(r.0) + r.1 == DaysBeforeYear(y) + n
    decreases n
  {
    if n < YearLength(y) then (y, n)
    else (DaysBeforeYearNext(y); YearOf(n - YearLength(y), y + 1))
  }

  /** The month of year `y` containing day offset `o`, searching from month `m`. */
  function MonthOf(y: int, o: int, m: int): (r: int)
    requires 1 <= m <= 12 && DaysBeforeMonth(y, m) <= o < YearLength(y)
    ensures m <= r <= 12
    ensures DaysBeforeMonth(y, r) <= o < DaysBeforeMonth(y, r) + DaysInMonth(y, r)
    decreases 12 - m
  {
    DaysBeforeMonthNext(y, m);
    if o < DaysBeforeMonth(y, m) + DaysInMonth(y, m) then m else MonthOf(y, o, m + 1)
  }

  const LastDayNumber := 3652058

  lemma LastDayNumberIs()
    ensures DaysBeforeYear(10000) == LastDayNumber + 1
  {
  }

  /** The date with a given day number. */
  function DateOfDayNumber(n: int): (d: Date)
    requires 0 <= n <= LastDayNumber
    ensures ValidDate(d) && DayNumber(d) == n
  {
    var (y, o) := YearOf(n, 1);
    assert y <= 9999 by {
      if y > 9999 {
        DaysBeforeYearMono(10000, y);
      }
    }
    var m := MonthOf(y, o, 1);
    Date(y, m, o - DaysBeforeMonth(y, m) + 1)
  }

  lemma {:induction false} YearOfStart(y0: int, y: int, o: int)
    requires 1 <= y0 <= y && 0 <= o < YearLength(y)
    ensures YearOf(DaysBeforeYear(y) - DaysBeforeYear(y0) + o, y0) == (y, o)
    decreases y - y0
  {
    if y0 < y {
      DaysBeforeYearNext(y0);
      DaysBeforeYearMono(y0 + 1, y);
      YearOfStart(y0 + 1, y, o);
    }
  }

  lemma {:induction false} MonthOfStart(y: int, m0: int, d: Date)
    requires ValidDate(d) && d.year == y && 1 <= m0 <= d.month
    ensures DaysBeforeMonth(y, m0) <= DaysBeforeMonth(y, d.month) + d.day - 1 < YearLength(y)
    ensures MonthOf(y, DaysBeforeMonth(y, d.month) + d.day - 1, m0) == d.month
    decreases d.month - m0
  {
    DaysBeforeMonthNext(y, m0);
    DaysBeforeMonthNext(y, d.month);
    if m0 < d.month {
      MonthOfStart(y, m0 + 1, d);
    }
  }

  /** Day numbers and dates are in one-to-one correspondence. */
  lemma DateOfDayNumberOf(d: Date)
    requires ValidDate(d)
    ensures 0 <= DayNumber(d) <= LastDayNumber
    ensures DateOfDayNumber(DayNumber(d)) == d
  {
    var o := DaysBeforeMonth(d.year, d.month) + d.day - 1;
    var n := DayNumber(d);
    DayNumberBound(d);
    MonthOfStart(d.year, 1, d);
    YearOfStart(1, d.year, o);
    assert DaysBeforeYear(1) == 0;
    assert YearOf(n, 1) == (d.year, o);
    assert MonthOf(d.year, o, 1) == d.month;
  }

  lemma DayNumberBound(d: Date)
    requires ValidDate(d)
    ensures 0 <= DaysBeforeMonth(d.year, d.month) + d.day - 1 < YearLength(d.year)
    ensures 0 <= DayNumber(d) <= LastDayNumber
  {
    DaysBeforeMonthNext(d.year, d.month);
    DaysBeforeYearMono(1, d.year);
    DaysBeforeYearMono(d.year, 9999);
    DaysBeforeYearNext(9999);
    if d.month < 12 {
      DaysBeforeMonthLast(d.year, d.month);
    }
  }

  lemma DaysBeforeMonthLast(y: int, m: int)
    requires 1 <= m < 12
    ensures DaysBeforeMonth(y, m + 1) <= YearLength(y)
  {
  }

  lemma DayNumberInjective(a: Date, b: Date)
    requires ValidDate(a) && ValidDate(b) && DayNumber(a) == DayNumber(b)
    ensures a == b
  {
    DateOfDayNumberOf(a);
    DateOfDayNumberOf(b);
  }

  // ---- UTC epoch seconds (time.gmtime and its inverse, calendar.timegm) ----

  /** `DayNumber(Date(1970, 1, 1))` */
  const EpochDayNumber := 719162

  /** `time.gmtime(t)` for an integral epoch `t`: days are counted with floor
      division, so instants before 1970 fall on the previous day. The model
      stops at the years 1 to 9999 of `datetime` and gives `None` outside
      them. */
  function GmTime(t: int): (r: Option<Tm>)
    ensures r.Some? ==> ValidTm(r.value) && r.value.second <= 59
  {
    var n := EpochDayNumber + t / 86400;
    var s := t % 86400;
    if 0 <= n <= LastDayNumber then
      var d := DateOfDayNumber(n);
      Some(Tm(d.year, d.month, d.day, s / 3600, s % 3600 / 60, s % 60))
    else None
  }

  /** The epoch second of a UTC broken-down time (`calendar.timegm`). */
  function TimeGm(tm: Tm): int
    requires ValidDate(tm.DateOf())
  {
    (DayNumber(tm.DateOf()) - EpochDayNumber) * 86400 + tm.hour * 3600 + tm.minute * 60 + tm.second
  }

  /** The hour, minute and second `GmTime` reads off a second of the day
      make that second up again. */
  lemma ClockDigits(s: int)
    requires 0 <= s < 86400
    ensures 0 <= s / 3600 <= 23 && 0 <= s % 3600 / 60 <= 59 && 0 <= s % 60 <= 59
    ensures s / 3600 * 3600 + s % 3600 / 60 * 60 + s % 60 == s
  {
  }

  /** A second of the day made of an hour, minute and second reads back as them. */
  lemma ClockOfDigits(h: int, m: int, sec: int)
    requires 0 <= h <= 23 && 0 <= m <= 59 && 0 <= sec <= 59
    ensures var s := h * 3600 + m * 60 + sec;
      0 <= s < 86400 && s / 3600 == h && s % 3600 / 60 == m && s % 60 == sec
  {
  }

  /** A day number and a second of the day make an epoch second that splits back into them. */
  lemma DaySplit(q: int, s: int)
    requires 0 <= s < 86400
    ensures (q * 86400 + s) / 86400 == q && (q * 86400 + s) % 86400 == s
  {
  }

  lemma GmTimeInverse(t: int)
    requires GmTime(t).Some?
    ensures TimeGm(GmTime(t).value) == t
  {
    var n := EpochDayNumber + t / 86400;
    var s := t % 86400;
    ClockDigits(s);
    var d := DateOfDayNumber(n);
    var tm := Tm(d.year, d.month, d.day, s / 3600, s % 3600 / 60, s % 60);
    assert GmTime(t) == Some(tm);
    assert tm.DateOf() == d && DayNumber(d) == n;
    assert TimeGm(tm) == (n - EpochDayNumber) * 86400 + s;
  }

  lemma TimeGmInverse(tm: Tm)
    requires ValidTm(tm) && tm.second <= 59
    ensures GmTime(TimeGm(tm)) == Some(tm)
  {
    DateOfDayNumberOf(tm.DateOf());
    var q := DayNumber(tm.DateOf()) - EpochDayNumber;
    ClockOfDigits(tm.hour, tm.minute, tm.second);
    var s := tm.hour * 3600 + tm.minute * 60 + tm.second;
    DaySplit(q, s);
    assert TimeGm(tm) == q * 86400 + s;
  }

  // ---- strptime / strftime over numeric directives ----

  datatype Field = Year | Month | Day | Hour | Minute | Second

  /** One element of a format string: a literal character or a directive. */
  datatype FmtItem = Lit(c: char) | Fld(f: Field)

  /** `%Y-%m-%dT%H:%M:%S` */
  const IsoFormat: seq<FmtItem> :=
    [Fld(Year), Lit('-'), Fld(Month), Lit('-'), Fld(Day), Lit('T'),
     Fld(Hour), Lit(':'), Fld(Minute), Lit(':'), Fld(Second)]

  /** `%Y %m %d %H:%M:%S` */
  const JsonFormat: seq<FmtItem> :=
    [Fld(Year), Lit(' '), Fld(Month), Lit(' '), Fld(Day), Lit(' '),
     Fld(Hour), Lit(':'), Fld(Minute), Lit(':'), Fld(Second)]

  /** `%H:%M:%S` */
  const HmsFormat: seq<FmtItem> := [Fld(Hour), Lit(':'), Fld(Minute), Lit(':'), Fld(Second)]

  /** `%M:%S` */
  const MsFormat: seq<FmtItem> := [Fld(Minute), Lit(':'), Fld(Second)]

  /** `%Y%m%d` */
  const YmdFormat: seq<FmtItem> := [Fld(Year), Fld(Month), Fld(Day)]

  predicate InRange(f: Field, v: int) {
    match f
    case Year => 0 <= v <= 9999
    case Month => 1 <= v <= 12
    case Day => 1 <= v <= 31
    case Hour => 0 <= v <= 23
    case Minute => 0 <= v <= 59
    case Second => 0 <= v <= 61
  }

  /** A two-digit alternative `[a1-b1][a2-b2]` of a directive's pattern. */
  function TwoAlt(s: string, a1: char, b1: char, a2: char, b2: char): (r: seq<(int, string)>)
    requires '0' <= a1 <= b1 <= '9' && '0' <= a2 <= b2 <= '9'
    ensures |r| <= 1
    ensures |r| == 1 <==> |s| >= 2 && a1 <= s[0] <= b1 && a2 <= s[1] <= b2
    ensures |r| == 1 ==> r[0] == (10 * (s[0] as int - '0' as int) + (s[1] as int - '0' as int), s[2..])
  {
    if |s| >= 2 && a1 <= s[0] <= b1 && a2 <= s[1] <= b2 then
      [(10 * DigitValue(s[0]) + DigitValue(s[1]), s[2..])]
    else []
  }

  /** A one-digit alternative `[a-b]`, or ` [a-b]` when `space` holds. */
  function OneAlt(s: string, space: bool, a: char, b: char): (r: seq<(int, string)>)
    requires '0' <= a <= b <= '9'
    ensures |r| <= 1
    ensures |r| == 1 ==> (
      var k := if space then 2 else 1;
      |s| >= k && a <= s[k - 1] <= b && r[0] == (s[k - 1] as int - '0' as int, s[k..]))
  {
    var k := if space then 2 else 1;
    if |s| >= k && (!space || s[0] == ' ') && a <= s[k - 1] <= b then [(DigitValue(s[k - 1]), s[k..])]
    else []
  }

  /** `rest` is what is left of `s` after a directive read a non-empty
      prefix of digits and spaces. */
  predicate Consumes(s: string, rest: string) {
    |rest| < |s| && rest == s[|s| - |rest|..] && ':' !in s[..|s| - |rest|]
  }

  /** The alternatives of the regular expression Python's `_strptime` uses for
      a directive, in the order the matcher tries them, each as the value read
      and the text after it. */
  function FieldAlts(f: Field, s: string): (r: seq<(int, string)>)
    ensures forall i :: 0 <= i < |r| ==> InRange(f, r[i].0)
  {
    match f
    case Year =>
      if |s| >= 4 && AllDigits(s[..4]) then (DigitsValueBound(s[..4]); [(DigitsValue(s[..4]), s[4..])]) else []
    case Month => TwoAlt(s, '1', '1', '0', '2') + TwoAlt(s, '0', '0', '1', '9') + OneAlt(s, false, '1', '9')
    case Day =>
      TwoAlt(s, '3', '3', '0', '1') + TwoAlt(s, '1', '2', '0', '9') + TwoAlt(s, '0', '0', '1', '9')
      + OneAlt(s, false, '1', '9') + OneAlt(s, true, '1', '9')
    case Hour => TwoAlt(s, '2', '2', '0', '3') + TwoAlt(s, '0', '1', '0', '9') + OneAlt(s, false, '0', '9')
    case Minute => TwoAlt(s, '0', '5', '0', '9') + OneAlt(s, false, '0', '9')
    case Second => TwoAlt(s, '6', '6', '0', '1') + TwoAlt(s, '0', '5', '0', '9') + OneAlt(s, false, '0', '9')
  }

  /** Every alternative reads a non-empty prefix without a `:`. */
  lemma FieldAltsConsume(f: Field, s: string)
    ensures forall i :: 0 <= i < |FieldAlts(f, s)| ==> Consumes(s, FieldAlts(f, s)[i].1)
  {
  }

  /** The first match, in the regular-expression engine's priority order, of
      the format against a prefix of `s`: the directive values read and the
      unmatched rest. Literals compare case-insensitively. */
  function MatchFormat(fmt: seq<FmtItem>, s: string): (r: Option<(map<Field, int>, string)>)
    ensures r.Some? ==> forall f :: f in r.value.0 ==> InRange(f, r.value.0[f])
    ensures r.Some? ==> forall f :: f in r.value.0 ==> Fld(f) in fmt
    decreases |fmt|, 0
  {
    if |fmt| == 0 then Some((map[], s))
    else match fmt[0]
      case Lit(c) =>
        if |s| > 0 && LowerChar(s[0]) == LowerChar(c) then MatchFormat(fmt[1..], s[1..]) else None
      case Fld(f) => MatchAlts(f, FieldAlts(f, s), fmt[1..])
  }

  function MatchAlts(f: Field, alts: seq<(int, string)>, rest: seq<FmtItem>): (r: Option<(map<Field, int>, string)>)
    requires forall i :: 0 <= i < |alts| ==> InRange(f, alts[i].0)
    ensures r.Some? ==> forall g :: g in r.value.0 ==> InRange(g, r.value.0[g])
    ensures r.Some? ==> forall g :: g in r.value.0 ==> g == f || Fld(g) in rest
    decreases |rest|, 1, |alts|
  {
    if |alts| == 0 then None
    else match MatchFormat(rest, alts[0].1)
      case Some((m, tail)) => Some((m[f := alts[0].0], tail))
      case None => MatchAlts(f, alts[1..], rest)
  }

  /** Each `:` literal of the format consumes a `:` of the input, and
      directives never do, so a match needs at least as many colons in the
      input as the format has. */
  lemma {:induction false} MatchFormatColons(fmt: seq<FmtItem>, s: string)
    ensures MatchFormat(fmt, s).Some? ==> multiset(s)[':'] >= multiset(fmt)[Lit(':')]
    decreases |fmt|, 0
  {
    if |fmt| > 0 {
      assert fmt == [fmt[0]] + fmt[1..];
      match fmt[0]
      case Lit(c) =>
        if |s| > 0 && LowerChar(s[0]) == LowerChar(c) {
          MatchFormatColons(fmt[1..], s[1..]);
          assert s == [s[0]] + s[1..];
          assert c == ':' ==> s[0] == ':';
        }
      case Fld(f) =>
        FieldAltsConsume(f, s);
        MatchAltsColons(f, FieldAlts(f, s), fmt[1..], s);
    }
  }

  lemma {:induction false} MatchAltsColons(f: Field, alts: seq<(int, string)>, rest: seq<FmtItem>, s: string)
    requires forall i :: 0 <= i < |alts| ==> InRange(f, alts[i].0) && Consumes(s, alts[i].1)
    ensures MatchAlts(f, alts, rest).Some? ==> multiset(s)[':'] >= multiset(rest)[Lit(':')]
    decreases |rest|, 1, |alts|
  {
    if |alts| > 0 {
      var tail := alts[0].1;
      MatchFormatColons(rest, tail);
      var k := |s| - |tail|;
      assert s == s[..k] + tail;
      assert multiset(s)[':'] == multiset(s[..k])[':'] + multiset(tail)[':'];
      MatchAltsColons(f, alts[1..], rest, s);
    }
  }

  function Lookup(m: map<Field, int>, f: Field, default: int): int {
    if f in m then m[f] else default
  }

  /** `time.strptime(s, fmt)`: the whole of `s` must match; directives absent
      from the format default to 1900-01-01 00:00:00, and the date must exist
      (Python computes its day of the year through `datetime.date`). */
  function Strptime(fmt: seq<FmtItem>, s: string): (r: Result<Tm>)
    ensures r.Success? ==> ValidTm(r.value)
    ensures r.Failure? ==> r.error == ValueError
  {
    match MatchFormat(fmt, s)
    case None => Failure(ValueError)
    case Some((m, rest)) =>
      var tm := Tm(Lookup(m, Year, 1900), Lookup(m, Month, 1), Lookup(m, Day, 1),
                   Lookup(m, Hour, 0), Lookup(m, Minute, 0), Lookup(m, Second, 0));
      if rest == [] && ValidDate(tm.DateOf()) then Success(tm) else Failure(ValueError)
  }

  function Pad2(v: nat): (r: string)
    requires v < 100
    ensures |r| == 2 && IsDigits(r) && DigitsValue(r) == v
  {
    var a, b := DigitChar(v / 10), DigitChar(v % 10);
    DigitsValueSingle(a);
    DigitsValueSingle(b);
    DigitsValueAppend([a], [b]);
    [a] + [b]
  }

  /** `%02d` agrees with zero-padding the decimal numeral to width two. */
  lemma Pad2IsZeroPad(v: nat)
    requires v < 100
    ensures Pad2(v) == ZeroPad(NatToString(v), 2)
  {
    if v >= 10 {
      var p := NatToString(v / 10);
      assert NatToString(v) == p + [DigitChar(v % 10)];
      assert p == [DigitChar(v / 10)];
    }
  }

  function Field4(v: nat): (r: string)
    requires 1000 <= v <= 9999
    ensures |r| == 4 && AllDigits(r) && DigitsValue(r) == v
  {
    var hi, lo := Pad2(v / 100), Pad2(v % 100);
    DigitsValueAppend(hi, lo);
    hi + lo
  }

  function FieldValue(f: Field, tm: Tm): int {
    match f
    case Year => tm.year
    case Month => tm.month
    case Day => tm.day
    case Hour => tm.hour
    case Minute => tm.minute
    case Second => tm.second
  }

  /** The text `time.strftime` writes for a directive. */
  function FormatField(f: Field, tm: Tm): string
    requires ValidTm(tm) && tm.year >= 1000
  {
    match f
    case Year => Field4(tm.year)
    case _ => Pad2(FieldValue(f, tm))
  }

  function FormatItems(fmt: seq<FmtItem>, tm: Tm): string
    requires ValidTm(tm) && tm.year >= 1000
  {
    if |fmt| == 0 then ""
    else (match fmt[0] case Lit(c) => [c] case Fld(f) => FormatField(f, tm)) + FormatItems(fmt[1..], tm)
  }

  /** `time.strftime(fmt, tm)` for a calendar-valid time: years before 1900
      are refused with ValueError, as `datetime.strftime` refuses them. */
  function Strftime(fmt: seq<FmtItem>, tm: Tm): (r: Result<string>)
    requires ValidTm(tm)
    ensures r.Success? <==> tm.year >= 1900
  {
    if tm.year < 1900 then Failure(ValueError) else Success(FormatItems(fmt, tm))
  }

  /** `strftime` writes digits and the format's own literal characters only. */
  lemma {:induction false} FormatItemsChars(fmt: seq<FmtItem>, tm: Tm)
    requires ValidTm(tm) && tm.year >= 1000
    ensures forall c :: c in FormatItems(fmt, tm) ==> IsDigit(c) || Lit(c) in fmt
    decreases |fmt|
  {
    if |fmt| > 0 {
      FormatItemsChars(fmt[1..], tm);
      var head := if fmt[0].Lit? then [fmt[0].c] else FormatField(fmt[0].f, tm);
      assert FormatItems(fmt, tm) == head + FormatItems(fmt[1..], tm);
      forall c | c in FormatItems(fmt, tm) ensures IsDigit(c) || Lit(c) in fmt {
        if c in head {
          if fmt[0].Fld? {
            var i :| 0 <= i < |head| && head[i] == c;
          }
        } else {
          assert c in FormatItems(fmt[1..], tm);
          assert Lit(c) in fmt[1..] ==> Lit(c) in fmt;
        }
      }
    }
  }

  /** No directive occurs twice (Python's `_strptime` refuses such formats). */
  predicate DistinctFields(fmt: seq<FmtItem>) {
    forall i, j :: 0 <= i < j < |fmt| && fmt[i].Fld? ==> fmt[i] != fmt[j]
  }

  /** The directive values of `tm` that `fmt` mentions. */
  function FieldsOf(fmt: seq<FmtItem>, tm: Tm): (m: map<Field, int>) {
    map f | Fld(f) in fmt :: FieldValue(f, tm)
  }

  /** Every zero-padded directive text is read back by the first alternative
      of its pattern, whatever follows it. */
  lemma FieldAltsFirst(f: Field, tm: Tm, rest: string)
    requires ValidTm(tm) && tm.year >= 1000
    ensures |FieldAlts(f, FormatField(f, tm) + rest)| > 0
    ensures FieldAlts(f, FormatField(f, tm) + rest)[0] == (FieldValue(f, tm), rest)
  {
    var t := FormatField(f, tm);
    var s := t + rest;
    assert s[..|t|] == t && s[|t|..] == rest;
    if f != Year {
      var v := FieldValue(f, tm);
      assert s[0] == DigitChar(v / 10) && s[1] == DigitChar(v % 10);
    }
  }

  lemma DistinctTail(fmt: seq<FmtItem>)
    requires |fmt| > 0 && DistinctFields(fmt)
    ensures DistinctFields(fmt[1..])
    ensures fmt[0].Fld? ==> fmt[0] !in fmt[1..]
  {
    var tail := fmt[1..];
    forall i, j | 0 <= i < j < |tail| && tail[i].Fld? ensures tail[i] != tail[j] {
      assert tail[i] == fmt[i + 1] && tail[j] == fmt[j + 1];
    }
  }

  lemma FieldsOfCons(fmt: seq<FmtItem>, tm: Tm)
    requires |fmt| > 0 && (fmt[0].Fld? ==> fmt[0] !in fmt[1..])
    ensures fmt[0].Lit? ==> FieldsOf(fmt, tm) == FieldsOf(fmt[1..], tm)
    ensures fmt[0].Fld? ==> FieldsOf(fmt, tm) == FieldsOf(fmt[1..], tm)[fmt[0].f := FieldValue(fmt[0].f, tm)]
  {
    forall g | Fld(g) in fmt && Fld(g) != fmt[0] ensures Fld(g) in fmt[1..] {
      var k :| 0 <= k < |fmt| && fmt[k] == Fld(g);
      assert k > 0 && fmt[1..][k - 1] == Fld(g);
    }
  }

  /** A format starting with a literal reads back what it writes when its tail does. */
  lemma MatchLitStep(fmt: seq<FmtItem>, tm: Tm, rest: string)
    requires |fmt| > 0 && fmt[0].Lit? && ValidTm(tm) && tm.year >= 1000
    requires MatchFormat(fmt[1..], FormatItems(fmt[1..], tm) + rest) == Some((FieldsOf(fmt[1..], tm), rest))
    requires FieldsOf(fmt, tm) == FieldsOf(fmt[1..], tm)
    ensures MatchFormat(fmt, FormatItems(fmt, tm) + rest) == Some((FieldsOf(fmt, tm), rest))
  {
    FormatItemsLit(fmt, tm, rest);
    MatchLitCons(fmt, FormatItems(fmt[1..], tm) + rest);
  }

  lemma FormatItemsLit(fmt: seq<FmtItem>, tm: Tm, rest: string)
    requires |fmt| > 0 && fmt[0].Lit? && ValidTm(tm) && tm.year >= 1000
    ensures FormatItems(fmt, tm) + rest == [fmt[0].c] + (FormatItems(fmt[1..], tm) + rest)
  {
    var tail := FormatItems(fmt[1..], tm);
    assert FormatItems(fmt, tm) == [fmt[0].c] + tail;
    ConcatAssoc([fmt[0].c], tail, rest);
  }

  /** A literal matches itself. */
  lemma MatchLitCons(fmt: seq<FmtItem>, s: string)
    requires |fmt| > 0 && fmt[0].Lit?
    ensures MatchFormat(fmt, [fmt[0].c] + s) == MatchFormat(fmt[1..], s)
  {
    assert ([fmt[0].c] + s)[1..] == s;
  }

  /** A format starting with a directive reads back what it writes when its tail does. */
  lemma MatchFldStep(fmt: seq<FmtItem>, tm: Tm, rest: string)
    requires |fmt| > 0 && fmt[0].Fld? && ValidTm(tm) && tm.year >= 1000
    requires MatchFormat(fmt[1..], FormatItems(fmt[1..], tm) + rest) == Some((FieldsOf(fmt[1..], tm), rest))
    requires FieldsOf(fmt, tm) == FieldsOf(fmt[1..], tm)[fmt[0].f := FieldValue(fmt[0].f, tm)]
    ensures MatchFormat(fmt, FormatItems(fmt, tm) + rest) == Some((FieldsOf(fmt, tm), rest))
  {
    var f := fmt[0].f;
    var after := FormatItems(fmt[1..], tm) + rest;
    var t := FormatField(f, tm);
    FormatItemsFld(fmt, tm, rest);
    FieldAltsFirst(f, tm, after);
    var alts := FieldAlts(f, t + after);
    assert MatchFormat(fmt, t + after) == MatchAlts(f, alts, fmt[1..]);
    MatchAltsFirst(f, alts, fmt[1..]);
  }

  lemma FormatItemsFld(fmt: seq<FmtItem>, tm: Tm, rest: string)
    requires |fmt| > 0 && fmt[0].Fld? && ValidTm(tm) && tm.year >= 1000
    ensures FormatItems(fmt, tm) + rest == FormatField(fmt[0].f, tm) + (FormatItems(fmt[1..], tm) + rest)
  {
    var h, tail := FormatField(fmt[0].f, tm), FormatItems(fmt[1..], tm);
    assert FormatItems(fmt, tm) == h + tail;
    ConcatAssoc(h, tail, rest);
  }

  /** The first alternative whose rest matches is the one taken. */
  lemma MatchAltsFirst(f: Field, alts: seq<(int, string)>, rest: seq<FmtItem>)
    requires forall i :: 0 <= i < |alts| ==> InRange(f, alts[i].0)
    requires |alts| > 0 && MatchFormat(rest, alts[0].1).Some?
    ensures MatchAlts(f, alts, rest)
      == Some((MatchFormat(rest, alts[0].1).value.0[f := alts[0].0], MatchFormat(rest, alts[0].1).value.1))
  {
  }

  lemma {:induction false} MatchFormatItems(fmt: seq<FmtItem>, tm: Tm, rest: string)
    requires ValidTm(tm) && tm.year >= 1000 && DistinctFields(fmt)
    ensures MatchFormat(fmt, FormatItems(fmt, tm) + rest) == Some((FieldsOf(fmt, tm), rest))
    decreases |fmt|
  {
    if |fmt| == 0 {
      assert FieldsOf(fmt, tm) == map[];
      assert FormatItems(fmt, tm) + rest == rest;
    } else {
      DistinctTail(fmt);
      FieldsOfCons(fmt, tm);
      MatchFormatItems(fmt[1..], tm, rest);
      if fmt[0].Lit? {
        MatchLitStep(fmt, tm, rest);
      } else {
        MatchFldStep(fmt, tm, rest);
      }
    }
  }

  /** The value `strptime` gives a directive the format does not mention. */
  function DefaultValue(f: Field): int {
    match f
    case Year => 1900
    case Month => 1
    case Day => 1
    case _ => 0
  }

  /** What `strftime` writes, `strptime` reads back, provided every directive
      the format leaves out has its default value. */
  lemma StrptimeStrftime(fmt: seq<FmtItem>, tm: Tm)
    requires ValidTm(tm) && tm.year >= 1900 && DistinctFields(fmt)
    requires forall f: Field :: Fld(f) in fmt || FieldValue(f, tm) == DefaultValue(f)
    ensures Strptime(fmt, Strftime(fmt, tm).value) == Success(tm)
  {
    MatchFormatItems(fmt, tm, "");
    assert FormatItems(fmt, tm) + "" == FormatItems(fmt, tm);
    var m := FieldsOf(fmt, tm);
    LookupFieldsOf(fmt, tm, Year);
    LookupFieldsOf(fmt, tm, Month);
    LookupFieldsOf(fmt, tm, Day);
    LookupFieldsOf(fmt, tm, Hour);
    LookupFieldsOf(fmt, tm, Minute);
    LookupFieldsOf(fmt, tm, Second);
    var tm' := Tm(Lookup(m, Year, 1900), Lookup(m, Month, 1), Lookup(m, Day, 1),
                  Lookup(m, Hour, 0), Lookup(m, Minute, 0), Lookup(m, Second, 0));
    assert tm' == tm;
  }

  lemma LookupFieldsOf(fmt: seq<FmtItem>, tm: Tm, f: Field)
    requires Fld(f) in fmt || FieldValue(f, tm) == DefaultValue(f)
    ensures Lookup(FieldsOf(fmt, tm), f, DefaultValue(f)) == FieldValue(f, tm)
  {
  }

  lemma IsoFormatComplete()
    ensures DistinctFields(IsoFormat) && forall f: Field :: Fld(f) in IsoFormat
  {
    forall f: Field ensures Fld(f) in IsoFormat {
      match f
      case Year => assert IsoFormat[0] == Fld(f);
      case Month => assert IsoFormat[2] == Fld(f);
      case Day => assert IsoFormat[4] == Fld(f);
      case Hour => assert IsoFormat[6] == Fld(f);
      case Minute => assert IsoFormat[8] == Fld(f);
      case Second => assert IsoFormat[10] == Fld(f);
    }
  }
}
