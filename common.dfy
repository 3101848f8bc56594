/** The helpers shared by the log-parsing backends: elapsed-time strings to
    seconds, the next day of a date string, ISO timestamps to broken-down
    time, and the resume state read back from the state file. */
module Common {
  import opened Wrappers
  import opened Text
  import opened Numerals
  import opened Calendar

  /** The text before the first `.`, where a fractional second would start. */
  function WholeSeconds(s: string): string {
    Split(s, '.')[0]
  }

  /** `getSeconds`: `[d-]H:M:S` or `M:S`, any fraction after the first `.`
      dropped. Without a `-`, text matching neither form gives -1; with a `-`,
      a second `-`, a day count that is not an integer or a time that is not
      `H:M:S` raise ValueError. */
  function GetSeconds(timeStr: string): (r: Result<int>)
    ensures r.Failure? ==> '-' in WholeSeconds(timeStr) && r.error == ValueError
    ensures '-' !in WholeSeconds(timeStr) ==> r.Success? && r.value >= -1
  {
    var t := WholeSeconds(timeStr);
    if '-' in t then
      var parts := Split(t, '-');
      if |parts| != 2 then Failure(ValueError)
      else
        var st :- Strptime(HmsFormat, parts[1]);
        var days := ParseInt(parts[0]);
        if days.None? then Failure(ValueError)
        else Success(days.value * 86400 + st.hour * 3600 + st.minute * 60 + st.second)
    else
      match Strptime(HmsFormat, t)
      case Success(st) => Success(st.hour * 3600 + st.minute * 60 + st.second)
      case Failure(_) =>
        match Strptime(MsFormat, t)
        case Success(st) => Success(st.minute * 60 + st.second)
        case Failure(_) => Success(-1)
  }

  /** A fractional part after a `.` does not change the result. */
  lemma GetSecondsDropsFraction(s: string, frac: string)
    requires '.' !in s
    ensures GetSeconds(s + "." + frac) == GetSeconds(s)
  {
    SplitAppendSep(s, '.', frac);
    SplitOfSepFree(s, '.');
    assert s + "." + frac == s + ['.'] + frac;
  }

  function Midnight(d: Date): Tm {
    Tm(d.year, d.month, d.day, 0, 0, 0)
  }

  /** The time of day 1900-01-01 h:m:s, as `strptime` fills it in. */
  function ClockTm(h: int, m: int, s: int): Tm {
    Tm(1900, 1, 1, h, m, s)
  }

  /** `%02d:%02d:%02d` */
  function HmsText(h: nat, m: nat, s: nat): string
    requires h <= 23 && m <= 59 && s <= 61
  {
    Pad2(h) + ":" + Pad2(m) + ":" + Pad2(s)
  }

  lemma HmsTextParses(h: nat, m: nat, s: nat)
    requires h <= 23 && m <= 59 && s <= 61
    ensures Strptime(HmsFormat, HmsText(h, m, s)) == Success(ClockTm(h, m, s))
    ensures '-' !in HmsText(h, m, s) && '.' !in HmsText(h, m, s)
  {
    var tm := ClockTm(h, m, s);
    HmsTextFormat(h, m, s);
    FormatItemsChars(HmsFormat, tm);
    ClockFormatFields(HmsFormat, tm);
    StrptimeStrftime(HmsFormat, tm);
  }

  lemma HmsTextFormat(h: nat, m: nat, s: nat)
    requires h <= 23 && m <= 59 && s <= 61
    ensures FormatItems(HmsFormat, ClockTm(h, m, s)) == HmsText(h, m, s)
  {
    var tm := ClockTm(h, m, s);
    var f := HmsFormat;
    assert f[4..][1..] == [] && f[3..][1..] == f[4..] && f[2..][1..] == f[3..];
    assert f[1..][1..] == f[2..];
    assert FormatItems(f[4..], tm) == Pad2(s);
    assert FormatItems(f[3..], tm) == ":" + Pad2(s);
    assert FormatItems(f[2..], tm) == Pad2(m) + ":" + Pad2(s);
    assert FormatItems(f[1..], tm) == ":" + Pad2(m) + ":" + Pad2(s);
  }

  /** `%H:%M:%S` and `%M:%S` have distinct directives, only `:` literals, and
      fill a time of day on 1900-01-01 exactly. */
  lemma ClockFormatFields(f: seq<FmtItem>, tm: Tm)
    requires f == HmsFormat || (f == MsFormat && tm.hour == 0)
    requires tm.year == 1900 && tm.month == 1 && tm.day == 1
    ensures forall c :: c in f ==> c.Fld? || c == Lit(':')
    ensures DistinctFields(f)
    ensures forall g :: Fld(g) in f || FieldValue(g, tm) == DefaultValue(g)
  {
    forall g ensures Fld(g) in f || FieldValue(g, tm) == DefaultValue(g) {
      match g
      case Year =>
      case Month =>
      case Day =>
      case Hour => if f == HmsFormat { assert f[0] == Fld(g); }
      case Minute => if f == HmsFormat { assert f[2] == Fld(g); } else { assert f[0] == Fld(g); }
      case Second => if f == HmsFormat { assert f[4] == Fld(g); } else { assert f[2] == Fld(g); }
    }
  }

  /** `H:M:S` without a day count gives H·3600 + M·60 + S. */
  lemma GetSecondsHms(h: nat, m: nat, s: nat)
    requires h <= 23 && m <= 59 && s <= 61
    ensures GetSeconds(HmsText(h, m, s)) == Success(h * 3600 + m * 60 + s)
  {
    HmsTextParses(h, m, s);
    SplitOfSepFree(HmsText(h, m, s), '.');
  }

  /** `%02d:%02d` */
  function MsText(m: nat, s: nat): string
    requires m <= 59 && s <= 61
  {
    Pad2(m) + ":" + Pad2(s)
  }

  /** `M:S` has one colon too few for `%H:%M:%S` and gives M·60 + S. */
  lemma GetSecondsMs(m: nat, s: nat)
    requires m <= 59 && s <= 61
    ensures GetSeconds(MsText(m, s)) == Success(m * 60 + s)
  {
    var t := MsText(m, s);
    MsTextParses(m, s);
    MsTextColons(m, s);
    MatchFormatColons(HmsFormat, t);
    GetSecondsFallback(t, m, s);
  }

  lemma GetSecondsFallback(t: string, m: nat, s: nat)
    requires '.' !in t && '-' !in t
    requires Strptime(HmsFormat, t).Failure?
    requires Strptime(MsFormat, t) == Success(ClockTm(0, m, s))
    ensures GetSeconds(t) == Success(m * 60 + s)
  {
    SplitOfSepFree(t, '.');
  }

  lemma MsTextParses(m: nat, s: nat)
    requires m <= 59 && s <= 61
    ensures Strptime(MsFormat, MsText(m, s)) == Success(ClockTm(0, m, s))
    ensures '-' !in MsText(m, s) && '.' !in MsText(m, s)
  {
    var tm := ClockTm(0, m, s);
    MsTextFormat(m, s);
    FormatItemsChars(MsFormat, tm);
    ClockFormatFields(MsFormat, tm);
    StrptimeStrftime(MsFormat, tm);
  }

  lemma MsTextFormat(m: nat, s: nat)
    requires m <= 59 && s <= 61
    ensures FormatItems(MsFormat, ClockTm(0, m, s)) == MsText(m, s)
  {
    var tm := ClockTm(0, m, s);
    var f := MsFormat;
    assert f[2..][1..] == [] && f[1..][1..] == f[2..];
    assert FormatItems(f[2..], tm) == Pad2(s);
    assert FormatItems(f[1..], tm) == ":" + Pad2(s);
  }

  lemma MsTextColons(m: nat, s: nat)
    requires m <= 59 && s <= 61
    ensures multiset(MsText(m, s))[':'] == 1 && multiset(HmsFormat)[Lit(':')] == 2
  {
    var a, b := Pad2(m), Pad2(s);
    NoColon(a);
    NoColon(b);
    assert MsText(m, s) == a + [':'] + b;
    assert multiset(a + [':'] + b) == multiset(a) + multiset{':'} + multiset(b);
    HmsFormatColons();
  }

  lemma NoColon(a: string)
    requires IsDigits(a)
    ensures multiset(a)[':'] == 0
  {
    assert ':' !in a by {
      assert forall i :: 0 <= i < |a| ==> IsDigit(a[i]);
    }
  }

  lemma HmsFormatColons()
    ensures multiset(HmsFormat)[Lit(':')] == 2
  {
    var f := HmsFormat;
    assert f == [Fld(Hour)] + [Lit(':')] + [Fld(Minute)] + [Lit(':')] + [Fld(Second)];
    assert multiset(f) == multiset{Fld(Hour), Lit(':'), Fld(Minute), Lit(':'), Fld(Second)};
  }

  lemma SplitAround(a: string, c: char, b: string)
    requires c !in a && c !in b
    ensures Split(a + [c] + b, c) == [a, b]
  {
    SplitAppendSep(a, c, b);
    SplitOfSepFree(b, c);
  }

  /** `d-H:M:S` gives d·86400 + H·3600 + M·60 + S. */
  lemma GetSecondsDays(d: nat, h: nat, m: nat, s: nat)
    requires h <= 23 && m <= 59 && s <= 61
    ensures GetSeconds(NatToString(d) + "-" + HmsText(h, m, s)) == Success(d * 86400 + h * 3600 + m * 60 + s)
  {
    HmsTextParses(h, m, s);
    GetSecondsDayCount(NatToString(d), HmsText(h, m, s), d, h, m, s);
  }

  lemma GetSecondsDayCount(ds: string, hms: string, d: nat, h: nat, m: nat, s: nat)
    requires IsDigits(ds) && DigitsValue(ds) == d && '.' !in hms && '-' !in hms
    requires Strptime(HmsFormat, hms) == Success(ClockTm(h, m, s))
    ensures GetSeconds(ds + "-" + hms) == Success(d * 86400 + h * 3600 + m * 60 + s)
  {
    var t := ds + "-" + hms;
    DayPrefixWhole(ds, hms);
    SplitAround(ds, '-', hms);
    assert t == ds + ['-'] + hms;
    ParseIntDigits(ds);
  }

  lemma DayPrefixWhole(ds: string, hms: string)
    requires IsDigits(ds) && '.' !in hms && '-' !in hms
    ensures '-' !in ds && WholeSeconds(ds + "-" + hms) == ds + "-" + hms && '-' in ds + "-" + hms
  {
    var t := ds + "-" + hms;
    assert '.' !in ds && '-' !in ds by {
      assert forall i :: 0 <= i < |ds| ==> IsDigit(ds[i]);
    }
    assert t[|ds|] == '-';
    assert '.' !in t;
    SplitOfSepFree(t, '.');
  }

  /** `getIncrementalDate`: the day after `date`, both in format `fmt`.
      `strptime` failures raise ValueError, stepping past 9999-12-31 raises
      OverflowError, and Python 2's `strftime` refuses a year before 1900. */
  function GetIncrementalDate(date: string, fmt: seq<FmtItem>): (r: Result<string>)
    ensures Strptime(fmt, date).Failure? ==> r == Failure(Strptime(fmt, date).error)
    ensures r.Success? ==> Strptime(fmt, date).Success? && NextDay(Strptime(fmt, date).value.DateOf()).Some?
  {
    var tm :- Strptime(fmt, date);
    var next := NextDay(tm.DateOf());
    if next.None? then Failure(OverflowError)
    else Strftime(fmt, Midnight(next.value))
  }

  /** For a date format such as `%Y%m%d`, the next date string is that of the
      next calendar day, across month and year ends. */
  lemma GetIncrementalDateNext(fmt: seq<FmtItem>, d: Date)
    requires ValidDate(d) && d.year >= 1900 && DistinctFields(fmt)
    requires Fld(Year) in fmt && Fld(Month) in fmt && Fld(Day) in fmt
    requires Fld(Hour) !in fmt && Fld(Minute) !in fmt && Fld(Second) !in fmt
    ensures var r := GetIncrementalDate(Strftime(fmt, Midnight(d)).value, fmt);
      if d == Date(9999, 12, 31) then r == Failure(OverflowError)
      else
        var n := NextDay(d).value;
        DayNumber(n) == DayNumber(d) + 1 && r == Strftime(fmt, Midnight(n)) && r.Success?
  {
    var tm := Midnight(d);
    assert forall f: Field :: Fld(f) in fmt || FieldValue(f, tm) == DefaultValue(f) by {
      forall f: Field ensures Fld(f) in fmt || FieldValue(f, tm) == DefaultValue(f) {
        match f
        case Year =>
        case Month =>
        case Day =>
        case Hour =>
        case Minute =>
        case Second =>
      }
    }
    StrptimeStrftime(fmt, tm);
    assert tm.DateOf() == d;
  }

  /** `datetimeFromIsoStr`: `%Y-%m-%dT%H:%M:%S` read from the text before the
      first `.`; `datetime` then refuses the leap seconds 60 and 61. */
  function DatetimeFromIsoStr(s: string): (r: Result<Tm>)
    ensures r.Success? ==> ValidTm(r.value) && r.value.second <= 59
    ensures r.Failure? ==> r.error == ValueError
  {
    var tm :- Strptime(IsoFormat, WholeSeconds(s));
    if tm.second > 59 then Failure(ValueError) else Success(tm)
  }

  /** An ISO timestamp, with or without a fractional part, is read back as
      the time it denotes. */
  lemma DatetimeFromIsoStrFormat(tm: Tm, frac: string)
    requires ValidTm(tm) && tm.year >= 1900 && tm.second <= 59
    ensures DatetimeFromIsoStr(Strftime(IsoFormat, tm).value) == Success(tm)
    ensures DatetimeFromIsoStr(Strftime(IsoFormat, tm).value + "." + frac) == Success(tm)
  {
    var s := Strftime(IsoFormat, tm).value;
    IsoTextWhole(tm, frac);
    IsoFormatComplete();
    StrptimeStrftime(IsoFormat, tm);
  }

  lemma IsoTextWhole(tm: Tm, frac: string)
    requires ValidTm(tm) && tm.year >= 1900
    ensures WholeSeconds(Strftime(IsoFormat, tm).value) == Strftime(IsoFormat, tm).value
    ensures WholeSeconds(Strftime(IsoFormat, tm).value + "." + frac) == Strftime(IsoFormat, tm).value
  {
    var s := FormatItems(IsoFormat, tm);
    FormatItemsChars(IsoFormat, tm);
    assert Lit('.') !in IsoFormat;
    assert '.' !in s;
    SplitOfSepFree(s, '.');
    SplitAppendSep(s, '.', frac);
    assert s + "." + frac == s + ['.'] + frac;
  }

  /** The resume state handed to the backend: the first line of the state
      file, stripped, or None when there is no state file. */
  function ReadGeneratorState(content: Option<string>): (r: Option<string>)
    ensures r.None? <==> content.None?
  {
    match content
    case None => None
    case Some(text) => Some(Strip(Split(text, '\n')[0]))
  }

  /** A state written as one line without surrounding whitespace is read back
      unchanged, whatever follows the line. */
  lemma ReadWrittenState(state: string, more: string)
    requires '\n' !in state
    requires |state| > 0 ==> !IsSpace(state[0]) && !IsSpace(state[|state| - 1])
    ensures ReadGeneratorState(Some(state)) == Some(state)
    ensures ReadGeneratorState(Some(state + "\n" + more)) == Some(state)
  {
    SplitOfSepFree(state, '\n');
    SplitAppendSep(state, '\n', more);
    assert state + "\n" + more == state + ['\n'] + more;
    StripUnchanged(state);
  }
}
