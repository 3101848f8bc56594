/** The duration parser of the bundled isodate module: the designator format
    `[+-]P[nY][nM][nW][nD][T[nH][nM][nS]]` of section 4.4.3.2 of ISO 8601:2004,
    each n being digits with an optional `,` or `.` fraction, read into a
    Python `timedelta`. Component values are exact reals. */
module IsoDuration {
  import opened Wrappers
  import opened Text
  import opened Numerals

  // ---- the grammar ----

  /** A number `whole[sep frac]`; without a fraction `sep` is `.` and unused. */
  datatype Component = Component(whole: string, sep: char, frac: string)

  predicate WfComponent(c: Component) {
    IsDigits(c.whole)
    && (c.frac == [] ==> c.sep == '.')
    && (c.frac != [] ==> IsDigits(c.frac) && (c.sep == ',' || c.sep == '.'))
  }

  /** The text of a component followed by its designator letter. */
  function ComponentText(c: Component, d: char): string {
    c.whole + (if c.frac == [] then "" else [c.sep] + c.frac) + [d]
  }

  function OptComponentText(c: Option<Component>, d: char): string {
    if c.Some? then ComponentText(c.value, d) else ""
  }

  /** The components of one part, each with its designator. */
  function CompsText(cs: seq<Option<Component>>, ds: string): string
    requires |cs| == |ds|
  {
    if |cs| == 0 then "" else OptComponentText(cs[0], ds[0]) + CompsText(cs[1..], ds[1..])
  }

  const DateDesignators := "YMWD"
  const TimeDesignators := "HMS"

  /** A duration as written: optional sign, the date components years,
      months, weeks, days, and, after `T`, hours, minutes, seconds. */
  datatype Period = Period(sign: Option<char>, date: seq<Option<Component>>, time: bool, clock: seq<Option<Component>>)

  predicate WfComps(cs: seq<Option<Component>>) {
    forall i :: 0 <= i < |cs| && cs[i].Some? ==> WfComponent(cs[i].value)
  }

  predicate WfPeriod(p: Period) {
    (p.sign.None? || p.sign.value == '+' || p.sign.value == '-')
    && |p.date| == 4 && |p.clock| == 3 && WfComps(p.date) && WfComps(p.clock)
    && (!p.time ==> p.clock == Nones(3))
  }

  function Nones(n: nat): (r: seq<Option<Component>>)
    ensures |r| == n && WfComps(r)
  {
    seq(n, _ => None)
  }

  function SignText(sign: Option<char>): string {
    if sign.Some? then [sign.value] else ""
  }

  function TimeText(time: bool, clock: seq<Option<Component>>, ds: string): string
    requires |clock| == |ds|
  {
    if time then "T" + CompsText(clock, ds) else ""
  }

  function PeriodText(p: Period): string
    requires |p.date| == 4 && |p.clock| == 3
  {
    SignText(p.sign) + "P" + CompsText(p.date, DateDesignators) + TimeText(p.time, p.clock, TimeDesignators)
  }

  // ---- the matcher ----

  /** Length of the run of digits at the start of `s`. */
  function DigitRun(s: string): (k: nat)
    ensures k <= |s| && AllDigits(s[..k]) && (k < |s| ==> !IsDigit(s[k]))
  {
    if |s| > 0 && IsDigit(s[0]) then
      var k := 1 + DigitRun(s[1..]);
      assert s[..k] == [s[0]] + s[1..][..k - 1];
      k
    else 0
  }

  /** `[0-9]+([,.][0-9]+)?d` at the start of `s`: the component and the rest.
      Every digit run is taken whole: a shorter run would be followed by a
      digit, which neither the fraction nor the designator can begin with. */
  function TakeComponent(s: string, d: char): Option<(Component, string)> {
    var k := DigitRun(s);
    if k == 0 then None
    else if k < |s| && (s[k] == ',' || s[k] == '.') && DigitRun(s[k + 1..]) > 0 then
      var e := k + 1 + DigitRun(s[k + 1..]);
      if e < |s| && s[e] == d then Some((Component(s[..k], s[k], s[k + 1..e]), s[e + 1..])) else None
    else if k < |s| && s[k] == d then Some((Component(s[..k], '.', ""), s[k + 1..]))
    else None
  }

  /** An optional group: taken when it matches, skipped otherwise. */
  function Opt(s: string, d: char): (Option<Component>, string) {
    match TakeComponent(s, d)
    case Some((c, r)) => (Some(c), r)
    case None => (None, s)
  }

  function MatchComps(s: string, ds: string): (r: (seq<Option<Component>>, string))
    ensures |r.0| == |ds|
  {
    if |ds| == 0 then ([], s)
    else
      var (c, rest) := Opt(s, ds[0]);
      var (cs, tail) := MatchComps(rest, ds[1..]);
      ([c] + cs, tail)
  }

  /** The optional `T` part and what follows it. */
  function MatchTime(s: string, ds: string): (r: (bool, seq<Option<Component>>, string))
    ensures |r.1| == |ds| && (!r.0 ==> r.1 == Nones(|ds|))
  {
    if |s| > 0 && s[0] == 'T' then
      var (clock, rest) := MatchComps(s[1..], ds);
      (true, clock, rest)
    else (false, Nones(|ds|), s)
  }

  /** `ISO8601_PERIOD_REGEX.match(s)`. The anchor `$` also matches before a
      final newline. */
  function MatchPeriod(s: string): (r: Option<Period>)
    ensures r.Some? ==> |r.value.date| == 4 && |r.value.clock| == 3
  {
    var sign: Option<char> := if |s| > 0 && (s[0] == '+' || s[0] == '-') then Some(s[0]) else None;
    var s0 := if sign.Some? then s[1..] else s;
    if |s0| == 0 || s0[0] != 'P' then None
    else
      var (date, s4) := MatchComps(s0[1..], DateDesignators);
      var (time, clock, t3) := MatchTime(s4, TimeDesignators);
      if t3 == "" || t3 == "\n" then Some(Period(sign, date, time, clock)) else None
  }

  // ---- the matcher accepts exactly the grammar ----

  lemma TakeNonDigit(s: string, d: char)
    requires |s| == 0 || !IsDigit(s[0])
    ensures TakeComponent(s, d).None?
  {
  }

  /** A component is read back whole, and only with its own designator. */
  lemma TakeComponentText(c: Component, d: char, rest: string, d': char)
    requires WfComponent(c) && !IsDigit(d) && d != ',' && d != '.'
    ensures TakeComponent(ComponentText(c, d) + rest, d') == if d' == d then Some((c, rest)) else None
  {
    var s := ComponentText(c, d) + rest;
    var k := |c.whole|;
    assert s[..k] == c.whole;
    assert DigitRun(s) == k by {
      DigitRunPrefix(c.whole, s[k..]);
      assert s == c.whole + s[k..];
    }
    if c.frac != [] {
      TakeFracText(c, d, rest, d');
    } else {
      assert s[k] == d && s[k + 1..] == rest;
    }
  }

  lemma TakeFracText(c: Component, d: char, rest: string, d': char)
    requires WfComponent(c) && !IsDigit(d) && c.frac != []
    requires DigitRun(ComponentText(c, d) + rest) == |c.whole|
    ensures TakeComponent(ComponentText(c, d) + rest, d') == if d' == d then Some((c, rest)) else None
  {
    var s := ComponentText(c, d) + rest;
    var k := |c.whole|;
    var t := s[k + 1..];
    assert s[k] == c.sep && s[..k] == c.whole;
    assert t == c.frac + [d] + rest;
    DigitRunPrefix(c.frac, [d] + rest);
    assert c.frac + ([d] + rest) == t;
    var e := k + 1 + |c.frac|;
    assert s[k + 1..e] == c.frac;
    assert s[e] == d && s[e + 1..] == rest;
  }

  lemma {:induction false} DigitRunPrefix(a: string, b: string)
    requires IsDigits(a) && (|b| == 0 || !IsDigit(b[0]))
    ensures DigitRun(a + b) == |a|
    decreases |a|
  {
    assert (a + b)[0] == a[0];
    if |a| > 1 {
      assert (a + b)[1..] == a[1..] + b;
      DigitRunPrefix(a[1..], b);
    } else {
      assert (a + b)[1..] == b;
    }
  }

  /** No later component can be taken with the designator `d`. */
  lemma {:induction false} CompsTextNoTake(cs: seq<Option<Component>>, ds: string, rest: string, d: char)
    requires |cs| == |ds| && WfComps(cs) && d !in ds
    requires forall i :: 0 <= i < |ds| ==> !IsDigit(ds[i]) && ds[i] != ',' && ds[i] != '.'
    requires TakeComponent(rest, d).None?
    ensures TakeComponent(CompsText(cs, ds) + rest, d).None?
    decreases |cs|
  {
    if |cs| > 0 {
      var tail := CompsText(cs[1..], ds[1..]) + rest;
      assert CompsText(cs, ds) + rest == OptComponentText(cs[0], ds[0]) + tail;
      if cs[0].Some? {
        TakeComponentText(cs[0].value, ds[0], tail, d);
      } else {
        WfCompsTail(cs);
        assert forall i :: 0 <= i < |ds[1..]| ==> ds[1..][i] == ds[i + 1];
        CompsTextNoTake(cs[1..], ds[1..], rest, d);
        assert OptComponentText(cs[0], ds[0]) + tail == tail;
      }
    } else {
      assert CompsText(cs, ds) + rest == rest;
    }
  }

  lemma WfCompsTail(cs: seq<Option<Component>>)
    requires |cs| > 0 && WfComps(cs)
    ensures WfComps(cs[1..])
  {
    forall i | 0 <= i < |cs[1..]| && cs[1..][i].Some? ensures WfComponent(cs[1..][i].value) {
      assert cs[1..][i] == cs[i + 1];
    }
  }

  predicate Designators(ds: string) {
    (forall i :: 0 <= i < |ds| ==> !IsDigit(ds[i]) && ds[i] != ',' && ds[i] != '.')
    && (forall i, j :: 0 <= i < j < |ds| ==> ds[i] != ds[j])
  }

  lemma {:induction false} MatchCompsText(cs: seq<Option<Component>>, ds: string, rest: string)
    requires |cs| == |ds| && WfComps(cs) && Designators(ds)
    requires forall i :: 0 <= i < |ds| ==> TakeComponent(rest, ds[i]).None?
    ensures MatchComps(CompsText(cs, ds) + rest, ds) == (cs, rest)
    decreases |cs|
  {
    if |cs| > 0 {
      var tail := CompsText(cs[1..], ds[1..]) + rest;
      assert CompsText(cs, ds) + rest == OptComponentText(cs[0], ds[0]) + tail;
      WfCompsTail(cs);
      assert forall i :: 0 <= i < |ds[1..]| ==> ds[1..][i] == ds[i + 1];
      assert ds[0] !in ds[1..];
      CompsTextNoTake(cs[1..], ds[1..], rest, ds[0]);
      if cs[0].Some? {
        TakeComponentText(cs[0].value, ds[0], tail, ds[0]);
      } else {
        assert OptComponentText(cs[0], ds[0]) + tail == tail;
      }
      assert Opt(OptComponentText(cs[0], ds[0]) + tail, ds[0]) == (cs[0], tail);
      assert Designators(ds[1..]);
      MatchCompsText(cs[1..], ds[1..], rest);
      assert cs == [cs[0]] + cs[1..];
    } else {
      assert CompsText(cs, ds) + rest == rest;
    }
  }

  lemma {:induction false} MatchCompsSound(s: string, ds: string)
    ensures var (cs, rest) := MatchComps(s, ds);
      WfComps(cs) && s == CompsText(cs, ds) + rest
    decreases |ds|
  {
    if |ds| > 0 {
      var (c, r) := Opt(s, ds[0]);
      MatchCompsSound(r, ds[1..]);
      var (cs, tail) := MatchComps(r, ds[1..]);
      if c.Some? {
        TakeComponentSound(s, ds[0]);
      }
      assert ([c] + cs)[1..] == cs;
      assert WfComps([c] + cs) by {
        forall i | 0 <= i < |[c] + cs| && ([c] + cs)[i].Some? ensures WfComponent(([c] + cs)[i].value) {
          if i > 0 { assert ([c] + cs)[i] == cs[i - 1]; }
        }
      }
    }
  }

  lemma TakeComponentSound(s: string, d: char)
    requires TakeComponent(s, d).Some?
    ensures var (c, rest) := TakeComponent(s, d).value;
      WfComponent(c) && s == ComponentText(c, d) + rest
  {
    var k := DigitRun(s);
    if k < |s| && (s[k] == ',' || s[k] == '.') && DigitRun(s[k + 1..]) > 0 {
      var e := k + 1 + DigitRun(s[k + 1..]);
      assert s[k + 1..][..e - k - 1] == s[k + 1..e];
      SplitAround(s, k, e);
    } else {
      assert s == s[..k] + [s[k]] + s[k + 1..];
    }
  }

  /** `s` cut at two positions, the cut characters kept. */
  lemma SplitAround(s: string, k: nat, e: nat)
    requires k < e < |s|
    ensures s == s[..k] + ([s[k]] + s[k + 1..e]) + [s[e]] + s[e + 1..]
  {
    assert s[..k] + ([s[k]] + s[k + 1..e]) == s[..e];
    assert s[..e] + [s[e]] == s[..e + 1];
  }

  lemma DesignatorFacts()
    ensures Designators(DateDesignators) && Designators(TimeDesignators)
  {
  }

  lemma MatchTimeText(time: bool, clock: seq<Option<Component>>, ds: string, nl: string)
    requires |clock| == |ds| && WfComps(clock) && Designators(ds) && (!time ==> clock == Nones(|ds|))
    requires nl == "" || nl == "\n"
    ensures MatchTime(TimeText(time, clock, ds) + nl, ds) == (time, clock, nl)
    ensures forall d :: TakeComponent(TimeText(time, clock, ds) + nl, d).None?
  {
    TimeTextNoTake(time, clock, ds, nl);
    var s := TimeText(time, clock, ds) + nl;
    if time {
      var c := CompsText(clock, ds);
      ConcatAssoc("T", c, nl);
      assert s[1..] == c + nl;
      forall i | 0 <= i < |ds| ensures TakeComponent(nl, ds[i]).None? {
        TakeNonDigit(nl, ds[i]);
      }
      MatchCompsText(clock, ds, nl);
    } else {
      assert s == nl;
    }
  }

  /** The time part, and a final newline, start with no component. */
  lemma TimeTextNoTake(time: bool, clock: seq<Option<Component>>, ds: string, nl: string)
    requires |clock| == |ds| && (nl == "" || nl == "\n")
    ensures forall d :: TakeComponent(TimeText(time, clock, ds) + nl, d).None?
  {
    var s := TimeText(time, clock, ds) + nl;
    forall d ensures TakeComponent(s, d).None? {
      if time { assert s[0] == 'T'; }
      TakeNonDigit(s, d);
    }
  }

  lemma MatchTimeSound(s: string, ds: string)
    ensures var r := MatchTime(s, ds);
      WfComps(r.1) && s == TimeText(r.0, r.1, ds) + r.2
  {
    if |s| > 0 && s[0] == 'T' {
      MatchCompsSound(s[1..], ds);
      assert s == "T" + s[1..];
    }
  }

  /** Every text of the grammar is matched, as the period it spells, with or
      without a final newline. */
  lemma MatchPeriodText(p: Period, nl: string)
    requires WfPeriod(p) && (nl == "" || nl == "\n")
    ensures MatchPeriod(PeriodText(p) + nl) == Some(p)
  {
    DesignatorFacts();
    var dt := CompsText(p.date, DateDesignators);
    var tt := TimeText(p.time, p.clock, TimeDesignators) + nl;
    var sg := SignText(p.sign);
    TextShape(sg, dt, tt);
    var s := PeriodText(p) + nl;
    assert s == sg + "P" + dt + tt;
    if p.sign.None? {
      assert s[0] == 'P';
    }
    MatchTimeText(p.time, p.clock, TimeDesignators, nl);
    MatchCompsText(p.date, DateDesignators, tt);
  }

  lemma TextShape(sg: string, dt: string, tt: string)
    ensures (sg + "P" + dt + tt)[|sg|..] == "P" + dt + tt
    ensures ("P" + dt + tt)[1..] == dt + tt
    ensures |sg| == 1 ==> (sg + "P" + dt + tt)[0] == sg[0]
  {
    assert sg + "P" + dt + tt == sg + ("P" + dt + tt);
  }

  /** Whatever the matcher accepts is a text of the grammar, possibly with a
      final newline. */
  lemma MatchPeriodSound(s: string)
    requires MatchPeriod(s).Some?
    ensures var p := MatchPeriod(s).value;
      WfPeriod(p) && (s == PeriodText(p) || s == PeriodText(p) + "\n")
  {
    var sign: Option<char> := if |s| > 0 && (s[0] == '+' || s[0] == '-') then Some(s[0]) else None;
    var s0 := if sign.Some? then s[1..] else s;
    var m := MatchComps(s0[1..], DateDesignators);
    var t := MatchTime(m.1, TimeDesignators);
    var p := MatchPeriod(s).value;
    assert p == Period(sign, m.0, t.0, t.1) && (t.2 == "" || t.2 == "\n");
    MatchCompsSound(s0[1..], DateDesignators);
    MatchTimeSound(m.1, TimeDesignators);
    assert s == SignText(sign) + s0 by {
      if sign.Some? {
        assert s == [s[0]] + s[1..];
      }
    }
    SoundShape(s, SignText(sign), s0, CompsText(m.0, DateDesignators), m.1, TimeText(t.0, t.1, TimeDesignators), t.2);
  }

  lemma SoundShape(s: string, sg: string, s0: string, dt: string, s4: string, tt: string, nl: string)
    requires s == sg + s0 && |s0| > 0 && s0[0] == 'P' && s0[1..] == dt + s4 && s4 == tt + nl
    requires nl == "" || nl == "\n"
    ensures s == sg + "P" + dt + tt || s == sg + "P" + dt + tt + "\n"
  {
    assert s0 == "P" + s0[1..];
    assert s == sg + "P" + dt + tt + nl;
    if nl == "" {
      assert sg + "P" + dt + tt + nl == sg + "P" + dt + tt;
    }
  }

  // ---- the group dictionary and its in-place normalisation ----

  /** A value of `match.groupdict()`: the text of a group (None when the group
      did not take part), or the float the normalising loop stored over it. */
  datatype GroupVal = Text(t: Option<string>) | Num(v: real)

  /** The names of the pattern's groups, in the order the pattern declares them. */
  datatype Group = Sign | Years | Months | Weeks | Days | Separator | Hours | Minutes | Seconds

  const GroupKeys: seq<Group> := [Sign, Years, Months, Weeks, Days, Separator, Hours, Minutes, Seconds]

  function CompGroup(c: Option<Component>, d: char): Option<string> {
    if c.Some? then Some(ComponentText(c.value, d)) else None
  }

  /** The text a group of the pattern captured in a match of `p`. */
  function GroupText(p: Period, k: Group): Option<string>
    requires |p.date| == 4 && |p.clock| == 3
  {
    match k
    case Sign => if p.sign.Some? then Some([p.sign.value]) else None
    case Years => CompGroup(p.date[0], 'Y')
    case Months => CompGroup(p.date[1], 'M')
    case Weeks => CompGroup(p.date[2], 'W')
    case Days => CompGroup(p.date[3], 'D')
    case Separator => if p.time then Some("T") else None
    case Hours => CompGroup(p.clock[0], 'H')
    case Minutes => CompGroup(p.clock[1], 'M')
    case Seconds => CompGroup(p.clock[2], 'S')
  }

  /** `match.groupdict()` of a match of the period `p`. */
  function GroupDict(p: Period): map<Group, GroupVal>
    requires |p.date| == 4 && |p.clock| == 3
  {
    map k | k in GroupKeys :: Text(GroupText(p, k))
  }

  /** `float(v[:-1].replace(',', '.'))`, an absent group read as `"0n"`;
      None where `float` raises ValueError. */
  function GroupFloat(v: Option<string>): Option<real> {
    var text := if v.None? then "0n" else v.value;
    if |text| == 0 then None else ParseFloat(ReplaceChar(text[..|text| - 1], ',', '.'))
  }

  /** The loop over the dictionary's items, as a function of the keys still to
      visit: every key but `sign` and `separator` gets the float of its text. */
  function NormaliseKeys(groups: map<Group, GroupVal>, keys: seq<Group>): (r: Result<map<Group, GroupVal>>)
    ensures r.Failure? ==> r.error == ValueError
    decreases |keys|
  {
    if |keys| == 0 then Success(groups)
    else
      var key := keys[0];
      if key in groups && key != Separator && key != Sign then
        var f := GroupFloat(if groups[key].Text? then groups[key].t else None);
        if f.None? then Failure(ValueError)
        else NormaliseKeys(groups[key := Num(f.value)], keys[1..])
      else NormaliseKeys(groups, keys[1..])
  }

  /** The normalising loop of `parse_duration`, updating the dictionary in place. */
  method NormaliseGroups(groups0: map<Group, GroupVal>) returns (r: Result<map<Group, GroupVal>>)
    ensures r == NormaliseKeys(groups0, GroupKeys)
  {
    var groups := groups0;
    var i := 0;
    while i < |GroupKeys|
      invariant 0 <= i <= |GroupKeys|
      invariant NormaliseKeys(groups, GroupKeys[i..]) == NormaliseKeys(groups0, GroupKeys)
    {
      var key := GroupKeys[i];
      assert GroupKeys[i..][1..] == GroupKeys[i + 1..];
      if key in groups && key != Separator && key != Sign {
        var val := if groups[key].Text? then groups[key].t else None;
        var f := GroupFloat(val);
        if f.None? {
          return Failure(ValueError);
        }
        groups := groups[key := Num(f.value)];
      }
      i := i + 1;
    }
    return Success(groups);
  }

  /** The value of a component; an absent one counts as 0. */
  function CompValue(c: Option<Component>): real
    requires c.Some? ==> WfComponent(c.value)
  {
    if c.Some? then DecimalValue(c.value.whole, c.value.frac) else 0.0
  }

  /** The text `float` reads of a component: its designator cut off and a
      comma separator turned into a point. */
  lemma ComponentReplaced(x: Component, d: char)
    requires WfComponent(x)
    ensures var text := ComponentText(x, d);
      |text| > 0 &&
      ReplaceChar(text[..|text| - 1], ',', '.') == if x.frac == [] then x.whole else x.whole + "." + x.frac
  {
    var text := ComponentText(x, d);
    var mid := if x.frac == [] then "" else [x.sep] + x.frac;
    assert text == (x.whole + mid) + [d];
    assert text[..|text| - 1] == x.whole + mid;
    if x.frac == [] {
      assert x.whole + mid == x.whole;
      ReplaceDecimal(x.whole, "", "");
    } else {
      ReplaceDecimal(x.whole, [x.sep], x.frac);
    }
  }

  /** Replacing `,` by `.` in digits around a separator leaves the digits and
      makes the separator a point. */
  lemma ReplaceDecimal(w: string, sep: string, f: string)
    requires IsDigits(w) && AllDigits(f) && |sep| <= 1 && (|sep| == 1 ==> sep[0] == ',' || sep[0] == '.')
    ensures ReplaceChar(w + (sep + f), ',', '.') == w + ((if sep == [] then "" else ".") + f)
  {
    var r := ReplaceChar(w + (sep + f), ',', '.');
    var want := w + ((if sep == [] then "" else ".") + f);
    forall i | 0 <= i < |r| ensures r[i] == want[i] {
      if i < |w| {
        assert (w + (sep + f))[i] == w[i];
      } else if i < |w| + |sep| {
        assert (w + (sep + f))[i] == sep[0];
      } else {
        assert (w + (sep + f))[i] == f[i - |w| - |sep|];
      }
    }
  }

  /** Both `,` and `.` separate the fraction, and `float` reads every group
      text as the component's value. */
  lemma ComponentFloat(c: Option<Component>, d: char)
    requires c.Some? ==> WfComponent(c.value)
    ensures GroupFloat(CompGroup(c, d)) == Some(CompValue(c))
  {
    if c.None? {
      assert "0n"[..1] == "0";
      assert ReplaceChar("0", ',', '.') == "0";
      ParseFloatDigits("0");
      assert DigitsValue("0") == 0;
    } else {
      var x := c.value;
      ComponentReplaced(x, d);
      if x.frac == [] {
        ParseFloatDigits(x.whole);
        DecimalValueWhole(x.whole);
      } else {
        ParseFloatDecimal(x.whole, x.frac);
      }
    }
  }

  function NumAt(g: map<Group, GroupVal>, key: Group): real {
    if key in g && g[key].Num? then g[key].v else 0.0
  }

  /** A key the loop converts. */
  predicate Converted(k: Group, keys: seq<Group>) {
    k in keys && k != Sign && k != Separator
  }

  /** When every text the loop meets is a float, the loop succeeds, converts
      exactly the visited keys but `sign` and `separator`, and keeps the rest. */
  lemma {:induction false} NormaliseKeysValues(g: map<Group, GroupVal>, keys: seq<Group>)
    requires forall i :: 0 <= i < |keys| ==> keys[i] in g
    requires forall i :: 0 <= i < |keys| && keys[i] != Sign && keys[i] != Separator ==>
      g[keys[i]].Text? && GroupFloat(g[keys[i]].t).Some?
    requires forall i, j :: 0 <= i < j < |keys| ==> keys[i] != keys[j]
    ensures NormaliseKeys(g, keys).Success?
    ensures var r := NormaliseKeys(g, keys).value;
      r.Keys == g.Keys &&
      forall k :: k in g ==> r[k] == if Converted(k, keys) then Num(GroupFloat(g[k].t).value) else g[k]
    decreases |keys|
  {
    if |keys| > 0 {
      var key := keys[0];
      var tail := keys[1..];
      assert forall i :: 0 <= i < |tail| ==> tail[i] == keys[i + 1];
      if key != Separator && key != Sign {
        var g' := g[key := Num(GroupFloat(g[key].t).value)];
        assert forall i :: 0 <= i < |tail| ==> tail[i] != key;
        NormaliseKeysValues(g', tail);
        NormaliseConverts(g, keys);
        var r := NormaliseKeys(g', tail).value;
        forall k | k in g
          ensures r[k] == if Converted(k, keys) then Num(GroupFloat(g[k].t).value) else g[k]
        {
          ConvertedCons(k, keys);
        }
      } else {
        NormaliseKeysValues(g, tail);
        var r := NormaliseKeys(g, tail).value;
        forall k | k in g
          ensures r[k] == if Converted(k, keys) then Num(GroupFloat(g[k].t).value) else g[k]
        {
          ConvertedCons(k, keys);
        }
      }
    }
  }

  /** A converted key's float is stored before the loop goes on with the rest. */
  lemma NormaliseConverts(g: map<Group, GroupVal>, keys: seq<Group>)
    requires |keys| > 0 && keys[0] in g && keys[0] != Sign && keys[0] != Separator
    requires g[keys[0]].Text? && GroupFloat(g[keys[0]].t).Some?
    ensures NormaliseKeys(g, keys) == NormaliseKeys(g[keys[0] := Num(GroupFloat(g[keys[0]].t).value)], keys[1..])
  {
  }

  lemma ConvertedCons(k: Group, keys: seq<Group>)
    requires |keys| > 0
    ensures Converted(k, keys) <==> (k == keys[0] && k != Sign && k != Separator) || Converted(k, keys[1..])
  {
    assert k in keys <==> k == keys[0] || k in keys[1..];
  }

  /** Every group of a match is present, and each numeric one reads as a float. */
  lemma GroupDictFloats(p: Period)
    requires WfPeriod(p)
    ensures forall k :: k in GroupDict(p) && (k != Sign && k != Separator ==>
                          GroupDict(p)[k].Text? && GroupFloat(GroupDict(p)[k].t).Some?)
  {
    var g := GroupDict(p);
    forall k ensures k in g && (k != Sign && k != Separator ==> g[k].Text? && GroupFloat(g[k].t).Some?) {
      GroupFloatAt(p, k);
    }
  }

  /** The number a numeric group of a match of `p` stands for. */
  function GroupValue(p: Period, k: Group): real
    requires WfPeriod(p)
  {
    match k
    case Years => CompValue(p.date[0])
    case Months => CompValue(p.date[1])
    case Weeks => CompValue(p.date[2])
    case Days => CompValue(p.date[3])
    case Hours => CompValue(p.clock[0])
    case Minutes => CompValue(p.clock[1])
    case Seconds => CompValue(p.clock[2])
    case _ => 0.0
  }

  /** Every group is a key of the dictionary, and the text of a numeric one
      reads as its component's value. */
  lemma GroupFloatAt(p: Period, k: Group)
    requires WfPeriod(p)
    ensures k in GroupKeys
    ensures k != Sign && k != Separator ==> GroupFloat(GroupText(p, k)) == Some(GroupValue(p, k))
  {
    match k
    case Sign => assert GroupKeys[0] == k;
    case Years => assert GroupKeys[1] == k; ComponentFloat(p.date[0], 'Y');
    case Months => assert GroupKeys[2] == k; ComponentFloat(p.date[1], 'M');
    case Weeks => assert GroupKeys[3] == k; ComponentFloat(p.date[2], 'W');
    case Days => assert GroupKeys[4] == k; ComponentFloat(p.date[3], 'D');
    case Separator => assert GroupKeys[5] == k;
    case Hours => assert GroupKeys[6] == k; ComponentFloat(p.clock[0], 'H');
    case Minutes => assert GroupKeys[7] == k; ComponentFloat(p.clock[1], 'M');
    case Seconds => assert GroupKeys[8] == k; ComponentFloat(p.clock[2], 'S');
  }

  /** After the loop every numeric group of a match holds its component's
      value and `sign` and `separator` keep their text. */
  lemma NormaliseGroupDict(p: Period)
    requires WfPeriod(p)
    ensures NormaliseKeys(GroupDict(p), GroupKeys).Success?
    ensures var r := NormaliseKeys(GroupDict(p), GroupKeys).value;
      forall k :: k in r && r[k] == if k == Sign || k == Separator then Text(GroupText(p, k)) else Num(GroupValue(p, k))
  {
    var g := GroupDict(p);
    GroupDictFloats(p);
    assert forall i, j :: 0 <= i < j < |GroupKeys| ==> GroupKeys[i] != GroupKeys[j];
    NormaliseKeysValues(g, GroupKeys);
    var r := NormaliseKeys(g, GroupKeys).value;
    forall k ensures k in r && r[k] == if k == Sign || k == Separator then Text(GroupText(p, k)) else Num(GroupValue(p, k)) {
      GroupFloatAt(p, k);
    }
  }

  // ---- timedelta ----

  const MaxDays := 999999999
  const MicrosPerSecond := 1000000
  const MicrosPerDay := 86400000000

  /** A `datetime.timedelta` in its normal form. */
  datatype TimeDelta = TimeDelta(days: int, seconds: int, microseconds: int)

  predicate WfTimeDelta(td: TimeDelta) {
    -MaxDays <= td.days <= MaxDays && 0 <= td.seconds < 86400 && 0 <= td.microseconds < MicrosPerSecond
  }

  /** The length of a timedelta in microseconds. */
  function TotalMicros(td: TimeDelta): int {
    (td.days * 86400 + td.seconds) * MicrosPerSecond + td.microseconds
  }

  /** The timedelta of `us` microseconds, normalised as the constructor does;
      OverflowError when the day count leaves the supported range. */
  function FromMicros(us: int): (r: Result<TimeDelta>)
    ensures r.Success? ==> WfTimeDelta(r.value) && TotalMicros(r.value) == us
    ensures r.Failure? <==> us < -MaxDays * MicrosPerDay || (MaxDays + 1) * MicrosPerDay <= us
    ensures r.Failure? ==> r.error == OverflowError
  {
    var days := us / MicrosPerDay;
    var rest := us % MicrosPerDay;
    if -MaxDays <= days <= MaxDays then
      Success(TimeDelta(days, rest / MicrosPerSecond, rest % MicrosPerSecond))
    else Failure(OverflowError)
  }

  /** A normal timedelta is determined by its length. */
  lemma FromMicrosTotal(td: TimeDelta)
    requires WfTimeDelta(td)
    ensures FromMicros(TotalMicros(td)) == Success(td)
  {
    var us := TotalMicros(td);
    var r := td.seconds * MicrosPerSecond + td.microseconds;
    assert 0 <= r < MicrosPerDay;
    assert us == td.days * MicrosPerDay + r;
    assert us / MicrosPerDay == td.days && us % MicrosPerDay == r;
    assert r / MicrosPerSecond == td.seconds && r % MicrosPerSecond == td.microseconds;
  }

  /** Days and seconds of a normal timedelta are its length in whole
      seconds, rounded down. */
  lemma WholeSecondsOf(td: TimeDelta)
    requires WfTimeDelta(td)
    ensures td.days * 86400 + td.seconds == TotalMicros(td) / MicrosPerSecond
  {
    var w := td.days * 86400 + td.seconds;
    assert TotalMicros(td) == w * MicrosPerSecond + td.microseconds;
  }

  /** Rounding half away from zero, as the constructor rounds the microseconds
      a float argument leaves over. */
  function RoundHalfAway(x: real): (r: int)
    ensures x >= 0.0 ==> x - 0.5 < r as real <= x + 0.5
    ensures x < 0.0 ==> x - 0.5 <= r as real < x + 0.5
  {
    if x >= 0.0 then (x + 0.5).Floor else -((-x + 0.5).Floor)
  }

  // ---- parse_duration ----

  /** The rest of `parse_duration` once the groups are floats: ValueError
      unless years and months are zero, else the timedelta of the other
      groups, negated for a `-` sign. */
  function DurationOfGroups(g: map<Group, GroupVal>): (r: Result<TimeDelta>)
    ensures r.Success? ==> WfTimeDelta(r.value)
    ensures r.Failure? ==> r.error == ValueError || r.error == OverflowError
  {
    if NumAt(g, Years) == 0.0 && NumAt(g, Months) == 0.0 then
      var total := NumAt(g, Days) * 86400.0 + NumAt(g, Hours) * 3600.0 + NumAt(g, Minutes) * 60.0
        + NumAt(g, Seconds) + NumAt(g, Weeks) * 604800.0;
      var ret :- FromMicros(RoundHalfAway(total * 1000000.0));
      if Sign in g && g[Sign] == Text(Some("-")) then FromMicros(-TotalMicros(ret)) else Success(ret)
    else Failure(ValueError)
  }

  /** `parse_duration(s)`: ValueError when `s` does not match the pattern or
      names years or months, OverflowError when the timedelta (or its
      negation) is out of range. The constructor's float arithmetic is exact
      here. */
  function ParseDuration(s: string): (r: Result<TimeDelta>)
    ensures MatchPeriod(s).None? ==> r == Failure(ValueError)
    ensures r.Success? ==> WfTimeDelta(r.value)
    ensures r.Failure? ==> r.error == ValueError || r.error == OverflowError
  {
    var m := MatchPeriod(s);
    if m.None? then Failure(ValueError)
    else
      var g :- NormaliseKeys(GroupDict(m.value), GroupKeys);
      DurationOfGroups(g)
  }

  /** The length in seconds a period names: weeks of 7 days, days of 24 hours. */
  function PeriodSeconds(p: Period): real
    requires WfPeriod(p)
  {
    var weeks, days := CompValue(p.date[2]), CompValue(p.date[3]);
    var hours, minutes, seconds := CompValue(p.clock[0]), CompValue(p.clock[1]), CompValue(p.clock[2]);
    7.0 * 86400.0 * weeks + 86400.0 * days + 3600.0 * hours + 60.0 * minutes + seconds
  }

  /** The microseconds a period names, with its sign. */
  function PeriodMicros(p: Period): int
    requires WfPeriod(p)
  {
    var us := RoundHalfAway(PeriodSeconds(p) * 1000000.0);
    if p.sign == Some('-') then -us else us
  }

  /** The normalised groups of a period hold its components' values and sign. */
  predicate GroupsOf(g: map<Group, GroupVal>, p: Period)
    requires WfPeriod(p)
  {
    NumAt(g, Years) == CompValue(p.date[0]) && NumAt(g, Months) == CompValue(p.date[1])
    && NumAt(g, Weeks) == CompValue(p.date[2]) && NumAt(g, Days) == CompValue(p.date[3])
    && NumAt(g, Hours) == CompValue(p.clock[0]) && NumAt(g, Minutes) == CompValue(p.clock[1])
    && NumAt(g, Seconds) == CompValue(p.clock[2])
    && (Sign in g && g[Sign] == Text(Some("-")) <==> p.sign == Some('-'))
  }

  /** A dictionary holding the values the loop leaves behind is the groups of `p`. */
  lemma GroupsOfValues(g: map<Group, GroupVal>, p: Period)
    requires WfPeriod(p)
    requires forall k :: k in g && g[k] == if k == Sign || k == Separator then Text(GroupText(p, k)) else Num(GroupValue(p, k))
    ensures GroupsOf(g, p)
  {
    assert g[Years] == Num(GroupValue(p, Years)) && g[Months] == Num(GroupValue(p, Months));
    assert g[Weeks] == Num(GroupValue(p, Weeks)) && g[Days] == Num(GroupValue(p, Days));
    assert g[Hours] == Num(GroupValue(p, Hours)) && g[Minutes] == Num(GroupValue(p, Minutes));
    assert g[Seconds] == Num(GroupValue(p, Seconds)) && g[Sign] == Text(GroupText(p, Sign));
    if p.sign.Some? {
      assert [p.sign.value] == "-" <==> p.sign.value == '-';
    }
  }

  lemma NormalisedGroupsOf(p: Period)
    requires WfPeriod(p)
    ensures NormaliseKeys(GroupDict(p), GroupKeys).Success?
    ensures GroupsOf(NormaliseKeys(GroupDict(p), GroupKeys).value, p)
  {
    NormaliseGroupDict(p);
    GroupsOfValues(NormaliseKeys(GroupDict(p), GroupKeys).value, p);
  }

  /** What `parse_duration` makes of the text of a period: ValueError exactly
      when years or months are non-zero, else the period's length in
      microseconds, negated for a `-` sign, failing with OverflowError exactly
      when that length or the unsigned one is out of range. */
  lemma ParseDurationText(p: Period, nl: string)
    requires WfPeriod(p) && (nl == "" || nl == "\n")
    ensures var r := ParseDuration(PeriodText(p) + nl);
      var us := RoundHalfAway(PeriodSeconds(p) * 1000000.0);
      && (r == Failure(ValueError) <==> CompValue(p.date[0]) != 0.0 || CompValue(p.date[1]) != 0.0)
      && (r.Success? <==> CompValue(p.date[0]) == 0.0 && CompValue(p.date[1]) == 0.0
                          && FromMicros(us).Success? && FromMicros(PeriodMicros(p)).Success?)
      && (r.Success? ==> TotalMicros(r.value) == PeriodMicros(p))
  {
    ParseDurationPeriod(p, nl);
    PeriodDurationOutcome(p);
  }

  /** The outcomes of a period's duration: ValueError exactly when years or
      months are non-zero, OverflowError when the length or its negation is
      out of range, else a timedelta of the signed length. */
  lemma PeriodDurationOutcome(p: Period)
    requires WfPeriod(p)
    ensures var r := PeriodDuration(p);
      var us := RoundHalfAway(PeriodSeconds(p) * 1000000.0);
      && (r == Failure(ValueError) <==> CompValue(p.date[0]) != 0.0 || CompValue(p.date[1]) != 0.0)
      && (r.Success? <==> CompValue(p.date[0]) == 0.0 && CompValue(p.date[1]) == 0.0
                          && FromMicros(us).Success? && FromMicros(PeriodMicros(p)).Success?)
      && (r.Success? ==> TotalMicros(r.value) == PeriodMicros(p))
  {
  }

  /** Two normal timedeltas of the same length are the same. */
  lemma SameTotal(a: TimeDelta, b: TimeDelta)
    requires WfTimeDelta(a) && WfTimeDelta(b) && TotalMicros(a) == TotalMicros(b)
    ensures a == b
  {
    FromMicrosTotal(a);
    FromMicrosTotal(b);
  }

  /** The timedelta `parse_duration` makes of a matched period, in the terms of
      the period itself. */
  function PeriodDuration(p: Period): Result<TimeDelta>
    requires WfPeriod(p)
  {
    if CompValue(p.date[0]) == 0.0 && CompValue(p.date[1]) == 0.0 then
      var ret :- FromMicros(RoundHalfAway(PeriodSeconds(p) * 1000000.0));
      if p.sign == Some('-') then FromMicros(-TotalMicros(ret)) else Success(ret)
    else Failure(ValueError)
  }

  lemma DurationOfGroupsOf(g: map<Group, GroupVal>, p: Period)
    requires WfPeriod(p) && GroupsOf(g, p)
    ensures DurationOfGroups(g) == PeriodDuration(p)
  {
    var total := NumAt(g, Days) * 86400.0 + NumAt(g, Hours) * 3600.0 + NumAt(g, Minutes) * 60.0
      + NumAt(g, Seconds) + NumAt(g, Weeks) * 604800.0;
    assert total == PeriodSeconds(p);
  }

  /** `parse_duration` of the text of a period is the period's duration. */
  lemma ParseDurationPeriod(p: Period, nl: string)
    requires WfPeriod(p) && (nl == "" || nl == "\n")
    ensures ParseDuration(PeriodText(p) + nl) == PeriodDuration(p)
  {
    MatchPeriodText(p, nl);
    NormalisedGroupsOf(p);
    DurationOfGroupsOf(NormaliseKeys(GroupDict(p), GroupKeys).value, p);
  }

  /** A `+` sign changes nothing. */
  lemma ParseDurationPlus(p: Period, nl: string)
    requires WfPeriod(p) && p.sign.None? && (nl == "" || nl == "\n")
    ensures ParseDuration(PeriodText(p.(sign := Some('+'))) + nl) == ParseDuration(PeriodText(p) + nl)
  {
    var q := p.(sign := Some('+'));
    ParseDurationPeriod(p, nl);
    ParseDurationPeriod(q, nl);
    PlusSameDuration(p);
  }

  lemma PlusSameDuration(p: Period)
    requires WfPeriod(p) && p.sign.None?
    ensures PeriodDuration(p.(sign := Some('+'))) == PeriodDuration(p)
  {
    var q := p.(sign := Some('+'));
    assert q.date == p.date && q.clock == p.clock;
    assert PeriodSeconds(q) == PeriodSeconds(p);
  }

  /** A `-` sign negates the duration whenever both parse. */
  lemma ParseDurationMinus(p: Period, nl: string)
    requires WfPeriod(p) && p.sign.None? && (nl == "" || nl == "\n")
    ensures var a, b := ParseDuration(PeriodText(p.(sign := Some('-'))) + nl), ParseDuration(PeriodText(p) + nl);
      a.Success? && b.Success? ==> TotalMicros(a.value) == -TotalMicros(b.value)
  {
    var q := p.(sign := Some('-'));
    ParseDurationPeriod(p, nl);
    ParseDurationPeriod(q, nl);
    MinusNegatesDuration(p);
  }

  lemma MinusNegatesDuration(p: Period)
    requires WfPeriod(p) && p.sign.None?
    ensures var a, b := PeriodDuration(p.(sign := Some('-'))), PeriodDuration(p);
      a.Success? && b.Success? ==> TotalMicros(a.value) == -TotalMicros(b.value)
  {
    var q := p.(sign := Some('-'));
    assert q.date == p.date && q.clock == p.clock;
    assert PeriodSeconds(q) == PeriodSeconds(p);
  }

  /** `P` and `PT` are the zero duration. */
  lemma ParseDurationEmpty(s: string)
    requires s == "P" || s == "PT"
    ensures ParseDuration(s) == Success(TimeDelta(0, 0, 0))
  {
    var p := Period(None, Nones(4), s == "PT", Nones(3));
    EmptyPeriodText(p);
    assert PeriodText(p) + "" == s;
    EmptyPeriodParses(p);
  }

  lemma EmptyPeriodText(p: Period)
    requires p.sign.None? && p.date == Nones(4) && p.clock == Nones(3)
    ensures PeriodText(p) == if p.time then "PT" else "P"
  {
    CompsTextNones(4, DateDesignators);
    CompsTextNones(3, TimeDesignators);
  }

  lemma EmptyPeriodParses(p: Period)
    requires p.sign.None? && p.date == Nones(4) && p.clock == Nones(3)
    ensures ParseDuration(PeriodText(p) + "") == Success(TimeDelta(0, 0, 0))
  {
    EmptyPeriodValues(p);
    ParseDurationText(p, "");
    EmptyDuration(ParseDuration(PeriodText(p) + ""));
  }

  lemma EmptyPeriodValues(p: Period)
    requires p.sign.None? && p.date == Nones(4) && p.clock == Nones(3)
    ensures WfPeriod(p) && CompValue(p.date[0]) == 0.0 && CompValue(p.date[1]) == 0.0
    ensures RoundHalfAway(PeriodSeconds(p) * 1000000.0) == 0 && PeriodMicros(p) == 0
    ensures FromMicros(0).Success?
  {
    assert p.date[0].None? && p.date[1].None? && p.date[2].None? && p.date[3].None?;
    assert p.clock[0].None? && p.clock[1].None? && p.clock[2].None?;
    assert PeriodSeconds(p) == 0.0;
    assert RoundHalfAway(0.0 * 1000000.0) == 0;
  }

  lemma EmptyDuration(r: Result<TimeDelta>)
    requires r.Success? && WfTimeDelta(r.value) && TotalMicros(r.value) == 0
    ensures r == Success(TimeDelta(0, 0, 0))
  {
    SameTotal(r.value, TimeDelta(0, 0, 0));
  }

  lemma {:induction false} CompsTextNones(n: nat, ds: string)
    requires |ds| == n
    ensures CompsText(Nones(n), ds) == ""
  {
    if n > 0 {
      assert Nones(n)[1..] == Nones(n - 1);
      CompsTextNones(n - 1, ds[1..]);
    }
  }
}
