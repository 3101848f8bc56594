/** What the decoder makes of the records the encoder writes: every record
    with an identifier is accepted by the verifier, its durations are read
    back as the whole seconds of what `%f` printed, and its integers and
    timestamps as the values written. */
module RoundTrip {
  import opened Wrappers
  import opened Text
  import opened Numerals
  import opened Calendar
  import opened UrElements
  import opened UsageRecords
  import opened IsoDuration
  import opened UrParser
  import opened UrVerify

  // ---- durations ----

  /** The seconds component `%f` prints for `q` microseconds: whole seconds,
      a point and six digits of millionths. */
  function SecondsPart(q: nat): Component {
    Component(NatToString(q / 1000000), '.', ZeroPad(NatToString(q % 1000000), 6))
  }

  /** A period of seconds only. */
  function SecondsPeriod(c: Component): Period {
    Period(None, Nones(4), true, [None, None, Some(c)])
  }

  /** The period `"PT%fS" % v` spells for a non-negative `v`. */
  function DurationPeriod(v: real): Period
    requires v >= 0.0
  {
    SecondsPeriod(SecondsPart(Micros(v)))
  }

  /** The encoder's duration text is the text of that period, which names no
      years or months and exactly the microseconds `%f` printed. */
  lemma DurationTextPeriod(v: real)
    requires v >= 0.0
    ensures WfPeriod(DurationPeriod(v))
    ensures DurationText(v) == PeriodText(DurationPeriod(v))
    ensures CompValue(DurationPeriod(v).date[0]) == 0.0 && CompValue(DurationPeriod(v).date[1]) == 0.0
    ensures PeriodMicros(DurationPeriod(v)) == Micros(v)
  {
    var q := Micros(v);
    SecondsPartWf(q);
    SecondsPeriodWf(SecondsPart(q));
    DurationPeriodText(v);
    SecondsPeriodMicros(q);
  }

  /** The seconds component is well formed and reads as `q` millionths. */
  lemma SecondsPartWf(q: nat)
    ensures WfComponent(SecondsPart(q)) && |SecondsPart(q).frac| == 6
    ensures DigitsValue(SecondsPart(q).whole) == q / 1000000
    ensures DigitsValue(SecondsPart(q).frac) == q % 1000000
  {
    ZeroPadValue(q % 1000000, 6);
    NatToStringLength(q % 1000000, 6);
  }

  lemma SecondsPeriodWf(c: Component)
    requires WfComponent(c)
    ensures WfPeriod(SecondsPeriod(c))
  {
    var p := SecondsPeriod(c);
    assert WfComps(p.clock) by {
      forall i | 0 <= i < |p.clock| && p.clock[i].Some? ensures WfComponent(p.clock[i].value) {
        assert i == 2;
      }
    }
  }

  /** The text of a period of seconds only. */
  lemma SecondsPeriodText(c: Component)
    ensures PeriodText(SecondsPeriod(c)) == "PT" + ComponentText(c, 'S')
  {
    var p := SecondsPeriod(c);
    CompsTextNones(4, DateDesignators);
    ClockSecondsText(c);
    TimeOnlyText(p, ComponentText(c, 'S'));
  }

  /** Hours and minutes absent, the clock part spells only the seconds. */
  lemma ClockSecondsText(c: Component)
    ensures CompsText([None, None, Some(c)], TimeDesignators) == ComponentText(c, 'S')
  {
    var hms := TimeDesignators;
    assert hms[0] == 'H' && hms[1..] == "MS" && hms[1..][0] == 'M' && hms[1..][1..] == "S";
    var s2: seq<Option<Component>> := [Some(c)];
    var s1: seq<Option<Component>> := [None, Some(c)];
    var s0: seq<Option<Component>> := [None, None, Some(c)];
    assert s0[1..] == s1 && s1[1..] == s2 && s2[1..] == [];
    assert CompsText(s2, "S") == ComponentText(c, 'S') + CompsText([], "");
    assert CompsText(s1, "MS") == "" + CompsText(s2, "S");
    assert CompsText(s0, hms) == "" + CompsText(s1, "MS");
  }

  /** An unsigned period with no date components and a time part `x`. */
  lemma TimeOnlyText(p: Period, x: string)
    requires |p.date| == 4 && |p.clock| == 3 && p.sign.None? && p.time
    requires CompsText(p.date, DateDesignators) == "" && CompsText(p.clock, TimeDesignators) == x
    ensures PeriodText(p) == "PT" + x
  {
    var t := TimeText(p.time, p.clock, TimeDesignators);
    assert t == "T" + x;
    assert PeriodText(p) == SignText(p.sign) + "P" + CompsText(p.date, DateDesignators) + t;
    assert SignText(p.sign) + "P" == "P";
    assert "P" + CompsText(p.date, DateDesignators) == "P";
    ConcatAssoc("P", "T", x);
    assert "P" + "T" == "PT";
  }

  lemma DurationPeriodText(v: real)
    requires v >= 0.0
    ensures DurationText(v) == PeriodText(DurationPeriod(v))
  {
    var c := SecondsPart(Micros(v));
    Fixed6Parts(v);
    DotSecondsText(Fixed6(v), c.whole, c.frac);
    SecondsPeriodText(c);
  }

  /** `"PT%sS"` of a text made of whole digits, a point and fraction digits
      is `PT` and the text of that seconds component. */
  lemma DotSecondsText(x: string, w: string, f: string)
    requires f != [] && x == w + "." + f
    ensures "PT" + x + "S" == "PT" + ComponentText(Component(w, '.', f), 'S')
  {
    assert ComponentText(Component(w, '.', f), 'S') == w + ("." + f) + "S";
    assert w + ("." + f) == x;
  }

  /** The seconds component reads as `q` millionths. */
  lemma SecondsPartValue(q: nat)
    ensures WfComponent(SecondsPart(q))
    ensures CompValue(Some(SecondsPart(q))) == q as real / 1000000.0
  {
    var c := SecondsPart(q);
    SecondsPartWf(q);
    assert Pow10(6) == 1000000;
    SecondsValue(q);
    assert DecimalValue(c.whole, c.frac) == (q / 1000000) as real + (q % 1000000) as real / 1000000.0;
  }

  /** A period of seconds only stands for the value of its seconds. */
  lemma SecondsPeriodValue(c: Component)
    requires WfComponent(c)
    ensures WfPeriod(SecondsPeriod(c))
    ensures var p := SecondsPeriod(c);
      CompValue(p.date[0]) == 0.0 && CompValue(p.date[1]) == 0.0 && PeriodSeconds(p) == CompValue(Some(c))
  {
    SecondsPeriodWf(c);
    var p := SecondsPeriod(c);
    assert p.date[0] == p.date[1] == p.date[2] == p.date[3] == None;
    assert p.clock[0] == p.clock[1] == None && p.clock[2] == Some(c);
  }

  /** A period of the seconds `%f` prints for `q` microseconds names no years
      or months and stands for `q` microseconds. */
  lemma SecondsPeriodMicros(q: nat)
    ensures WfPeriod(SecondsPeriod(SecondsPart(q)))
    ensures var p := SecondsPeriod(SecondsPart(q));
      CompValue(p.date[0]) == 0.0 && CompValue(p.date[1]) == 0.0 && PeriodMicros(p) == q
  {
    var c := SecondsPart(q);
    SecondsPartValue(q);
    SecondsPeriodValue(c);
    var p := SecondsPeriod(c);
    assert PeriodSeconds(p) * 1000000.0 == q as real;
    assert RoundHalfAway(q as real) == q;
  }

  lemma SecondsValue(q: nat)
    ensures (q / 1000000) as real + (q % 1000000) as real / 1000000.0 == q as real / 1000000.0
  {
  }

  /** A non-negative duration within the timedelta range is decoded to the
      whole seconds of the value `%f` printed. */
  lemma DurationDecodes(mode: Mode, v: real)
    requires v >= 0.0 && Micros(v) < (MaxDays + 1) * MicrosPerDay
    ensures ParseDuration(DurationText(v)).Success?
    ensures TotalMicros(ParseDuration(DurationText(v)).value) == Micros(v)
    ensures ParseIsoDurationValue(mode, Some(DurationText(v))) == Success(DInt(Micros(v) / MicrosPerSecond))
  {
    DurationParses(v);
  }

  /** The encoder's duration text parses to the timedelta of the
      microseconds `%f` printed. */
  lemma DurationParses(v: real)
    requires v >= 0.0
    ensures ParseDuration(DurationText(v)) == FromMicros(Micros(v))
  {
    var p := DurationPeriod(v);
    DurationTextPeriod(v);
    UnsignedDuration(p);
    ParsePeriodText(DurationText(v), p);
  }

  lemma ParsePeriodText(t: string, p: Period)
    requires WfPeriod(p) && t == PeriodText(p)
    ensures ParseDuration(t) == PeriodDuration(p)
  {
    ParseDurationPeriod(p, "");
    assert t + "" == t;
  }

  /** Without a sign, years or months, a period's duration is the timedelta
      of its microseconds. */
  lemma UnsignedDuration(p: Period)
    requires WfPeriod(p) && p.sign.None? && CompValue(p.date[0]) == 0.0 && CompValue(p.date[1]) == 0.0
    ensures PeriodDuration(p) == FromMicros(PeriodMicros(p))
  {
  }

  /** An integer the encoder writes is decoded to itself. */
  lemma IntDecodes(mode: Mode, i: int)
    ensures ParseIntValue(mode, Some(IntToString(i))) == Success(DInt(i))
  {
    ParseIntToString(i);
  }

  // ---- every element the encoder writes decodes ----

  /** An element other than `RecordIdentity` that the decoder takes without
      failing when reporting does not raise. */
  predicate Decodable(e: Element) {
    match e.tag
    case RecordIdentity => false
    case FileTransfers => false
    case Charge | NodeCount | Processors | ExitCode | MajorPageFaults | StartTime | EndTime | SubmitTime =>
      e.text.Some?
    case WallDuration | CpuDuration | UserTime | KernelTime =>
      e.text.Some? && ParseDuration(e.text.value) != Failure(OverflowError)
    case _ => true
  }

  lemma DecodableStep(r: Dict, e: Element)
    requires Decodable(e)
    ensures Step(Intended, r, e).Success?
  {
  }

  lemma {:induction false} DecodableChildren(r: Dict, es: seq<Element>)
    requires forall e :: e in es ==> Decodable(e)
    ensures Children(Intended, r, es).Success?
    decreases |es|
  {
    if |es| > 0 {
      var init := es[..|es| - 1];
      assert forall e :: e in init ==> e in es;
      DecodableChildren(r, init);
      assert es[|es| - 1] in es;
      DecodableStep(Children(Intended, r, init).value, es[|es| - 1]);
    }
  }

  /** The loop over `a + b` is the loop over `b` after the loop over `a`. */
  lemma {:induction false} ChildrenAppend(mode: Mode, r: Dict, a: seq<Element>, b: seq<Element>)
    requires Children(mode, r, a).Success?
    ensures Children(mode, r, a + b) == Children(mode, Children(mode, r, a).value, b)
    decreases |b|
  {
    if |b| == 0 {
      assert a + b == a;
    } else {
      var init, last := b[..|b| - 1], b[|b| - 1];
      assert (a + b)[..|a + b| - 1] == a + init && (a + b)[|a + b| - 1] == last;
      ChildrenAppend(mode, r, a, init);
      var r1 := Children(mode, r, a).value;
      ChildrenLast(mode, r, a + b);
      ChildrenLast(mode, r1, b);
    }
  }

  /** Children after the last one named `t` do not change which one is last. */
  lemma {:induction false} LastOfAppend(a: seq<Element>, b: seq<Element>, t: Tag)
    requires forall e :: e in b ==> e.tag != t
    ensures LastOf(a + b, t) == LastOf(a, t)
    decreases |b|
  {
    if |b| == 0 {
      assert a + b == a;
    } else {
      assert (a + b)[..|a + b| - 1] == a + b[..|b| - 1];
      assert b[|b| - 1] in b;
      assert forall e :: e in b[..|b| - 1] ==> e in b;
      LastOfAppend(a, b[..|b| - 1], t);
    }
  }

  /** Every element of `es` is decodable. */
  predicate AllDecodable(es: seq<Element>) {
    forall e :: e in es ==> Decodable(e)
  }

  /** A record whose first child is an identity with both attributes and
      whose other children are decodable is accepted. */
  lemma AcceptedShape(ri: Element, rest: seq<Element>)
    requires ri.tag == RecordIdentity && RecordId in ri.attrs && CreateTime in ri.attrs
    requires AllDecodable(rest)
    ensures Verify(Intended, Element(JobUsageRecord, map[], None, [ri] + rest))
  {
    var doc := Element(JobUsageRecord, map[], None, [ri] + rest);
    assert [ri] == [] + [ri];
    ChildrenSnoc(Intended, map[], [], ri);
    var r1 := Step(Intended, map[], ri);
    assert r1.Success?;
    DecodableChildren(r1.value, rest);
    ChildrenAppend(Intended, map[], [ri], rest);
    assert InsertKeys(None, None, None) == Success(map[]);
    assert XmlToDict(Intended, doc, None, None, None).Success?;
    forall e | e in rest ensures e.tag != RecordIdentity {
      assert Decodable(e);
    }
    LastOfAppend([ri], rest, RecordIdentity);
    assert [ri][..0] == [];
    VerifyAccepts(Intended, doc);
  }

  /** A duration the decoder reads back without overflowing. */
  predicate DurationFits(v: Option<real>) {
    v.None? || (v.value >= 0.0 && Micros(v.value) < (MaxDays + 1) * MicrosPerDay)
  }

  lemma {:induction false} RuntimeDecodable(envs: seq<string>)
    ensures AllDecodable(RuntimeElements(envs))
    decreases |envs|
  {
    if |envs| > 0 {
      RuntimeDecodable(envs[..|envs| - 1]);
    }
  }

  lemma DurationElementDecodable(tag: Tag, v: Option<real>)
    requires tag == WallDuration || tag == CpuDuration || tag == UserTime || tag == KernelTime
    requires DurationFits(v)
    ensures AllDecodable(OptDuration(tag, v))
  {
    if v.Some? {
      DurationDecodes(Intended, v.value);
    }
  }

  lemma AllDecodableAppend(a: seq<Element>, b: seq<Element>)
    ensures AllDecodable(a + b) <==> AllDecodable(a) && AllDecodable(b)
  {
  }

  /** The names the decoder stores without reading a number, time or duration. */
  predicate PlainTag(t: Tag) {
    t == JobName || t == Status || t == MachineName || t == Queue || t == Host
    || t == SubmitHost || t == ProjectName
  }

  /** Names whose text the decoder reads as a number or a time. */
  predicate ValueTag(t: Tag) {
    t == Charge || t == NodeCount || t == Processors || t == ExitCode || t == MajorPageFaults
    || t == StartTime || t == EndTime || t == SubmitTime
  }

  lemma OptTextDecodable(tag: Tag, v: Option<string>)
    requires PlainTag(tag) || ValueTag(tag)
    ensures AllDecodable(OptText(tag, v))
  {
  }

  lemma OptScalarDecodable(tag: Tag, v: Option<Scalar>)
    requires ValueTag(tag)
    ensures AllDecodable(OptScalar(tag, v))
  {
  }

  lemma ScalarDecodable(ur: UsageRecord)
    ensures AllDecodable(ScalarPart(ur))
  {
    var a1, a2, a3 := OptText(JobName, ur.job_name), OptScalar(Charge, ur.charge), OptText(Status, ur.status);
    var a4, a5, a6 := OptText(MachineName, ur.machine_name), OptText(Queue, ur.queue), OptText(Host, ur.host);
    var a7, a8 := OptScalar(NodeCount, ur.node_count), OptScalar(Processors, ur.processors);
    var a9, a10 := OptText(SubmitHost, ur.submit_host), OptText(ProjectName, ur.project_name);
    var a11, a12, a13 := OptText(SubmitTime, ur.submit_time), OptText(StartTime, ur.start_time), OptText(EndTime, ur.end_time);
    OptTextDecodable(JobName, ur.job_name);
    OptScalarDecodable(Charge, ur.charge);
    OptTextDecodable(Status, ur.status);
    OptTextDecodable(MachineName, ur.machine_name);
    OptTextDecodable(Queue, ur.queue);
    OptTextDecodable(Host, ur.host);
    OptScalarDecodable(NodeCount, ur.node_count);
    OptScalarDecodable(Processors, ur.processors);
    OptTextDecodable(SubmitHost, ur.submit_host);
    OptTextDecodable(ProjectName, ur.project_name);
    OptTextDecodable(SubmitTime, ur.submit_time);
    OptTextDecodable(StartTime, ur.start_time);
    OptTextDecodable(EndTime, ur.end_time);
    AllDecodableAppend(a1, a2);
    AllDecodableAppend(a1 + a2, a3);
    AllDecodableAppend(a1 + a2 + a3, a4);
    AllDecodableAppend(a1 + a2 + a3 + a4, a5);
    AllDecodableAppend(a1 + a2 + a3 + a4 + a5, a6);
    AllDecodableAppend(a1 + a2 + a3 + a4 + a5 + a6, a7);
    AllDecodableAppend(a1 + a2 + a3 + a4 + a5 + a6 + a7, a8);
    AllDecodableAppend(a1 + a2 + a3 + a4 + a5 + a6 + a7 + a8, a9);
    AllDecodableAppend(a1 + a2 + a3 + a4 + a5 + a6 + a7 + a8 + a9, a10);
    AllDecodableAppend(a1 + a2 + a3 + a4 + a5 + a6 + a7 + a8 + a9 + a10, a11);
    AllDecodableAppend(a1 + a2 + a3 + a4 + a5 + a6 + a7 + a8 + a9 + a10 + a11, a12);
    AllDecodableAppend(a1 + a2 + a3 + a4 + a5 + a6 + a7 + a8 + a9 + a10 + a11 + a12, a13);
  }

  lemma DurationPartDecodable(ur: UsageRecord)
    requires DurationFits(ur.wall_duration) && DurationFits(ur.cpu_duration)
    requires DurationFits(ur.user_time) && DurationFits(ur.kernel_time)
    ensures AllDecodable(DurationPart(ur))
  {
    DurationElementDecodable(WallDuration, ur.wall_duration);
    DurationElementDecodable(CpuDuration, ur.cpu_duration);
    DurationElementDecodable(UserTime, ur.user_time);
    DurationElementDecodable(KernelTime, ur.kernel_time);
    OptScalarDecodable(ExitCode, ur.exit_code);
    OptScalarDecodable(MajorPageFaults, ur.major_page_faults);
    var a1, a2 := OptDuration(WallDuration, ur.wall_duration), OptDuration(CpuDuration, ur.cpu_duration);
    var a3, a4 := OptDuration(UserTime, ur.user_time), OptDuration(KernelTime, ur.kernel_time);
    var a5, a6 := OptScalar(ExitCode, ur.exit_code), OptScalar(MajorPageFaults, ur.major_page_faults);
    AllDecodableAppend(a1, a2);
    AllDecodableAppend(a1 + a2, a3);
    AllDecodableAppend(a1 + a2 + a3, a4);
    AllDecodableAppend(a1 + a2 + a3 + a4, a5);
    AllDecodableAppend(a1 + a2 + a3 + a4 + a5, a6);
  }

  /** The children the encoder writes after `RecordIdentity`. */
  function RecordRest(ur: UsageRecord, version: string): seq<Element> {
    JobIdentityPart(ur) + UserIdentityPart(ur) + ScalarPart(ur) + DurationPart(ur)
    + RuntimeElements(ur.runtime_environments) + [LoggerElement(version)]
  }

  lemma RecordRestDecodable(ur: UsageRecord, version: string)
    requires DurationFits(ur.wall_duration) && DurationFits(ur.cpu_duration)
    requires DurationFits(ur.user_time) && DurationFits(ur.kernel_time)
    ensures AllDecodable(RecordRest(ur, version))
  {
    var a, b, c := JobIdentityPart(ur), UserIdentityPart(ur), ScalarPart(ur);
    var d, e, f := DurationPart(ur), RuntimeElements(ur.runtime_environments), [LoggerElement(version)];
    ScalarDecodable(ur);
    DurationPartDecodable(ur);
    RuntimeDecodable(ur.runtime_environments);
    assert AllDecodable(a) && AllDecodable(b) && AllDecodable(f);
    AllDecodableAppend(a, b);
    AllDecodableAppend(a + b, c);
    AllDecodableAppend(a + b + c, d);
    AllDecodableAppend(a + b + c + d, e);
    AllDecodableAppend(a + b + c + d + e, f);
  }

  lemma Assoc<T>(x: seq<T>, a: seq<T>, b: seq<T>, c: seq<T>, d: seq<T>, e: seq<T>, f: seq<T>)
    ensures x + a + b + c + d + e + f == x + (a + b + c + d + e + f)
  {
  }

  /** Every record the encoder writes, durations within range, is accepted
      when reporting does not raise. */
  lemma EncodedRecordVerifies(ur: UsageRecord, createTime: string, version: string)
    requires ur.record_id.Some?
    requires DurationFits(ur.wall_duration) && DurationFits(ur.cpu_duration)
    requires DurationFits(ur.user_time) && DurationFits(ur.kernel_time)
    ensures EncodeRecord(ur, createTime, version).Success?
    ensures Verify(Intended, EncodeRecord(ur, createTime, version).value)
  {
    var ri := RecordIdentityElement(ur.record_id.value, createTime);
    Assoc([ri], JobIdentityPart(ur), UserIdentityPart(ur), ScalarPart(ur), DurationPart(ur),
          RuntimeElements(ur.runtime_environments), [LoggerElement(version)]);
    assert RecordChildren(ur, ur.record_id.value, createTime, version) == [ri] + RecordRest(ur, version);
    RecordRestDecodable(ur, version);
    AcceptedShape(ri, RecordRest(ur, version));
  }
}
