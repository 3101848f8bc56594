/** The usage record a backend fills in, and its encoding as a
    `JobUsageRecord` element following the Usage Record Format 1.0 (OGF
    GFD.98) with the SGAS virtual-organisation, DEISA submit-time and SGAS
    auxiliary extensions. Timestamps are written in the extended format of
    section 4.3.2 of ISO 8601:2004 with a `Z` designator and durations as
    `PTnS` (section 4.4.3.2). */
module UsageRecords {
  import opened Wrappers
  import opened Text
  import opened Numerals
  import opened Calendar
  import opened UrElements

  /** A value the encoder writes through Python's `str()`. */
  datatype Scalar = Str(s: string) | Int(i: int)

  function Render(x: Scalar): string {
    match x
    case Str(s) => s
    case Int(i) => IntToString(i)
  }

  /** `str(x)` of a value that may be None. */
  function RenderOpt(x: Option<string>): string {
    match x
    case Some(s) => s
    case None => "None"
  }

  /** One `[group, role, capability]` entry of a VO block. */
  datatype VoAttr = VoAttr(group: Option<string>, role: Option<string>, capability: Option<string>)

  /** `VOInformation`. `legacyType` is the attribute `type` that several
      backends assign, which is not the `type_` the encoder reads. */
  datatype VOInformation = VOInformation(
    name: Option<string>, type_: Option<string>, issuer: Option<string>,
    attributes: seq<VoAttr>, legacyType: Option<string>)

  /** `VOInformation(name, type_, issuer)`: no attributes. */
  function NewVOInformation(name: Option<string>, type_: Option<string>, issuer: Option<string>): (v: VOInformation)
    ensures v.name == name && v.type_ == type_ && v.issuer == issuer
    ensures v.attributes == [] && v.legacyType == None
  {
    VOInformation(name, type_, issuer, [], None)
  }

  datatype UsageRecord = UsageRecord(
    record_id: Option<string>,
    global_job_id: Option<string>,
    local_job_id: Option<string>,
    global_user_name: Option<string>,
    local_user_id: Option<string>,
    job_name: Option<string>,
    status: Option<string>,
    machine_name: Option<string>,
    queue: Option<string>,
    host: Option<string>,
    node_count: Option<Scalar>,
    processors: Option<Scalar>,
    submit_time: Option<string>,
    end_time: Option<string>,
    start_time: Option<string>,
    project_name: Option<string>,
    submit_host: Option<string>,
    wall_duration: Option<real>,
    cpu_duration: Option<real>,
    charge: Option<Scalar>,
    vo_info: seq<VOInformation>,
    user_time: Option<real>,
    kernel_time: Option<real>,
    exit_code: Option<Scalar>,
    major_page_faults: Option<Scalar>,
    runtime_environments: seq<string>)

  /** `UsageRecord()`: every field unset, no VO blocks, no runtime environments. */
  function NewUsageRecord(): (ur: UsageRecord)
    ensures ur.record_id.None? && ur.global_job_id.None? && ur.local_job_id.None?
    ensures ur.global_user_name.None? && ur.local_user_id.None? && ur.job_name.None?
    ensures ur.status.None? && ur.machine_name.None? && ur.queue.None? && ur.host.None?
    ensures ur.node_count.None? && ur.processors.None? && ur.submit_time.None?
    ensures ur.end_time.None? && ur.start_time.None? && ur.project_name.None?
    ensures ur.submit_host.None? && ur.wall_duration.None? && ur.cpu_duration.None?
    ensures ur.charge.None? && ur.vo_info == [] && ur.user_time.None? && ur.kernel_time.None?
    ensures ur.exit_code.None? && ur.major_page_faults.None? && ur.runtime_environments == []
  {
    UsageRecord(None, None, None, None, None, None, None, None, None, None, None, None,
                None, None, None, None, None, None, None, None, [], None, None, None, None, [])
  }

  // ---- time and duration texts ----

  /** `epoch2isoTime`: the UTC time of an integral epoch as
      `YYYY-MM-DDTHH:MM:SSZ`. The model's `GmTime` covers years 1 to 9999
      and its `Strftime` refuses years before 1900, both with ValueError;
      "## Left out" in README.md says where Python 2 differs. */
  function Epoch2IsoTime(t: int): (r: Result<string>)
    ensures r.Success? <==> GmTime(t).Some? && GmTime(t).value.year >= 1900
    ensures r.Success? ==> r.value == Strftime(IsoFormat, GmTime(t).value).value + "Z"
  {
    match GmTime(t)
    case None => Failure(ValueError)
    case Some(tm) => Gm2IsoTime(tm)
  }

  /** `gm2isoTime` */
  function Gm2IsoTime(tm: Tm): (r: Result<string>)
    requires ValidTm(tm)
    ensures r.Success? <==> tm.year >= 1900
  {
    var s :- Strftime(IsoFormat, tm);
    Success(s + "Z")
  }

  function Abs(x: real): real {
    if x < 0.0 then -x else x
  }

  /** Rounding to the nearest integer, ties to the even neighbour, as the
      `%f` conversion does for a value exactly halfway. */
  function RoundHalfEven(x: real): (q: int)
    ensures x - 0.5 <= q as real <= x + 0.5
  {
    var f := x.Floor;
    var d := x - f as real;
    if d > 0.5 || (d == 0.5 && f % 2 == 1) then f + 1 else f
  }

  /** The magnitude of `v` in millionths, as `%f` rounds it. */
  function Micros(v: real): (q: nat) {
    var q := RoundHalfEven(Abs(v) * 1000000.0);
    assert q >= 0 by { assert Abs(v) * 1000000.0 >= 0.0; }
    q
  }

  /** `"%f" % v`: sign, integer part, `.` and exactly six fraction digits. */
  function Fixed6(v: real): string {
    var q := Micros(v);
    (if v < 0.0 then "-" else "") + NatToString(q / 1000000) + "." + ZeroPad(NatToString(q % 1000000), 6)
  }

  /** `"PT%fS" % v` */
  function DurationText(v: real): string {
    "PT" + Fixed6(v) + "S"
  }

  /** The `%f` text of a non-negative value is its integer digits, a `.` and
      six digits whose value is the rounded fraction in millionths. */
  lemma Fixed6Parts(v: real)
    requires v >= 0.0
    ensures var q := Micros(v);
      var w, f := NatToString(q / 1000000), ZeroPad(NatToString(q % 1000000), 6);
      Fixed6(v) == w + "." + f && IsDigits(w) && |f| == 6 && IsDigits(f)
      && DigitsValue(w) == q / 1000000 && DigitsValue(f) == q % 1000000
  {
    var q := Micros(v);
    ZeroPadValue(q % 1000000, 6);
    NatToStringLength(q % 1000000, 6);
  }

  /** A number below 10^k has at most k digits. */
  lemma {:induction false} NatToStringLength(n: nat, k: nat)
    requires 1 <= k && n < Pow10(k)
    ensures |NatToString(n)| <= k
  {
    if n >= 10 {
      NatToStringLength(n / 10, k - 1);
    }
  }

  /** `%f` reproduces a value that has at most six fraction digits exactly. */
  lemma MicrosExact(q: nat)
    ensures Micros(q as real / 1000000.0) == q
  {
    var v := q as real / 1000000.0;
    assert Abs(v) * 1000000.0 == q as real;
  }

  // ---- the encoder ----

  /** A `<tag>str(value)</tag>` child when the value is set. */
  function OptText(tag: Tag, v: Option<string>): seq<Element> {
    if v.Some? then [TextElement(tag, v.value)] else []
  }

  function OptScalar(tag: Tag, v: Option<Scalar>): seq<Element> {
    if v.Some? then [TextElement(tag, Render(v.value))] else []
  }

  function OptDuration(tag: Tag, v: Option<real>): seq<Element> {
    if v.Some? then [TextElement(tag, DurationText(v.value))] else []
  }

  /** An `Attribute` block: `Group` always, `Role` and `Capability` when set. */
  function AttrElement(a: VoAttr): Element {
    Element(VoAttribute, map[], None,
      [TextElement(VoGroup, RenderOpt(a.group))] + OptText(VoRole, a.role) + OptText(VoCapability, a.capability))
  }

  function AttrElements(attrs: seq<VoAttr>): (r: seq<Element>)
    ensures |r| == |attrs|
  {
    if |attrs| == 0 then [] else AttrElements(attrs[..|attrs| - 1]) + [AttrElement(attrs[|attrs| - 1])]
  }

  /** A `VO` block: the `type` attribute only when `type_` is set, `Name`
      always, `Issuer` when set, then one `Attribute` per entry. */
  function VoElement(v: VOInformation): Element {
    Element(Vo, if v.type_.Some? then map[VoType := v.type_.value] else map[], None,
      [TextElement(VoName, RenderOpt(v.name))] + OptText(VoIssuer, v.issuer) + AttrElements(v.attributes))
  }

  function VoElements(vs: seq<VOInformation>): (r: seq<Element>)
    ensures |r| == |vs|
  {
    if |vs| == 0 then [] else VoElements(vs[..|vs| - 1]) + [VoElement(vs[|vs| - 1])]
  }

  function RuntimeElements(envs: seq<string>): (r: seq<Element>)
    ensures |r| == |envs|
  {
    if |envs| == 0 then [] else RuntimeElements(envs[..|envs| - 1]) + [TextElement(RuntimeEnvironment, envs[|envs| - 1])]
  }

  const LoggerNameValue := "SGAS-BaRT"

  function RecordIdentityElement(recordId: string, createTime: string): Element {
    Element(RecordIdentity, map[RecordId := recordId, CreateTime := createTime], None, [])
  }

  function JobIdentityPart(ur: UsageRecord): seq<Element> {
    if ur.global_job_id.Some? || ur.local_job_id.Some? then
      [Element(JobIdentity, map[], None, OptText(GlobalJobId, ur.global_job_id) + OptText(LocalJobId, ur.local_job_id))]
    else []
  }

  /** Present when the global user name or, as the code tests, the local job
      id is set. */
  function UserIdentityPart(ur: UsageRecord): seq<Element> {
    if ur.global_user_name.Some? || ur.local_job_id.Some? then
      [Element(UserIdentity, map[], None,
        OptText(LocalUserId, ur.local_user_id) + OptText(GlobalUserName, ur.global_user_name) + VoElements(ur.vo_info))]
    else []
  }

  /** The scalar elements, in the encoder's fixed order. */
  function ScalarPart(ur: UsageRecord): seq<Element> {
    OptText(JobName, ur.job_name) + OptScalar(Charge, ur.charge) + OptText(Status, ur.status)
    + OptText(MachineName, ur.machine_name) + OptText(Queue, ur.queue) + OptText(Host, ur.host)
    + OptScalar(NodeCount, ur.node_count) + OptScalar(Processors, ur.processors)
    + OptText(SubmitHost, ur.submit_host) + OptText(ProjectName, ur.project_name)
    + OptText(SubmitTime, ur.submit_time) + OptText(StartTime, ur.start_time) + OptText(EndTime, ur.end_time)
  }

  function DurationPart(ur: UsageRecord): seq<Element> {
    OptDuration(WallDuration, ur.wall_duration) + OptDuration(CpuDuration, ur.cpu_duration)
    + OptDuration(UserTime, ur.user_time) + OptDuration(KernelTime, ur.kernel_time)
    + OptScalar(ExitCode, ur.exit_code) + OptScalar(MajorPageFaults, ur.major_page_faults)
  }

  function LoggerElement(version: string): Element {
    Element(LoggerName, map[LoggerVersion := version], Some(LoggerNameValue), [])
  }

  /** The children of the `JobUsageRecord` element. */
  function RecordChildren(ur: UsageRecord, recordId: string, createTime: string, version: string): seq<Element> {
    [RecordIdentityElement(recordId, createTime)] + JobIdentityPart(ur) + UserIdentityPart(ur)
    + ScalarPart(ur) + DurationPart(ur) + RuntimeElements(ur.runtime_environments) + [LoggerElement(version)]
  }

  /** `generateTree` as a value: AssertionError without a record id. The
      creation time (the current UTC time, `YYYY-MM-DDTHH:MM:SSZ`) and the
      package version are parameters. */
  function EncodeRecord(ur: UsageRecord, createTime: string, version: string): (r: Result<Element>)
    ensures r.Failure? <==> ur.record_id.None?
    ensures r.Failure? ==> r.error == AssertionError
    ensures r.Success? ==> r.value.tag == JobUsageRecord && |r.value.children| >= 2
    ensures r.Success? ==> r.value.children[0] == RecordIdentityElement(ur.record_id.value, createTime)
    ensures r.Success? ==> r.value.children[|r.value.children| - 1] == LoggerElement(version)
  {
    if ur.record_id.None? then Failure(AssertionError)
    else Success(Element(JobUsageRecord, map[], None, RecordChildren(ur, ur.record_id.value, createTime, version)))
  }

  /** `UsageRecord.generateTree`, appending the children one by one. */
  method GenerateTree(ur: UsageRecord, createTime: string, version: string) returns (r: Result<Element>)
    ensures r == EncodeRecord(ur, createTime, version)
  {
    if ur.record_id.None? {
      return Failure(AssertionError);
    }
    var children := [RecordIdentityElement(ur.record_id.value, createTime)];
    if ur.global_job_id.Some? || ur.local_job_id.Some? {
      var ids := [];
      if ur.global_job_id.Some? {
        ids := ids + [TextElement(GlobalJobId, ur.global_job_id.value)];
      }
      if ur.local_job_id.Some? {
        ids := ids + [TextElement(LocalJobId, ur.local_job_id.value)];
      }
      assert ids == OptText(GlobalJobId, ur.global_job_id) + OptText(LocalJobId, ur.local_job_id);
      children := children + [Element(JobIdentity, map[], None, ids)];
    }
    assert children == [RecordIdentityElement(ur.record_id.value, createTime)] + JobIdentityPart(ur);
    var users := BuildUserIdentity(ur);
    children := children + users + ScalarPart(ur) + DurationPart(ur);
    var envs := BuildRuntimeEnvironments(ur.runtime_environments);
    children := children + envs + [LoggerElement(version)];
    assert children == RecordChildren(ur, ur.record_id.value, createTime, version);
    return Success(Element(JobUsageRecord, map[], None, children));
  }

  /** The `UserIdentity` element, if any, its VO blocks appended in a loop. */
  method BuildUserIdentity(ur: UsageRecord) returns (part: seq<Element>)
    ensures part == UserIdentityPart(ur)
  {
    if !(ur.global_user_name.Some? || ur.local_job_id.Some?) {
      return [];
    }
    var ids := OptText(LocalUserId, ur.local_user_id) + OptText(GlobalUserName, ur.global_user_name);
    var users := ids;
    var i := 0;
    while i < |ur.vo_info|
      invariant 0 <= i <= |ur.vo_info|
      invariant users == ids + VoElements(ur.vo_info[..i])
    {
      var vo := BuildVo(ur.vo_info[i]);
      users := users + [vo];
      assert ur.vo_info[..i + 1][..i] == ur.vo_info[..i];
      i := i + 1;
    }
    assert ur.vo_info[..i] == ur.vo_info;
    part := [Element(UserIdentity, map[], None, users)];
  }

  /** One `RuntimeEnvironment` element per entry, in order. */
  method BuildRuntimeEnvironments(envs: seq<string>) returns (part: seq<Element>)
    ensures part == RuntimeElements(envs)
  {
    part := [];
    var k := 0;
    while k < |envs|
      invariant 0 <= k <= |envs|
      invariant part == RuntimeElements(envs[..k])
    {
      part := part + [TextElement(RuntimeEnvironment, envs[k])];
      assert envs[..k + 1][..k] == envs[..k];
      k := k + 1;
    }
    assert envs[..k] == envs;
  }

  /** One `VO` block, its attribute entries appended in a loop. */
  method BuildVo(v: VOInformation) returns (e: Element)
    ensures e == VoElement(v)
  {
    var attrib: map<Tag, string> := map[];
    if v.type_.Some? {
      attrib := attrib[VoType := v.type_.value];
    }
    var kids := [TextElement(VoName, RenderOpt(v.name))] + OptText(VoIssuer, v.issuer);
    var j := 0;
    while j < |v.attributes|
      invariant 0 <= j <= |v.attributes|
      invariant kids == [TextElement(VoName, RenderOpt(v.name))] + OptText(VoIssuer, v.issuer) + AttrElements(v.attributes[..j])
    {
      kids := kids + [AttrElement(v.attributes[j])];
      assert v.attributes[..j + 1][..j] == v.attributes[..j];
      j := j + 1;
    }
    assert v.attributes[..j] == v.attributes;
    e := Element(Vo, attrib, None, kids);
  }
}
