/** The permissive decoder from a `JobUsageRecord` element to a dictionary. */
module UrParser {
  import opened Wrappers
  import opened Text
  import opened Numerals
  import opened Calendar
  import opened UrElements
  import opened IsoDuration

  /** The keys the decoder writes; each constructor is named as the
      dictionary key it stands for. */
  datatype Key =
    | insert_identity | insert_hostname | insert_time
    | record_id | create_time | global_job_id | local_job_id
    | local_user_id | global_user_name | vo_type | vo_name | vo_issuer | vo_attrs
    | group | role
    | job_name | status | charge | wall_duration | cpu_duration | node_count | processors
    | start_time | end_time | project_name | submit_host | machine_name | host | queue
    | submit_time | user_time | kernel_time | exit_code | major_page_faults
    | runtime_environments
    | url | size | bypass_cache | from_cache | downloads | uploads

  /** A value the decoder stores: None, text, numbers, booleans, lists and
      nested dictionaries. */
  datatype DValue =
    | DNone | DStr(s: string) | DInt(i: int) | DReal(r: real) | DBool(b: bool)
    | DList(items: seq<DValue>) | DDict(m: map<Key, DValue>)

  type Dict = map<Key, DValue>

  // Every `logging.error` and `logging.warning` call of the decoder passes a
  // `system=` keyword, which the standard library's logger rejects with
  // TypeError (Mode `AsWritten`); `Intended` is the logged message followed
  // by the fallback value.

  /** A reporting call followed by `fallback`. */
  function Logged<T>(mode: Mode, fallback: T): (r: Result<T>)
    ensures mode == AsWritten ==> r == Failure(TypeError)
    ensures mode == Intended ==> r == Success(fallback)
  {
    if mode == AsWritten then Failure(TypeError) else Success(fallback)
  }

  /** `element.text` as stored: None when the element has no text. */
  function TextValue(t: Option<string>): (v: DValue)
    ensures v == DNone <==> t.None?
  {
    if t.Some? then DStr(t.value) else DNone
  }

  // ---- value parsers ----

  /** `parseBoolean`: `1` or `true` (any case) is True, `0` or `false` is
      False, anything else is reported; a missing text fails on `.lower()`. */
  function ParseBoolean(mode: Mode, value: Option<string>): (r: Result<DValue>)
    ensures value.None? ==> r == Failure(AttributeError)
    ensures value.Some? ==>
      (r == Success(DBool(true)) <==> value.value == "1" || Lower(value.value) == "true")
    ensures value.Some? ==>
      (r == Success(DBool(false)) <==> !(value.value == "1" || Lower(value.value) == "true")
                                        && (value.value == "0" || Lower(value.value) == "false"))
    ensures value.Some? && r.Failure? ==> mode == AsWritten && r.error == TypeError
    ensures value.Some? && mode == Intended ==> r.Success?
  {
    if value.None? then Failure(AttributeError)
    else
      var s := value.value;
      if s == "1" || Lower(s) == "true" then Success(DBool(true))
      else if s == "0" || Lower(s) == "false" then Success(DBool(false))
      else Logged(mode, DNone)
  }

  /** `parseInt`: `int(value)`, reported on text that is not an integer;
      `int(None)` raises TypeError, which is not caught. */
  function ParseIntValue(mode: Mode, value: Option<string>): (r: Result<DValue>)
    ensures value.None? ==> r == Failure(TypeError)
    ensures value.Some? && ParseInt(value.value).None? ==> r == Logged(mode, DNone)
    ensures r.Success? && r.value != DNone ==> value.Some? && r.value == DInt(ParseInt(value.value).value)
  {
    if value.None? then Failure(TypeError)
    else match ParseInt(value.value)
      case Some(i) => Success(DInt(i))
      case None => Logged(mode, DNone)
  }

  /** `parseFloat`: `float(value)`, reported on text that is not a number. */
  function ParseFloatValue(mode: Mode, value: Option<string>): (r: Result<DValue>)
    ensures value.None? ==> r == Failure(TypeError)
    ensures value.Some? && ParseFloat(value.value).None? ==> r == Logged(mode, DNone)
    ensures r.Success? && r.value != DNone ==> value.Some? && r.value == DReal(ParseFloat(value.value).value)
  {
    if value.None? then Failure(TypeError)
    else match ParseFloat(value.value)
      case Some(v) => Success(DReal(v))
      case None => Logged(mode, DNone)
  }

  /** `parseISODuration`: the whole seconds of the duration, its
      microseconds dropped; ValueError is reported, OverflowError and the
      TypeError of a missing text are not caught. */
  function ParseIsoDurationValue(mode: Mode, value: Option<string>): (r: Result<DValue>)
    ensures value.None? ==> r == Failure(TypeError)
    ensures value.Some? && ParseDuration(value.value).Success? ==>
      r == Success(DInt(TotalMicros(ParseDuration(value.value).value) / MicrosPerSecond))
    ensures value.Some? && ParseDuration(value.value) == Failure(ValueError) ==> r == Logged(mode, DNone)
    ensures value.Some? && ParseDuration(value.value) == Failure(OverflowError) ==> r == Failure(OverflowError)
  {
    if value.None? then Failure(TypeError)
    else
      var d := ParseDuration(value.value);
      if d.Success? then
        var td := d.value;
        var w := td.days * 86400 + td.seconds;
        WholeSecondsOf(td);
        assert w == TotalMicros(td) / MicrosPerSecond;
        Success(DInt(w))
      else if d.error == ValueError then Logged(mode, DNone)
      else Failure(d.error)
  }

  /** The part of `isodate.parse_datetime` the records use: an extended
      `YYYY-MM-DDTHH:MM:SS` timestamp, optionally followed by `Z`; anything
      else fails with ValueError. */
  function ParseDateTime(s: string): (r: Result<Tm>)
    ensures r.Success? ==> ValidTm(r.value) && r.value.second <= 59
    ensures r.Failure? ==> r.error == ValueError
  {
    var body := if |s| > 0 && s[|s| - 1] == 'Z' then s[..|s| - 1] else s;
    var tm :- Strptime(IsoFormat, body);
    if tm.second > 59 then Failure(ValueError) else Success(tm)
  }

  /** A timestamp the encoder writes is read back as the time it denotes. */
  lemma ParseDateTimeIso(tm: Tm)
    requires ValidTm(tm) && tm.year >= 1900 && tm.second <= 59
    ensures ParseDateTime(Strftime(IsoFormat, tm).value + "Z") == Success(tm)
    ensures ParseDateTime(Strftime(IsoFormat, tm).value) == Success(tm)
  {
    var s := Strftime(IsoFormat, tm).value;
    var z := s + "Z";
    assert z[..|z| - 1] == s;
    FormatItemsChars(IsoFormat, tm);
    assert Lit('Z') !in IsoFormat;
    assert |s| > 0 && s[|s| - 1] != 'Z' by {
      assert s[|s| - 1] in s;
    }
    IsoFormatComplete();
    StrptimeStrftime(IsoFormat, tm);
  }

  /** `parseISODateTime`: the time rewritten as `YYYY MM DD HH:MM:SS`; a
      text that does not parse (or a year `strftime` refuses) is reported. */
  function ParseIsoDateTime(mode: Mode, value: Option<string>): (r: Result<DValue>)
    ensures value.None? ==> r == Failure(AttributeError)
    ensures value.Some? && ParseDateTime(value.value).Success? && ParseDateTime(value.value).value.year >= 1900 ==>
      r == Success(DStr(Strftime(JsonFormat, ParseDateTime(value.value).value).value))
    ensures value.Some? && (ParseDateTime(value.value).Failure? || ParseDateTime(value.value).value.year < 1900) ==>
      r == Logged(mode, DNone)
  {
    if value.None? then Failure(AttributeError)
    else match ParseDateTime(value.value)
      case Failure(_) => Logged(mode, DNone)
      case Success(tm) =>
        match Strftime(JsonFormat, tm)
        case Success(t) => Success(DStr(t))
        case Failure(_) => Logged(mode, DNone)
  }

  /** A timestamp the encoder writes is decoded to the same time in the
      dictionary's `YYYY MM DD HH:MM:SS` form. */
  lemma ParseIsoDateTimeIso(mode: Mode, tm: Tm)
    requires ValidTm(tm) && tm.year >= 1900 && tm.second <= 59
    ensures Strftime(JsonFormat, tm).Success?
    ensures ParseIsoDateTime(mode, Some(Strftime(IsoFormat, tm).value + "Z")) == Success(DStr(Strftime(JsonFormat, tm).value))
  {
    ParseDateTimeIso(tm);
  }

  // ---- the elements nested in JobIdentity, UserIdentity and FileTransfers ----

  function JobIdStep(r: Dict, e: Element): Dict {
    if e.tag == GlobalJobId then r[global_job_id := TextValue(e.text)]
    else if e.tag == LocalJobId then r[local_job_id := TextValue(e.text)]
    else r
  }

  /** The loop over the children of `JobIdentity`. */
  function JobIdFold(r: Dict, es: seq<Element>): Dict
    decreases |es|
  {
    if |es| == 0 then r else JobIdStep(JobIdFold(r, es[..|es| - 1]), es[|es| - 1])
  }

  function AttrStep(d: Dict, e: Element): Dict {
    if e.tag == VoGroup then d[group := TextValue(e.text)]
    else if e.tag == VoRole then d[role := TextValue(e.text)]
    else d
  }

  /** The loop over the children of a VO `Attribute`: group and role only. */
  function AttrFold(d: Dict, es: seq<Element>): Dict
    decreases |es|
  {
    if |es| == 0 then d else AttrStep(AttrFold(d, es[..|es| - 1]), es[|es| - 1])
  }

  function VoStep(r: Dict, attrs: seq<DValue>, e: Element): (Dict, seq<DValue>) {
    if e.tag == VoName then (r[vo_name := TextValue(e.text)], attrs)
    else if e.tag == VoIssuer then (r[vo_issuer := TextValue(e.text)], attrs)
    else if e.tag == VoAttribute then (r, attrs + [DDict(AttrFold(map[], e.children))])
    else (r, attrs)
  }

  /** The loop over the children of a `VO` element, collecting its attributes. */
  function VoFold(r: Dict, es: seq<Element>): (Dict, seq<DValue>)
    decreases |es|
  {
    if |es| == 0 then (r, [])
    else
      var (r', attrs) := VoFold(r, es[..|es| - 1]);
      VoStep(r', attrs, es[|es| - 1])
  }

  /** A `VO` element: its type always, `vo_attrs` only when it has attributes. */
  function VoBlock(r: Dict, v: Element): Dict {
    var (r', attrs) := VoFold(r[vo_type := TextValue(GetAttr(v, VoType))], v.children);
    if |attrs| > 0 then r'[vo_attrs := DList(attrs)] else r'
  }

  function UserIdStep(r: Dict, e: Element): Dict {
    if e.tag == LocalUserId then r[local_user_id := TextValue(e.text)]
    else if e.tag == GlobalUserName then r[global_user_name := TextValue(e.text)]
    else if e.tag == Vo then VoBlock(r, e)
    else r
  }

  /** The loop over the children of `UserIdentity`. */
  function UserIdFold(r: Dict, es: seq<Element>): Dict
    decreases |es|
  {
    if |es| == 0 then r else UserIdStep(UserIdFold(r, es[..|es| - 1]), es[|es| - 1])
  }

  function TransferStep(mode: Mode, d: Dict, e: Element): Result<Dict> {
    match e.tag
    case TransferUrl => Success(d[url := TextValue(e.text)])
    case TransferSize => var v :- ParseIntValue(mode, e.text); Success(d[size := v])
    case TransferStartTime => var v :- ParseIsoDateTime(mode, e.text); Success(d[start_time := v])
    case TransferEndTime => var v :- ParseIsoDateTime(mode, e.text); Success(d[end_time := v])
    case TransferBypassCache => var v :- ParseBoolean(mode, e.text); Success(d[bypass_cache := v])
    case TransferRetrievedFromCache => var v :- ParseBoolean(mode, e.text); Success(d[from_cache := v])
    case _ => Success(d)
  }

  /** The loop over the children of a download or an upload. */
  function TransferFold(mode: Mode, d: Dict, es: seq<Element>): Result<Dict>
    decreases |es|
  {
    if |es| == 0 then Success(d)
    else
      var d' :- TransferFold(mode, d, es[..|es| - 1]);
      TransferStep(mode, d', es[|es| - 1])
  }

  /** The list stored under `k`, empty when there is none. */
  function Items(r: Dict, k: Key): seq<DValue> {
    if k in r && r[k].DList? then r[k].items else []
  }

  /** `r.setdefault(k, []).append(v)` */
  function Append(r: Dict, k: Key, v: DValue): (r': Dict)
    ensures Items(r', k) == Items(r, k) + [v]
    ensures forall k' :: k' != k ==> (k' in r' <==> k' in r) && (k' in r ==> r'[k'] == r[k'])
  {
    r[k := DList(Items(r, k) + [v])]
  }

  function FileTransferStep(mode: Mode, r: Dict, e: Element): Result<Dict> {
    if e.tag == FileDownload then
      var d :- TransferFold(mode, map[], e.children); Success(Append(r, downloads, DDict(d)))
    else if e.tag == FileUpload then
      var d :- TransferFold(mode, map[], e.children); Success(Append(r, uploads, DDict(d)))
    else Success(r)
  }

  /** The loop over the children of `FileTransfers`. */
  function FileTransferFold(mode: Mode, r: Dict, es: seq<Element>): Result<Dict>
    decreases |es|
  {
    if |es| == 0 then Success(r)
    else
      var r' :- FileTransferFold(mode, r, es[..|es| - 1]);
      FileTransferStep(mode, r', es[|es| - 1])
  }

  // ---- the top-level elements ----

  /** One child of the record. */
  function Step(mode: Mode, r: Dict, e: Element): Result<Dict> {
    match e.tag
    case RecordIdentity =>
      var ct :- ParseIsoDateTime(mode, GetAttr(e, CreateTime));
      Success(r[record_id := TextValue(GetAttr(e, RecordId))][create_time := ct])
    case JobIdentity => Success(JobIdFold(r, e.children))
    case UserIdentity => Success(UserIdFold(r, e.children))
    case JobName => Success(r[job_name := TextValue(e.text)])
    case Status => Success(r[status := TextValue(e.text)])
    case Charge => var v :- ParseFloatValue(mode, e.text); Success(r[charge := v])
    case WallDuration => var v :- ParseIsoDurationValue(mode, e.text); Success(r[wall_duration := v])
    case CpuDuration => var v :- ParseIsoDurationValue(mode, e.text); Success(r[cpu_duration := v])
    case NodeCount => var v :- ParseIntValue(mode, e.text); Success(r[node_count := v])
    case Processors => var v :- ParseIntValue(mode, e.text); Success(r[processors := v])
    case StartTime => var v :- ParseIsoDateTime(mode, e.text); Success(r[start_time := v])
    case EndTime => var v :- ParseIsoDateTime(mode, e.text); Success(r[end_time := v])
    case ProjectName => Success(r[project_name := TextValue(e.text)])
    case SubmitHost => Success(r[submit_host := TextValue(e.text)])
    case MachineName => Success(r[machine_name := TextValue(e.text)])
    case Host => Success(r[host := TextValue(e.text)])
    case Queue => Success(r[queue := TextValue(e.text)])
    case SubmitTime => var v :- ParseIsoDateTime(mode, e.text); Success(r[submit_time := v])
    case Ksi2kWallDuration => Logged(mode, r)
    case Ksi2kCpuDuration => Logged(mode, r)
    case UserTime => var v :- ParseIsoDurationValue(mode, e.text); Success(r[user_time := v])
    case KernelTime => var v :- ParseIsoDurationValue(mode, e.text); Success(r[kernel_time := v])
    case ExitCode => var v :- ParseIntValue(mode, e.text); Success(r[exit_code := v])
    case MajorPageFaults => var v :- ParseIntValue(mode, e.text); Success(r[major_page_faults := v])
    case RuntimeEnvironment => Success(Append(r, runtime_environments, TextValue(e.text)))
    case LoggerName => Success(r)
    case FileTransfers => FileTransferFold(mode, r, e.children)
    case _ => Logged(mode, r)
  }

  /** A `RecordIdentity` child whose creation time decodes sets `record_id`
      and `create_time` and nothing else. */
  lemma IdentityStep(mode: Mode, r: Dict, e: Element)
    requires e.tag == RecordIdentity && ParseIsoDateTime(mode, GetAttr(e, CreateTime)).Success?
    ensures Step(mode, r, e)
         == Success(r[record_id := TextValue(GetAttr(e, RecordId))][create_time := ParseIsoDateTime(mode, GetAttr(e, CreateTime)).value])
  {
  }

  /** The loop over the children of the record. */
  function Children(mode: Mode, r: Dict, es: seq<Element>): Result<Dict>
    decreases |es|
  {
    if |es| == 0 then Success(r)
    else
      var r' :- Children(mode, r, es[..|es| - 1]);
      Step(mode, r', es[|es| - 1])
  }

  /** The loop over a non-empty list is the last step after the loop over the rest. */
  lemma ChildrenLast(mode: Mode, r: Dict, es: seq<Element>)
    requires |es| > 0
    ensures Children(mode, r, es) == match Children(mode, r, es[..|es| - 1])
                                     case Success(r1) => Step(mode, r1, es[|es| - 1])
                                     case Failure(x) => Failure(x)
  {
  }

  /** Older loggers put the processor count in `node_count`: when only
      `node_count` is present it moves to `processors`. */
  function FoldNodeCount(r: Dict): (r': Dict)
    ensures processors in r' <==> processors in r || node_count in r
    ensures processors in r' ==> r'[processors] == if processors in r then r[processors] else r[node_count]
    ensures node_count in r' <==> processors in r && node_count in r
    ensures node_count in r' ==> r'[node_count] == r[node_count]
    ensures forall k :: k != processors && k != node_count ==> (k in r' <==> k in r) && (k in r ==> r'[k] == r[k])
  {
    if processors !in r && node_count in r then r[processors := r[node_count]] - {node_count} else r
  }

  /** The `insert_*` keys, set only for the arguments that are not None;
      `time.strftime` refuses an invalid time or a year before 1900 with ValueError. */
  function InsertKeys(identity: Option<string>, hostname: Option<string>, insertTime: Option<Tm>): (r: Result<Dict>)
    ensures r.Success? ==> r.value.Keys <= {insert_identity, insert_hostname, insert_time}
    ensures r.Success? ==> (insert_identity in r.value <==> identity.Some?)
    ensures r.Success? && identity.Some? ==> r.value[insert_identity] == DStr(identity.value)
    ensures r.Success? ==> (insert_hostname in r.value <==> hostname.Some?)
    ensures r.Success? && hostname.Some? ==> r.value[insert_hostname] == DStr(hostname.value)
    ensures r.Success? ==> (insert_time in r.value <==> insertTime.Some?)
    ensures r.Failure? <==> insertTime.Some? && (!ValidTm(insertTime.value) || insertTime.value.year < 1900)
    ensures r.Failure? ==> r.error == ValueError
  {
    var r0: Dict := map[];
    var r1 := if identity.Some? then r0[insert_identity := DStr(identity.value)] else r0;
    var r2 := if hostname.Some? then r1[insert_hostname := DStr(hostname.value)] else r1;
    if insertTime.None? then Success(r2)
    else if !ValidTm(insertTime.value) then Failure(ValueError)
    else
      var t :- Strftime(JsonFormat, insertTime.value);
      Success(r2[insert_time := DStr(t)])
  }

  /** `xmlToDict`: AssertionError unless the root is a `JobUsageRecord`. */
  function XmlToDict(mode: Mode, doc: Element, identity: Option<string>, hostname: Option<string>,
                     insertTime: Option<Tm>): (r: Result<Dict>)
    ensures doc.tag != JobUsageRecord ==> r == Failure(AssertionError)
  {
    if doc.tag != JobUsageRecord then Failure(AssertionError)
    else
      var r0 :- InsertKeys(identity, hostname, insertTime);
      var r1 :- Children(mode, r0, doc.children);
      Success(FoldNodeCount(r1))
  }

  // ---- the decoder's loops ----

  /** A failure part-way through a loop is the failure of the whole loop. */
  lemma {:induction false} TransferFoldFails(mode: Mode, d: Dict, es: seq<Element>, i: nat)
    requires i <= |es| && TransferFold(mode, d, es[..i]).Failure?
    ensures TransferFold(mode, d, es) == TransferFold(mode, d, es[..i])
    decreases |es| - i
  {
    if i < |es| {
      assert es[..i + 1][..i] == es[..i];
      TransferFoldFails(mode, d, es, i + 1);
    } else {
      assert es[..i] == es;
    }
  }

  lemma {:induction false} FileTransferFoldFails(mode: Mode, r: Dict, es: seq<Element>, i: nat)
    requires i <= |es| && FileTransferFold(mode, r, es[..i]).Failure?
    ensures FileTransferFold(mode, r, es) == FileTransferFold(mode, r, es[..i])
    decreases |es| - i
  {
    if i < |es| {
      assert es[..i + 1][..i] == es[..i];
      FileTransferFoldFails(mode, r, es, i + 1);
    } else {
      assert es[..i] == es;
    }
  }

  lemma {:induction false} ChildrenFails(mode: Mode, r: Dict, es: seq<Element>, i: nat)
    requires i <= |es| && Children(mode, r, es[..i]).Failure?
    ensures Children(mode, r, es) == Children(mode, r, es[..i])
    decreases |es| - i
  {
    if i < |es| {
      assert es[..i + 1][..i] == es[..i];
      ChildrenFails(mode, r, es, i + 1);
    } else {
      assert es[..i] == es;
    }
  }

  /** The loop over the children of `JobIdentity`. */
  method DecodeJobIdentity(r0: Dict, es: seq<Element>) returns (r: Dict)
    ensures r == JobIdFold(r0, es)
  {
    r := r0;
    var i := 0;
    while i < |es|
      invariant 0 <= i <= |es| && r == JobIdFold(r0, es[..i])
    {
      assert es[..i + 1][..i] == es[..i];
      var sub := es[i];
      if sub.tag == GlobalJobId {
        r := r[global_job_id := TextValue(sub.text)];
      } else if sub.tag == LocalJobId {
        r := r[local_job_id := TextValue(sub.text)];
      }
      i := i + 1;
    }
    assert es[..i] == es;
  }

  /** The loop over the children of a VO `Attribute`, filling a fresh dictionary. */
  method DecodeVoAttribute(es: seq<Element>) returns (attr: Dict)
    ensures attr == AttrFold(map[], es)
  {
    attr := map[];
    var i := 0;
    while i < |es|
      invariant 0 <= i <= |es| && attr == AttrFold(map[], es[..i])
    {
      assert es[..i + 1][..i] == es[..i];
      var va := es[i];
      if va.tag == VoGroup {
        attr := attr[group := TextValue(va.text)];
      } else if va.tag == VoRole {
        attr := attr[role := TextValue(va.text)];
      }
      i := i + 1;
    }
    assert es[..i] == es;
  }

  /** One `VO` element of `UserIdentity`. */
  method DecodeVo(r0: Dict, v: Element) returns (r: Dict)
    ensures r == VoBlock(r0, v)
  {
    var start := r0[vo_type := TextValue(GetAttr(v, VoType))];
    r := start;
    var attrs: seq<DValue> := [];
    var es := v.children;
    var i := 0;
    while i < |es|
      invariant 0 <= i <= |es| && (r, attrs) == VoFold(start, es[..i])
    {
      assert es[..i + 1][..i] == es[..i];
      var ve := es[i];
      if ve.tag == VoName {
        r := r[vo_name := TextValue(ve.text)];
      } else if ve.tag == VoIssuer {
        r := r[vo_issuer := TextValue(ve.text)];
      } else if ve.tag == VoAttribute {
        var attr := DecodeVoAttribute(ve.children);
        attrs := attrs + [DDict(attr)];
      }
      i := i + 1;
    }
    assert es[..i] == es;
    if |attrs| > 0 {
      r := r[vo_attrs := DList(attrs)];
    }
  }

  /** The loop over the children of `UserIdentity`. */
  method DecodeUserIdentity(r0: Dict, es: seq<Element>) returns (r: Dict)
    ensures r == UserIdFold(r0, es)
  {
    r := r0;
    var i := 0;
    while i < |es|
      invariant 0 <= i <= |es| && r == UserIdFold(r0, es[..i])
    {
      assert es[..i + 1][..i] == es[..i];
      var sub := es[i];
      if sub.tag == LocalUserId {
        r := r[local_user_id := TextValue(sub.text)];
      } else if sub.tag == GlobalUserName {
        r := r[global_user_name := TextValue(sub.text)];
      } else if sub.tag == Vo {
        r := DecodeVo(r, sub);
      }
      i := i + 1;
    }
    assert es[..i] == es;
  }

  /** The loop over the children of a download or an upload. */
  method DecodeTransfer(mode: Mode, es: seq<Element>) returns (res: Result<Dict>)
    ensures res == TransferFold(mode, map[], es)
  {
    var d: Dict := map[];
    var i := 0;
    while i < |es|
      invariant 0 <= i <= |es| && TransferFold(mode, map[], es[..i]) == Success(d)
    {
      assert es[..i + 1][..i] == es[..i];
      var step := TransferStep(mode, d, es[i]);
      if step.Failure? {
        TransferFoldFails(mode, map[], es, i + 1);
        return step;
      }
      d := step.value;
      i := i + 1;
    }
    assert es[..i] == es;
    return Success(d);
  }

  /** The loop over the children of `FileTransfers`. */
  method DecodeFileTransfers(mode: Mode, r0: Dict, es: seq<Element>) returns (res: Result<Dict>)
    ensures res == FileTransferFold(mode, r0, es)
  {
    var r := r0;
    var i := 0;
    while i < |es|
      invariant 0 <= i <= |es| && FileTransferFold(mode, r0, es[..i]) == Success(r)
    {
      assert es[..i + 1][..i] == es[..i];
      var sub := es[i];
      if sub.tag == FileDownload || sub.tag == FileUpload {
        var d := DecodeTransfer(mode, sub.children);
        if d.Failure? {
          FileTransferFoldFails(mode, r0, es, i + 1);
          return Failure(d.error);
        }
        r := Append(r, if sub.tag == FileDownload then downloads else uploads, DDict(d.value));
      }
      i := i + 1;
    }
    assert es[..i] == es;
    return Success(r);
  }

  /** One child of the record; the elements with children run their own loops. */
  method DecodeElement(mode: Mode, r: Dict, e: Element) returns (res: Result<Dict>)
    ensures res == Step(mode, r, e)
  {
    if e.tag == JobIdentity {
      var r' := DecodeJobIdentity(r, e.children);
      res := Success(r');
    } else if e.tag == UserIdentity {
      var r' := DecodeUserIdentity(r, e.children);
      res := Success(r');
    } else if e.tag == FileTransfers {
      res := DecodeFileTransfers(mode, r, e.children);
    } else {
      res := Step(mode, r, e);
    }
  }

  /** One more turn of the loop over the children. */
  lemma ChildrenPrefixStep(mode: Mode, r0: Dict, es: seq<Element>, i: nat, r: Dict)
    requires i < |es| && Children(mode, r0, es[..i]) == Success(r)
    ensures Children(mode, r0, es[..i + 1]) == Step(mode, r, es[i])
  {
    ChildrenLast(mode, r0, es[..i + 1]);
    assert es[..i + 1][..i] == es[..i];
  }

  /** `xmlToDict` of a record whose `insert_*` keys are `r0`. */
  lemma XmlToDictOf(mode: Mode, doc: Element, identity: Option<string>, hostname: Option<string>,
                    insertTime: Option<Tm>, r0: Dict)
    requires doc.tag == JobUsageRecord && InsertKeys(identity, hostname, insertTime) == Success(r0)
    ensures XmlToDict(mode, doc, identity, hostname, insertTime)
         == match Children(mode, r0, doc.children)
            case Success(r1) => Success(FoldNodeCount(r1))
            case Failure(x) => Failure(x)
  {
  }

  /** `xmlToDict`, filling the dictionary child by child. */
  method XmlToDictLoop(mode: Mode, doc: Element, identity: Option<string>, hostname: Option<string>,
                       insertTime: Option<Tm>) returns (res: Result<Dict>)
    ensures res == XmlToDict(mode, doc, identity, hostname, insertTime)
  {
    if doc.tag != JobUsageRecord {
      return Failure(AssertionError);
    }
    var inserts := InsertKeys(identity, hostname, insertTime);
    if inserts.Failure? {
      return Failure(inserts.error);
    }
    var r0 := inserts.value;
    var r := r0;
    var es := doc.children;
    var i := 0;
    while i < |es|
      invariant 0 <= i <= |es| && Children(mode, r0, es[..i]) == Success(r)
    {
      var step := DecodeElement(mode, r, es[i]);
      ChildrenPrefixStep(mode, r0, es, i, r);
      if step.Failure? {
        ChildrenFails(mode, r0, es, i + 1);
        return Failure(step.error);
      }
      r := step.value;
      i := i + 1;
    }
    assert es[..i] == es;
    XmlToDictOf(mode, doc, identity, hostname, insertTime, r0);
    var r1 := r;
    if processors !in r && node_count in r {
      r := r[processors := r[node_count]];
      r := r - {node_count};
    }
    assert r == FoldNodeCount(r1);
    return Success(r);
  }

  // ---- what each element writes ----

  /** `r'` agrees with `r` outside the keys `ks`. */
  predicate Unchanged(r: Dict, r': Dict, ks: set<Key>) {
    forall k :: k !in ks ==> (k in r' <==> k in r) && (k in r ==> r'[k] == r[k])
  }

  /** The keys a top-level element may write. */
  function Writes(t: Tag): set<Key> {
    match t
    case RecordIdentity => {record_id, create_time}
    case JobIdentity => {global_job_id, local_job_id}
    case UserIdentity => {local_user_id, global_user_name, vo_type, vo_name, vo_issuer, vo_attrs}
    case JobName => {job_name}
    case Status => {status}
    case Charge => {charge}
    case WallDuration => {wall_duration}
    case CpuDuration => {cpu_duration}
    case NodeCount => {node_count}
    case Processors => {processors}
    case StartTime => {start_time}
    case EndTime => {end_time}
    case ProjectName => {project_name}
    case SubmitHost => {submit_host}
    case MachineName => {machine_name}
    case Host => {host}
    case Queue => {queue}
    case SubmitTime => {submit_time}
    case UserTime => {user_time}
    case KernelTime => {kernel_time}
    case ExitCode => {exit_code}
    case MajorPageFaults => {major_page_faults}
    case RuntimeEnvironment => {runtime_environments}
    case FileTransfers => {downloads, uploads}
    case _ => {}
  }

  lemma {:induction false} JobIdFoldFrame(r: Dict, es: seq<Element>)
    ensures Unchanged(r, JobIdFold(r, es), {global_job_id, local_job_id})
    decreases |es|
  {
    if |es| > 0 {
      JobIdFoldFrame(r, es[..|es| - 1]);
    }
  }

  lemma {:induction false} VoFoldFrame(r: Dict, es: seq<Element>)
    ensures Unchanged(r, VoFold(r, es).0, {vo_name, vo_issuer})
    decreases |es|
  {
    if |es| > 0 {
      VoFoldFrame(r, es[..|es| - 1]);
    }
  }

  lemma VoBlockFrame(r: Dict, v: Element)
    ensures Unchanged(r, VoBlock(r, v), {vo_type, vo_name, vo_issuer, vo_attrs})
  {
    VoFoldFrame(r[vo_type := TextValue(GetAttr(v, VoType))], v.children);
  }

  lemma {:induction false} UserIdFoldFrame(r: Dict, es: seq<Element>)
    ensures Unchanged(r, UserIdFold(r, es), {local_user_id, global_user_name, vo_type, vo_name, vo_issuer, vo_attrs})
    decreases |es|
  {
    if |es| > 0 {
      var r' := UserIdFold(r, es[..|es| - 1]);
      UserIdFoldFrame(r, es[..|es| - 1]);
      if es[|es| - 1].tag == Vo {
        VoBlockFrame(r', es[|es| - 1]);
      }
    }
  }

  lemma {:induction false} FileTransferFoldFrame(mode: Mode, r: Dict, es: seq<Element>)
    requires FileTransferFold(mode, r, es).Success?
    ensures Unchanged(r, FileTransferFold(mode, r, es).value, {downloads, uploads})
    decreases |es|
  {
    if |es| > 0 {
      FileTransferFoldFrame(mode, r, es[..|es| - 1]);
    }
  }

  /** Each recognised element writes only its own keys; the others write nothing. */
  lemma StepFrame(mode: Mode, r: Dict, e: Element)
    requires Step(mode, r, e).Success?
    ensures Unchanged(r, Step(mode, r, e).value, Writes(e.tag))
  {
    match e.tag
    case JobIdentity => JobIdFoldFrame(r, e.children);
    case UserIdentity => UserIdFoldFrame(r, e.children);
    case FileTransfers => FileTransferFoldFrame(mode, r, e.children);
    case _ =>
  }

  /** Some child of `es` has the name `t`. */
  predicate HasTag(es: seq<Element>, t: Tag) {
    exists i :: 0 <= i < |es| && es[i].tag == t
  }

  /** The last child named `t`, None when there is none. */
  function LastOf(es: seq<Element>, t: Tag): (o: Option<Element>)
    ensures o.Some? ==> o.value in es && o.value.tag == t
    ensures o.None? <==> !HasTag(es, t)
    decreases |es|
  {
    if |es| == 0 then None
    else if es[|es| - 1].tag == t then Some(es[|es| - 1])
    else
      var o := LastOf(es[..|es| - 1], t);
      assert o.None? <==> !HasTag(es, t) by {
        if HasTag(es, t) {
          var i :| 0 <= i < |es| && es[i].tag == t;
          assert es[..|es| - 1][i] == es[i];
        }
        if HasTag(es[..|es| - 1], t) {
          var i :| 0 <= i < |es| - 1 && es[..|es| - 1][i].tag == t;
          assert es[i] == es[..|es| - 1][i];
        }
      }
      o
  }

  /** `record_id` is the `recordId` attribute of the last `RecordIdentity`
      child (None when it lacks one); without such a child it is left as it was. */
  lemma {:induction false} ChildrenRecordIdValue(mode: Mode, r: Dict, es: seq<Element>)
    requires Children(mode, r, es).Success?
    ensures var r' := Children(mode, r, es).value;
      match LastOf(es, RecordIdentity)
      case Some(e) => record_id in r' && r'[record_id] == TextValue(GetAttr(e, RecordId))
      case None => (record_id in r' <==> record_id in r) && (record_id in r ==> r'[record_id] == r[record_id])
    decreases |es|
  {
    if |es| > 0 {
      var init, last := es[..|es| - 1], es[|es| - 1];
      ChildrenLast(mode, r, es);
      ChildrenRecordIdValue(mode, r, init);
      var r1 := Children(mode, r, init).value;
      if last.tag == RecordIdentity {
        IdentityRecordId(mode, r1, last);
      } else {
        OtherRecordId(mode, r1, last);
      }
    }
  }

  /** A `RecordIdentity` child sets `record_id` to its `recordId` attribute. */
  lemma IdentityRecordId(mode: Mode, r: Dict, e: Element)
    requires e.tag == RecordIdentity && Step(mode, r, e).Success?
    ensures record_id in Step(mode, r, e).value
    ensures Step(mode, r, e).value[record_id] == TextValue(GetAttr(e, RecordId))
  {
  }

  /** Any other child leaves `record_id` as it was. */
  lemma OtherRecordId(mode: Mode, r: Dict, e: Element)
    requires e.tag != RecordIdentity && Step(mode, r, e).Success?
    ensures var r' := Step(mode, r, e).value;
      (record_id in r' <==> record_id in r) && (record_id in r ==> r'[record_id] == r[record_id])
  {
    StepFrame(mode, r, e);
    WritesRecordId(e.tag);
  }

  lemma WritesRecordId(t: Tag)
    ensures record_id in Writes(t) <==> t == RecordIdentity
  {
  }

  /** The decoded `record_id` is the `recordId` of the last `RecordIdentity`
      child; there is none without such a child. */
  lemma XmlToDictRecordIdValue(mode: Mode, doc: Element, identity: Option<string>, hostname: Option<string>,
                               insertTime: Option<Tm>)
    requires XmlToDict(mode, doc, identity, hostname, insertTime).Success?
    ensures var d := XmlToDict(mode, doc, identity, hostname, insertTime).value;
      match LastOf(doc.children, RecordIdentity)
      case Some(e) => record_id in d && d[record_id] == TextValue(GetAttr(e, RecordId))
      case None => record_id !in d
  {
    XmlToDictSteps(mode, doc, identity, hostname, insertTime);
    var r0 := InsertKeys(identity, hostname, insertTime).value;
    assert record_id !in r0;
    ChildrenRecordIdValue(mode, r0, doc.children);
  }

  /** A successful decoding is the insert keys, then the loop over the
      children, then the fold of `node_count`. */
  lemma XmlToDictSteps(mode: Mode, doc: Element, identity: Option<string>, hostname: Option<string>,
                       insertTime: Option<Tm>)
    requires XmlToDict(mode, doc, identity, hostname, insertTime).Success?
    ensures InsertKeys(identity, hostname, insertTime).Success?
    ensures Children(mode, InsertKeys(identity, hostname, insertTime).value, doc.children).Success?
    ensures XmlToDict(mode, doc, identity, hostname, insertTime).value
         == FoldNodeCount(Children(mode, InsertKeys(identity, hostname, insertTime).value, doc.children).value)
  {
    var ik := InsertKeys(identity, hostname, insertTime);
    assert ik.Success?;
    XmlToDictOf(mode, doc, identity, hostname, insertTime, ik.value);
  }

  /** The `insert_*` keys of the decoded dictionary are those of the arguments
      that are not None: no element writes them. */
  lemma XmlToDictInserts(mode: Mode, doc: Element, identity: Option<string>, hostname: Option<string>,
                         insertTime: Option<Tm>)
    requires XmlToDict(mode, doc, identity, hostname, insertTime).Success?
    ensures var d := XmlToDict(mode, doc, identity, hostname, insertTime).value;
      (insert_identity in d <==> identity.Some?) && (identity.Some? ==> d[insert_identity] == DStr(identity.value))
      && (insert_hostname in d <==> hostname.Some?) && (hostname.Some? ==> d[insert_hostname] == DStr(hostname.value))
      && (insert_time in d <==> insertTime.Some?)
  {
    XmlToDictSteps(mode, doc, identity, hostname, insertTime);
    var r0 := InsertKeys(identity, hostname, insertTime).value;
    ChildrenInserts(mode, r0, doc.children);
    var r1 := Children(mode, r0, doc.children).value;
    assert InsertKey(insert_identity) && InsertKey(insert_hostname) && InsertKey(insert_time);
    FoldKeepsInserts(r1);
  }

  lemma FoldKeepsInserts(r: Dict)
    ensures forall k :: InsertKey(k) ==> (k in FoldNodeCount(r) <==> k in r) && (k in r ==> FoldNodeCount(r)[k] == r[k])
  {
  }

  predicate InsertKey(k: Key) {
    k == insert_identity || k == insert_hostname || k == insert_time
  }

  lemma {:induction false} ChildrenInserts(mode: Mode, r: Dict, es: seq<Element>)
    requires Children(mode, r, es).Success?
    ensures var r' := Children(mode, r, es).value;
      forall k :: InsertKey(k) ==> (k in r' <==> k in r) && (k in r ==> r'[k] == r[k])
    decreases |es|
  {
    if |es| > 0 {
      ChildrenLast(mode, r, es);
      ChildrenInserts(mode, r, es[..|es| - 1]);
      var r' := Children(mode, r, es[..|es| - 1]).value;
      StepFrame(mode, r', es[|es| - 1]);
      WritesNoInsertKey(es[|es| - 1].tag);
    }
  }

  /** No element writes an `insert_*` key. */
  lemma WritesNoInsertKey(t: Tag)
    ensures forall k :: InsertKey(k) ==> k !in Writes(t)
  {
  }

  // ---- lists that accumulate ----

  /** The texts of the `RuntimeEnvironment` children, in document order. */
  function RuntimeTexts(es: seq<Element>): seq<DValue>
    decreases |es|
  {
    if |es| == 0 then []
    else
      var last := es[|es| - 1];
      RuntimeTexts(es[..|es| - 1]) + (if last.tag == RuntimeEnvironment then [TextValue(last.text)] else [])
  }

  /** What one child adds to `runtime_environments`. */
  lemma StepRuntime(mode: Mode, r: Dict, e: Element)
    requires Step(mode, r, e).Success?
    ensures Items(Step(mode, r, e).value, runtime_environments)
         == Items(r, runtime_environments) + RuntimeTexts([e])
  {
    assert [e][..0] == [];
    assert RuntimeTexts([e]) == if e.tag == RuntimeEnvironment then [TextValue(e.text)] else [];
    if e.tag != RuntimeEnvironment {
      OtherRuntime(mode, r, e);
    } else {
      RuntimeStep(mode, r, e);
    }
  }

  lemma RuntimeStep(mode: Mode, r: Dict, e: Element)
    requires e.tag == RuntimeEnvironment
    ensures Step(mode, r, e) == Success(Append(r, runtime_environments, TextValue(e.text)))
  {
  }

  lemma OtherRuntime(mode: Mode, r: Dict, e: Element)
    requires e.tag != RuntimeEnvironment && Step(mode, r, e).Success?
    ensures Items(Step(mode, r, e).value, runtime_environments) == Items(r, runtime_environments)
  {
    StepFrame(mode, r, e);
    WritesRuntime(e.tag);
  }

  lemma WritesRuntime(t: Tag)
    ensures runtime_environments in Writes(t) <==> t == RuntimeEnvironment
  {
  }

  /** `runtime_environments` gains the texts of the `RuntimeEnvironment`
      children, in document order. */
  lemma {:induction false} ChildrenRuntime(mode: Mode, r: Dict, es: seq<Element>)
    requires Children(mode, r, es).Success?
    ensures Items(Children(mode, r, es).value, runtime_environments) == Items(r, runtime_environments) + RuntimeTexts(es)
    decreases |es|
  {
    if |es| > 0 {
      var init := es[..|es| - 1];
      var last := es[|es| - 1];
      ChildrenRuntime(mode, r, init);
      var r' := Children(mode, r, init).value;
      StepRuntime(mode, r', last);
      assert [last][..0] == [];
    }
  }

  /** The number of children named `t`. */
  function CountTag(es: seq<Element>, t: Tag): nat
    decreases |es|
  {
    if |es| == 0 then 0 else CountTag(es[..|es| - 1], t) + (if es[|es| - 1].tag == t then 1 else 0)
  }

  /** Downloads and uploads are appended, one per `FileDownload` and
      `FileUpload` child, after those already collected. */
  lemma {:induction false} FileTransferFoldItems(mode: Mode, r: Dict, es: seq<Element>)
    requires FileTransferFold(mode, r, es).Success?
    ensures var r' := FileTransferFold(mode, r, es).value;
      Items(r, downloads) <= Items(r', downloads) && |Items(r', downloads)| == |Items(r, downloads)| + CountTag(es, FileDownload)
      && Items(r, uploads) <= Items(r', uploads) && |Items(r', uploads)| == |Items(r, uploads)| + CountTag(es, FileUpload)
    decreases |es|
  {
    if |es| > 0 {
      var init, last := es[..|es| - 1], es[|es| - 1];
      assert FileTransferFold(mode, r, init).Success?;
      FileTransferFoldItems(mode, r, init);
      var r1 := FileTransferFold(mode, r, init).value;
      assert FileTransferFold(mode, r, es) == FileTransferStep(mode, r1, last);
      FileTransferStepItems(mode, r1, last);
      assert CountTag(es, FileDownload) == CountTag(init, FileDownload) + if last.tag == FileDownload then 1 else 0;
      assert CountTag(es, FileUpload) == CountTag(init, FileUpload) + if last.tag == FileUpload then 1 else 0;
    }
  }

  /** One child of `FileTransfers` appends at most one download or upload. */
  lemma FileTransferStepItems(mode: Mode, r: Dict, e: Element)
    requires FileTransferStep(mode, r, e).Success?
    ensures var r' := FileTransferStep(mode, r, e).value;
      Items(r, downloads) <= Items(r', downloads)
      && |Items(r', downloads)| == |Items(r, downloads)| + (if e.tag == FileDownload then 1 else 0)
      && Items(r, uploads) <= Items(r', uploads)
      && |Items(r', uploads)| == |Items(r, uploads)| + (if e.tag == FileUpload then 1 else 0)
  {
  }

  // ---- VO blocks ----

  /** The text of the last child named `t`, None when there is none. */
  function LastText(es: seq<Element>, t: Tag): Option<DValue>
    decreases |es|
  {
    if |es| == 0 then None
    else if es[|es| - 1].tag == t then Some(TextValue(es[|es| - 1].text))
    else LastText(es[..|es| - 1], t)
  }

  /** The dictionaries of the `Attribute` children, in document order. */
  function AttrDicts(es: seq<Element>): seq<DValue>
    decreases |es|
  {
    if |es| == 0 then []
    else
      var last := es[|es| - 1];
      AttrDicts(es[..|es| - 1]) + (if last.tag == VoAttribute then [DDict(AttrFold(map[], last.children))] else [])
  }

  /** The loop over a VO element's children leaves `vo_name` and `vo_issuer`
      at the text of the last such child, and collects one dictionary per
      `Attribute` child. */
  lemma {:induction false} VoFoldValues(r: Dict, es: seq<Element>)
    ensures VoFold(r, es).1 == AttrDicts(es)
    ensures LastText(es, VoName).Some? ==> vo_name in VoFold(r, es).0 && VoFold(r, es).0[vo_name] == LastText(es, VoName).value
    ensures LastText(es, VoIssuer).Some? ==> vo_issuer in VoFold(r, es).0 && VoFold(r, es).0[vo_issuer] == LastText(es, VoIssuer).value
    decreases |es|
  {
    if |es| > 0 {
      VoFoldValues(r, es[..|es| - 1]);
    }
  }

  lemma {:induction false} AttrDictsCount(es: seq<Element>)
    ensures |AttrDicts(es)| == CountTag(es, VoAttribute)
    decreases |es|
  {
    if |es| > 0 {
      AttrDictsCount(es[..|es| - 1]);
    }
  }

  lemma {:induction false} CountTagHas(es: seq<Element>, t: Tag)
    ensures CountTag(es, t) > 0 <==> HasTag(es, t)
    decreases |es|
  {
    if |es| > 0 {
      var init := es[..|es| - 1];
      CountTagHas(init, t);
      if HasTag(init, t) {
        var i :| 0 <= i < |init| && init[i].tag == t;
        assert es[i] == init[i];
      }
      if HasTag(es, t) && es[|es| - 1].tag != t {
        var i :| 0 <= i < |es| && es[i].tag == t;
        assert init[i] == es[i];
      }
    } else {
      assert !HasTag(es, t);
    }
  }

  /** A VO element always sets `vo_type` to its `type` attribute; sets
      `vo_attrs` exactly when it has an `Attribute` child, to one dictionary
      per such child; and sets `vo_name`/`vo_issuer` to the text of its last
      such child. None of these depends on what an earlier VO element wrote,
      so a later VO element overwrites the flat keys. */
  lemma VoBlockValues(r: Dict, v: Element)
    ensures var r' := VoBlock(r, v);
      && vo_type in r' && r'[vo_type] == TextValue(GetAttr(v, VoType))
      && (HasTag(v.children, VoAttribute) ==>
            vo_attrs in r' && r'[vo_attrs] == DList(AttrDicts(v.children)))
      && (!HasTag(v.children, VoAttribute) ==>
            (vo_attrs in r' <==> vo_attrs in r) && (vo_attrs in r ==> r'[vo_attrs] == r[vo_attrs]))
      && (LastText(v.children, VoName).Some? ==>
            vo_name in r' && r'[vo_name] == LastText(v.children, VoName).value)
      && (LastText(v.children, VoIssuer).Some? ==>
            vo_issuer in r' && r'[vo_issuer] == LastText(v.children, VoIssuer).value)
  {
    var start := r[vo_type := TextValue(GetAttr(v, VoType))];
    VoFoldFrame(start, v.children);
    VoFoldValues(start, v.children);
    AttrDictsCount(v.children);
    CountTagHas(v.children, VoAttribute);
  }

  // ---- the two modes ----

  /** What succeeds when reporting raises succeeds the same way when it
      does not: the two modes differ only where a report is made. */
  predicate Agrees<T(==)>(asWritten: Result<T>, intended: Result<T>) {
    asWritten.Success? ==> intended == asWritten
  }

  lemma TransferStepAgrees(d: Dict, e: Element)
    ensures Agrees(TransferStep(AsWritten, d, e), TransferStep(Intended, d, e))
  {
  }

  lemma {:induction false} TransferFoldAgrees(d: Dict, es: seq<Element>)
    ensures Agrees(TransferFold(AsWritten, d, es), TransferFold(Intended, d, es))
    decreases |es|
  {
    if |es| > 0 {
      TransferFoldAgrees(d, es[..|es| - 1]);
      if TransferFold(AsWritten, d, es[..|es| - 1]).Success? {
        TransferStepAgrees(TransferFold(AsWritten, d, es[..|es| - 1]).value, es[|es| - 1]);
      }
    }
  }

  lemma {:induction false} FileTransferFoldAgrees(r: Dict, es: seq<Element>)
    ensures Agrees(FileTransferFold(AsWritten, r, es), FileTransferFold(Intended, r, es))
    decreases |es|
  {
    if |es| > 0 {
      FileTransferFoldAgrees(r, es[..|es| - 1]);
      TransferFoldAgrees(map[], es[|es| - 1].children);
    }
  }

  lemma StepAgrees(r: Dict, e: Element)
    ensures Agrees(Step(AsWritten, r, e), Step(Intended, r, e))
  {
    match e.tag
    case FileTransfers => FileTransferFoldAgrees(r, e.children);
    case _ =>
  }

  lemma {:induction false} ChildrenAgrees(r: Dict, es: seq<Element>)
    ensures Agrees(Children(AsWritten, r, es), Children(Intended, r, es))
    decreases |es|
  {
    if |es| > 0 {
      ChildrenAgrees(r, es[..|es| - 1]);
      if Children(AsWritten, r, es[..|es| - 1]).Success? {
        StepAgrees(Children(AsWritten, r, es[..|es| - 1]).value, es[|es| - 1]);
      }
    }
  }

  /** A record the decoder as written accepts is decoded to the same
      dictionary when reporting does not raise. */
  lemma XmlToDictAgrees(doc: Element, identity: Option<string>, hostname: Option<string>, insertTime: Option<Tm>)
    ensures Agrees(XmlToDict(AsWritten, doc, identity, hostname, insertTime),
                   XmlToDict(Intended, doc, identity, hostname, insertTime))
  {
    if doc.tag == JobUsageRecord && InsertKeys(identity, hostname, insertTime).Success? {
      ChildrenAgrees(InsertKeys(identity, hostname, insertTime).value, doc.children);
    }
  }
}
