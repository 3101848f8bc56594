/** The SGE backend: an accounting file of `:`-separated job lines is read
    line by line, comment lines skipped, and each job becomes a usage record
    with a single fixed VO block. Local-time conversions of the host are
    parameters. */
module Sge {
  import opened Wrappers
  import opened Text
  import opened Numerals
  import opened Calendar
  import opened UsageRecords
  import opened UrElements
  import Maui
  import Common

  /** `ACCOUNTING_FILE`: the file the parser reads, whatever it is asked for. */
  const AccountingFile := "./acc"

  /** The VO name every record carries. */
  const VoNameValue := "alice"

  /** A naive `datetime`: a wall-clock time and its microseconds. */
  datatype DateTime = DateTime(tm: Tm, micro: int)

  /** The values a `datetime` can hold. */
  type Stamp = d: DateTime | ValidTm(d.tm) && d.tm.second <= 59 && 0 <= d.micro < 1000000
    witness DateTime(Tm(1970, 1, 1, 0, 0, 0), 0)

  /** The host's local time: `datetime.fromtimestamp`, which may refuse an
      instant, and the `mktime` behind `strftime("%s")`. */
  datatype Zone = Zone(fromTimestamp: real -> Result<Stamp>, mktime: Tm -> int)

  /** What one accounting line holds, by field. */
  datatype Job = Job(
    qname: string, hostname: string, group: string, owner: string,
    job_name: string, job_number: string, account: string, priority: string,
    submit_time: Stamp, start_time: Stamp, end_time: Stamp,
    failed: string, exit_status: string, project: string, slots: string,
    cpu_sec: real, maxvmem: string)

  // ---- datetime helpers ----

  /** The date and time `isoformat()` writes: from year 1000 on what
      `%Y-%m-%dT%H:%M:%S` writes; earlier years are zero-padded to four
      digits. */
  function IsoHead(tm: Tm): string
    requires ValidTm(tm)
  {
    if tm.year >= 1000 then
      FormatItems(IsoFormat, tm)
    else
      ZeroPad(NatToString(tm.year), 4) + "-" + Pad2(tm.month) + "-" + Pad2(tm.day) + "T"
        + Pad2(tm.hour) + ":" + Pad2(tm.minute) + ":" + Pad2(tm.second)
  }

  /** The `.ffffff` `isoformat()` adds unless the microseconds are zero. */
  function MicroText(micro: nat): string {
    if micro == 0 then "" else "." + ZeroPad(NatToString(micro), 6)
  }

  /** `isoformat()` */
  function IsoText(d: Stamp): (r: string)
    ensures IsoHead(d.tm) <= r
    ensures d.micro == 0 <==> |r| == |IsoHead(d.tm)|
  {
    IsoHead(d.tm) + MicroText(d.micro)
  }

  /** `strftime("%s")`: the local epoch second, as a numeral; Python 2
      refuses years before 1900. */
  function EpochText(zone: Zone, d: Stamp): (r: Result<string>)
    ensures r.Success? <==> d.tm.year >= 1900
    ensures r.Failure? ==> r.error == ValueError
    ensures r.Success? ==> ParseInt(r.value) == Some(zone.mktime(d.tm))
  {
    ParseIntToString(zone.mktime(d.tm));
    if d.tm.year < 1900 then Failure(ValueError) else Success(IntToString(zone.mktime(d.tm)))
  }

  /** `(b - a).total_seconds()` of two naive datetimes: the wall-clock
      difference, days and seconds and microseconds. */
  function Seconds(a: Stamp, b: Stamp): (r: real)
    ensures TimeGm(a.tm) as real + a.micro as real / 1000000.0 + r == TimeGm(b.tm) as real + b.micro as real / 1000000.0
  {
    (TimeGm(b.tm) - TimeGm(a.tm)) as real + (b.micro - a.micro) as real / 1000000.0
  }

  // ---- parse_accounting_file ----

  /** `datetime.fromtimestamp(float(fields[k]))` */
  function TimeAt(zone: Zone, fields: seq<string>, k: nat): (r: Result<Stamp>)
    ensures k >= |fields| ==> r == Failure(IndexError)
    ensures r.Success? ==>
      k < |fields| && ParseFloat(fields[k]).Some? && zone.fromTimestamp(ParseFloat(fields[k]).value) == r
  {
    var t :- Maui.FloatAt(fields, k);
    zone.fromTimestamp(t)
  }

  /** The line fields the job is built from, in the order the dictionary
      display reads them: each time is converted before the next field is
      read. */
  function JobOfFields(zone: Zone, fields: seq<string>): (r: Result<Job>)
    ensures |fields| <= 8 ==> r == Failure(IndexError)
    ensures r.Success? ==> |fields| >= 43
  {
    var qname :- Maui.At(fields, 0);
    var hostname :- Maui.At(fields, 1);
    var group :- Maui.At(fields, 2);
    var owner :- Maui.At(fields, 3);
    var job_name :- Maui.At(fields, 4);
    var job_number :- Maui.At(fields, 5);
    var account :- Maui.At(fields, 6);
    var priority :- Maui.At(fields, 7);
    var submit :- TimeAt(zone, fields, 8);
    var start :- TimeAt(zone, fields, 9);
    var end :- TimeAt(zone, fields, 10);
    var failed :- Maui.At(fields, 11);
    var exit_status :- Maui.At(fields, 12);
    var project :- Maui.At(fields, 31);
    var slots :- Maui.At(fields, 34);
    var cpu :- Maui.FloatAt(fields, 36);
    var maxvmem :- Maui.At(fields, 42);
    Success(Job(qname, hostname, group, owner, job_name, job_number, account, priority,
      submit, start, end, failed, exit_status, project, slots, cpu, maxvmem))
  }

  /** A comment line: one starting with `#`. */
  predicate IsComment(line: string) {
    |line| > 0 && line[0] == '#'
  }

  /** One line of the loop: None for a comment, the job otherwise. An empty
      line has no first character to test. */
  function LineJob(zone: Zone, line: string): (r: Result<Option<Job>>)
    ensures r == Success(None) <==> IsComment(line)
    ensures |line| == 0 ==> r == Failure(IndexError)
  {
    if |line| == 0 then Failure(IndexError)
    else if line[0] == '#' then Success(None)
    else
      var job :- JobOfFields(zone, Split(line, ':'));
      Success(Some(job))
  }

  /** The jobs the generator yields over `lines`, and the exception that
      ends it early, if any. */
  function Jobs(zone: Zone, lines: seq<string>): (r: (seq<Job>, Option<Exception>))
    decreases |lines|
  {
    if |lines| == 0 then ([], None)
    else
      var prev := Jobs(zone, lines[..|lines| - 1]);
      if prev.1.Some? then prev
      else match LineJob(zone, lines[|lines| - 1])
        case Failure(e) => (prev.0, Some(e))
        case Success(None) => prev
        case Success(Some(job)) => (prev.0 + [job], None)
  }

  /** `parse_accounting_file(fname)` drained: the lines of `ACCOUNTING_FILE`;
      opening it raises IOError when it is missing. */
  function AccountingJobs(zone: Zone, files: map<string, seq<string>>): (r: (seq<Job>, Option<Exception>))
    ensures AccountingFile !in files ==> r == ([], Some(IOError))
    ensures AccountingFile in files ==> r == Jobs(zone, files[AccountingFile])
  {
    if AccountingFile in files then Jobs(zone, files[AccountingFile]) else ([], Some(IOError))
  }

  /** `parse_accounting_file`, iterated to the end: `fname` plays no part. */
  method ParseAccountingFile(zone: Zone, files: map<string, seq<string>>, fname: string)
    returns (jobs: seq<Job>, error: Option<Exception>)
    ensures (jobs, error) == AccountingJobs(zone, files)
  {
    jobs, error := [], None;
    if AccountingFile !in files {
      return [], Some(IOError);
    }
    var lines := files[AccountingFile];
    var i := 0;
    while i < |lines|
      invariant 0 <= i <= |lines|
      invariant (jobs, error) == Jobs(zone, lines[..i]) && error.None?
    {
      assert lines[..i + 1][..i] == lines[..i];
      var job := LineJob(zone, lines[i]);
      if job.Failure? {
        JobsStop(zone, lines, i + 1);
        return jobs, Some(job.error);
      }
      if job.value.Some? {
        jobs := jobs + [job.value.value];
      }
      i := i + 1;
    }
    assert lines[..i] == lines;
  }

  /** Once a line raises, the generator is finished: the lines after it
      are never looked at. */
  lemma {:induction false} JobsStop(zone: Zone, lines: seq<string>, j: nat)
    requires j <= |lines| && Jobs(zone, lines[..j]).1.Some?
    ensures Jobs(zone, lines) == Jobs(zone, lines[..j])
    decreases |lines|
  {
    if j < |lines| {
      var init := lines[..|lines| - 1];
      assert init[..j] == lines[..j];
      JobsStop(zone, init, j);
    } else {
      assert lines[..j] == lines;
    }
  }

  /** Comment lines add no job and raise nothing, wherever they stand. */
  lemma {:induction false} CommentsSkipped(zone: Zone, lines: seq<string>, comments: seq<string>)
    requires forall i :: 0 <= i < |comments| ==> IsComment(comments[i])
    ensures Jobs(zone, lines + comments) == Jobs(zone, lines)
    decreases |comments|
  {
    if |comments| > 0 {
      var init := comments[..|comments| - 1];
      assert (lines + comments)[..|lines + comments| - 1] == lines + init;
      CommentsSkipped(zone, lines, init);
    } else {
      assert lines + comments == lines;
    }
  }

  /** A job, once yielded, stays yielded: the jobs of the first `j` lines
      begin the jobs of the whole file. */
  lemma {:induction false} JobsPrefix(zone: Zone, lines: seq<string>, j: nat)
    requires j <= |lines|
    ensures Jobs(zone, lines[..j]).0 <= Jobs(zone, lines).0
    decreases |lines|
  {
    if j < |lines| {
      var init := lines[..|lines| - 1];
      assert init[..j] == lines[..j];
      JobsPrefix(zone, init, j);
    } else {
      assert lines[..j] == lines;
    }
  }

  /** The fields of a job line are read back from the line they were joined
      into, one by one at their positions. */
  predicate Readable(zone: Zone, fields: seq<string>) {
    && |fields| >= 43
    && (forall k :: 0 <= k < |fields| ==> ':' !in fields[k])
    && |fields[0]| > 0 && fields[0][0] != '#'
    && ParseFloat(fields[8]).Some? && ParseFloat(fields[9]).Some?
    && ParseFloat(fields[10]).Some? && ParseFloat(fields[36]).Some?
    && zone.fromTimestamp(ParseFloat(fields[8]).value).Success?
    && zone.fromTimestamp(ParseFloat(fields[9]).value).Success?
    && zone.fromTimestamp(ParseFloat(fields[10]).value).Success?
  }

  lemma JoinedLine(zone: Zone, fields: seq<string>)
    requires Readable(zone, fields)
    ensures var line := Join(fields, ":");
      && |line| > 0 && line[0] == fields[0][0]
      && Split(line, ':') == fields
  {
    SplitJoin(fields, ':');
  }

  /** A line of readable fields gives a job holding those fields. */
  lemma LineJobOfFields(zone: Zone, fields: seq<string>)
    requires Readable(zone, fields)
    ensures var r := LineJob(zone, Join(fields, ":"));
      && r.Success? && r.value.Some?
      && var job := r.value.value;
      && job.qname == fields[0] && job.hostname == fields[1] && job.owner == fields[3]
      && job.job_name == fields[4] && job.job_number == fields[5]
      && job.project == fields[31] && job.slots == fields[34]
      && job.cpu_sec == ParseFloat(fields[36]).value
      && job.submit_time == zone.fromTimestamp(ParseFloat(fields[8]).value).value
      && job.start_time == zone.fromTimestamp(ParseFloat(fields[9]).value).value
      && job.end_time == zone.fromTimestamp(ParseFloat(fields[10]).value).value
  {
    JoinedLine(zone, fields);
    ReadableJob(zone, fields);
    var line := Join(fields, ":");
    assert LineJob(zone, line) == Success(Some(JobOfFields(zone, fields).value));
  }

  /** Readable fields are read into a job field by field. */
  lemma ReadableJob(zone: Zone, fields: seq<string>)
    requires Readable(zone, fields)
    ensures var r := JobOfFields(zone, fields);
      && r.Success?
      && var job := r.value;
      && job.qname == fields[0] && job.hostname == fields[1] && job.owner == fields[3]
      && job.job_name == fields[4] && job.job_number == fields[5]
      && job.project == fields[31] && job.slots == fields[34]
      && job.cpu_sec == ParseFloat(fields[36]).value
      && job.submit_time == zone.fromTimestamp(ParseFloat(fields[8]).value).value
      && job.start_time == zone.fromTimestamp(ParseFloat(fields[9]).value).value
      && job.end_time == zone.fromTimestamp(ParseFloat(fields[10]).value).value
  {
  }

  // ---- ur_from_job ----

  /** The VO block: name `alice`; the type goes to the attribute the encoder
      does not read. */
  const AliceVo: VOInformation :=
    NewVOInformation(None, None, None).(name := Some(VoNameValue), legacyType := Some("lrmsurgen-projectmap"))

  /** `ur_from_job`. Only `strftime("%s")` on the start time can raise. */
  function UrFromJob(zone: Zone, machineName: string, job: Job): (r: Result<UsageRecord>)
    ensures r.Success? <==> job.start_time.tm.year >= 1900
    ensures r.Failure? ==> r.error == ValueError
  {
    var epoch :- EpochText(zone, job.start_time);
    Success(NewUsageRecord().(
      record_id := Some(machineName + ":" + epoch + ":" + job.job_number),
      local_job_id := Some(job.job_number),
      global_job_id := Some(machineName + ":" + job.job_number),
      job_name := Some(job.job_name),
      local_user_id := Some(job.owner),
      global_user_name := Some(job.owner),
      machine_name := Some(machineName),
      queue := Some(job.qname),
      processors := Some(Str(job.slots)),
      node_count := Some(Int(1)),
      host := Some(job.hostname),
      submit_time := Some(IsoText(job.submit_time)),
      start_time := Some(IsoText(job.start_time)),
      end_time := Some(IsoText(job.end_time)),
      cpu_duration := Some(job.cpu_sec),
      wall_duration := Some(Seconds(job.start_time, job.end_time)),
      project_name := Some(job.project),
      vo_info := [AliceVo]))
  }

  /** The record of a job line: the owner is both user ids, the job number
      names the job locally and, after the machine, globally and in the
      record id; one node, the line's host, and the `alice` VO block. */
  lemma UrOfLine(zone: Zone, machineName: string, fields: seq<string>, job: Job)
    requires Readable(zone, fields) && LineJob(zone, Join(fields, ":")) == Success(Some(job))
    ensures var r := UrFromJob(zone, machineName, job);
      && (r.Success? <==> job.start_time.tm.year >= 1900)
      && (r.Success? ==>
        && r.value.record_id == Some(machineName + ":" + IntToString(zone.mktime(job.start_time.tm)) + ":" + fields[5])
        && r.value.local_job_id == Some(fields[5])
        && r.value.global_job_id == Some(machineName + ":" + fields[5])
        && r.value.job_name == Some(fields[4])
        && r.value.local_user_id == Some(fields[3]) && r.value.global_user_name == Some(fields[3])
        && r.value.machine_name == Some(machineName)
        && r.value.queue == Some(fields[0]) && r.value.host == Some(fields[1])
        && r.value.processors == Some(Str(fields[34])) && r.value.node_count == Some(Int(1))
        && r.value.project_name == Some(fields[31])
        && r.value.cpu_duration == Some(ParseFloat(fields[36]).value)
        && r.value.wall_duration == Some(Seconds(job.start_time, job.end_time))
        && r.value.vo_info == [AliceVo])
  {
    LineJobOfFields(zone, fields);
  }

  /** Exactly one VO block, named `alice`, and the type it is given is not
      the one the encoder writes. */
  lemma AliceVoUntyped()
    ensures AliceVo.name == Some(VoNameValue) && AliceVo.type_.None?
    ensures VoType !in VoElement(AliceVo).attrs
  {
  }

  /** Where local time is UTC and the timestamps are whole seconds, the wall
      duration is the difference of the two timestamps. */
  lemma WallIsDifference(start: int, end: int, a: Stamp, b: Stamp)
    requires GmTime(start).Some? && a == DateTime(GmTime(start).value, 0)
    requires GmTime(end).Some? && b == DateTime(GmTime(end).value, 0)
    ensures Seconds(a, b) == (end - start) as real
  {
    GmTimeInverse(start);
    GmTimeInverse(end);
  }

  /** `isoformat()` is read back by `datetimeFromIsoStr` as the time it
      shows, with or without microseconds. */
  lemma IsoTextReadBack(d: Stamp)
    requires d.tm.year >= 1900
    ensures Common.DatetimeFromIsoStr(IsoText(d)) == Success(d.tm)
  {
    var frac := ZeroPad(NatToString(d.micro), 6);
    Common.DatetimeFromIsoStrFormat(d.tm, frac);
    var head := Strftime(IsoFormat, d.tm).value;
    assert IsoHead(d.tm) == head;
    assert IsoText(d) == head + MicroText(d.micro);
    if d.micro == 0 {
      assert head + "" == head;
      assert IsoText(d) == head;
    } else {
      ConcatAssoc(head, ".", frac);
      assert IsoText(d) == head + "." + frac;
    }
  }

}
