/** The Torque backend: the accounting log files under the Torque spool
    directory, one per day, are read from the saved position onwards; each
    `E` (job end) record becomes a usage record, and the position is saved
    after each one as `"<job id or -> <date>"`. */
module Torque {
  import opened Wrappers
  import opened Text
  import opened Numerals
  import opened Calendar
  import opened UrElements
  import opened UsageRecords
  import opened Config
  import Common

  const Section := "torque"
  const StateFileOption := "statefile"
  const DefaultStateFile := Section + ".state"
  const SpoolDirOption := "spooldir"
  const DefaultSpoolDir := "/var/spool/torque"

  /** `CONFIG`: both options are optional and carry no type. */
  const ConfigItems: Declared := map[StateFileOption := Item(false, None), SpoolDirOption := Item(false, None)]

  /** `TORQUE_DATE_FORMAT`, `%Y%m%d` */
  const TorqueDateFormat := YmdFormat

  /** A log entry: the `key=value` fields of an accounting line. */
  type Entry = map<string, string>

  // ---- splitLineEntry ----

  /** The three fields taken from the second space-separated token
      (`<time>;<type>;<job id>;user=<user>`): its 2nd, 3rd and 4th
      `;`-fields, the last one after its `=`. Too few of them raise IndexError. */
  function StartFields(line: string): (r: Result<Entry>)
    ensures r.Success? ==> r.value.Keys == {"entrytype", "jobid", "user"}
  {
    var tokens := Split(line, ' ');
    if |tokens| < 2 then Failure(IndexError)
    else
      var startFields := Split(tokens[1], ';');
      if |startFields| < 4 then Failure(IndexError)
      else
        var userField := Split(startFields[3], '=');
        if |userField| < 2 then Failure(IndexError)
        else Success(map["entrytype" := startFields[1], "jobid" := startFields[2], "user" := userField[1]])
  }

  /** The key and value a token contributes: it is stripped and split at
      `=`; with at least one `=` the key is the text before the first one and
      the value the rest, inner `=` included. */
  function TokenPair(token: string): Option<(string, string)> {
    var r := Split(Strip(token), '=');
    if |r| >= 2 then Some((r[0], Join(r[1..], "="))) else None
  }

  /** The loop of `splitLineEntry`: the pairs of the tokens, in order, each
      overwriting what an earlier one stored under its key. */
  function AddTokens(fields: Entry, tokens: seq<string>): (r: Entry)
    ensures fields.Keys <= r.Keys
    decreases |tokens|
  {
    if |tokens| == 0 then fields
    else
      var before := AddTokens(fields, tokens[..|tokens| - 1]);
      match TokenPair(tokens[|tokens| - 1])
      case None => before
      case Some((k, v)) => before[k := v]
  }

  /** `splitLineEntry` */
  function LineEntry(line: string): (r: Result<Entry>)
    ensures r.Success? ==> "entrytype" in r.value && "jobid" in r.value && "user" in r.value
    ensures r.Failure? ==> r.error == IndexError
  {
    var start :- StartFields(line);
    Success(AddTokens(start, Split(line, ' ')))
  }

  /** The value the last token with key `k` carries, if any token has that key. */
  function LastTokenValue(tokens: seq<string>, k: string): Option<string>
    decreases |tokens|
  {
    if |tokens| == 0 then None
    else
      var p := TokenPair(tokens[|tokens| - 1]);
      if p.Some? && p.value.0 == k then Some(p.value.1) else LastTokenValue(tokens[..|tokens| - 1], k)
  }

  /** A key of the entry holds the value of the last token that has it, or
      else the value the start fields gave it, and no other key is present. */
  lemma {:induction false} AddTokensLookup(fields: Entry, tokens: seq<string>, k: string)
    ensures k in AddTokens(fields, tokens) <==> k in fields || LastTokenValue(tokens, k).Some?
    ensures LastTokenValue(tokens, k).Some? ==> AddTokens(fields, tokens)[k] == LastTokenValue(tokens, k).value
    ensures LastTokenValue(tokens, k).None? && k in fields ==> AddTokens(fields, tokens)[k] == fields[k]
    decreases |tokens|
  {
    if |tokens| > 0 {
      var init := tokens[..|tokens| - 1];
      AddTokensLookup(fields, init, k);
      var before := AddTokens(fields, init);
      var p := TokenPair(tokens[|tokens| - 1]);
      if p.Some? {
        assert AddTokens(fields, tokens) == before[p.value.0 := p.value.1];
      } else {
        assert AddTokens(fields, tokens) == before;
      }
      assert p.Some? && p.value.0 == k ==> LastTokenValue(tokens, k) == Some(p.value.1);
      assert !(p.Some? && p.value.0 == k) ==> LastTokenValue(tokens, k) == LastTokenValue(init, k);
    }
  }

  /** A token `k=v` with a key free of `=` and nothing to strip maps `k` to
      `v`, whatever `=` the value contains (such as `Resource_List.nodes=2:ppn=4`). */
  lemma TokenPairKeepsValue(k: string, v: string)
    requires '=' !in k
    requires |k| > 0 ==> !IsSpace(k[0])
    requires |v| > 0 ==> !IsSpace(v[|v| - 1])
    ensures TokenPair(k + "=" + v) == Some((k, v))
  {
    var t := k + "=" + v;
    assert t == k + ['='] + v;
    StripUnchanged(t);
    SplitAppendSep(k, '=', v);
    JoinSplitOn(v, "=");
  }

  /** An accounting line `<date> <time>;<type>;<job id>;<tag>=<user> <rest>`
      has its type, job id and user where `splitLineEntry` looks, unless a
      later token reuses one of those keys. */
  lemma StartFieldsOf(date: string, time: string, etype: string, jobId: string, tag: string, user: string, rest: string)
    requires ' ' !in date && ' ' !in time && ' ' !in etype && ' ' !in jobId && ' ' !in tag && ' ' !in user
    requires ';' !in time && ';' !in etype && ';' !in jobId && ';' !in tag && ';' !in user
    requires '=' !in tag && '=' !in user
    ensures var line := date + " " + time + ";" + etype + ";" + jobId + ";" + tag + "=" + user + " " + rest;
      StartFields(line) == Success(map["entrytype" := etype, "jobid" := jobId, "user" := user])
  {
    var userField := tag + "=" + user;
    var token := time + ";" + etype + ";" + jobId + ";" + userField;
    var line := date + " " + time + ";" + etype + ";" + jobId + ";" + tag + "=" + user + " " + rest;
    assert ' ' !in userField;
    assert ' ' !in token;
    assert line == date + [' '] + (token + [' '] + rest);
    SplitAppendSep(date, ' ', token + [' '] + rest);
    SplitAppendSep(token, ' ', rest);
    assert Split(line, ' ')[1] == token;
    assert ';' !in userField;
    var parts := [time, etype, jobId, userField];
    assert Join(parts, ";") == token by {
      assert parts[1..][1..][1..] == [userField];
      assert parts[1..][1..] == [jobId, userField];
      assert Join(parts[1..][1..], ";") == jobId + ";" + userField;
      assert Join(parts[1..], ";") == etype + ";" + (jobId + ";" + userField);
      assert Join(parts, ";") == time + ";" + (etype + ";" + (jobId + ";" + userField));
    }
    SplitJoin(parts, ';');
    SplitJoin([tag, user], '=');
  }

  // ---- TorqueLogParser ----

  /** A line `getNextLogLine` reads past: not the end, long enough, and not
      an `E` record. */
  predicate Skipped(line: string) {
    line != "" && |line| > 20 && line[20] != 'E'
  }

  /** `getNextLogLine` on a log read up to line `pos`: what it returns and
      where it leaves the file. Lines are read past until one has `E` at
      index 20; a line shorter than that raises IndexError, and the empty
      string `readline` gives at the end of the file ends the search with None. */
  function NextLogLine(lines: seq<string>, pos: nat): (r: (Result<Option<string>>, nat))
    requires pos <= |lines|
    ensures pos <= r.1 <= |lines| && (r.1 == pos <==> pos == |lines|)
    ensures r.0.Failure? ==> r.0.error == IndexError
    decreases |lines| - pos
  {
    if pos == |lines| then (Success(None), pos)
    else if lines[pos] == "" then (Success(None), pos + 1)
    else if |lines[pos]| <= 20 then (Failure(IndexError), pos + 1)
    else if lines[pos][20] == 'E' then (Success(Some(lines[pos])), pos + 1)
    else NextLogLine(lines, pos + 1)
  }

  /** Every line `getNextLogLine` reads but the last is one it reads past;
      it reaches the end of the file if the last is one too, and otherwise
      the last line decides: the end, IndexError, or the `E` line returned. */
  lemma {:induction false} NextLogLineReads(lines: seq<string>, pos: nat)
    requires pos <= |lines|
    ensures var r := NextLogLine(lines, pos);
      && (forall j :: pos <= j < r.1 - 1 ==> Skipped(lines[j]))
      && (r.1 == pos || Skipped(lines[r.1 - 1]) ==> r.1 == |lines| && r.0 == Success(None))
      && (r.1 > pos && !Skipped(lines[r.1 - 1]) ==> var l := lines[r.1 - 1];
        || (l == "" && r.0 == Success(None))
        || (l != "" && |l| <= 20 && r.0 == Failure(IndexError))
        || (|l| > 20 && l[20] == 'E' && r.0 == Success(Some(l))))
    decreases |lines| - pos
  {
    if pos < |lines| && Skipped(lines[pos]) {
      NextLogLineReads(lines, pos + 1);
    }
  }

  /** `getNextLogEntry`: the next `E` line, split into its fields. */
  function NextLogEntry(lines: seq<string>, pos: nat): (r: (Result<Option<Entry>>, nat))
    requires pos <= |lines|
    ensures r.1 == NextLogLine(lines, pos).1
    ensures r.0.Failure? ==> r.0.error == IndexError
    ensures r.0.Success? && r.0.value.Some? ==> "jobid" in r.0.value.value
    ensures r.0.Success? && r.0.value.None? <==> NextLogLine(lines, pos).0 == Success(None)
  {
    var next := NextLogLine(lines, pos);
    match next.0
    case Failure(e) => (Failure(e), next.1)
    case Success(None) => (Success(None), next.1)
    case Success(Some(l)) =>
      match LineEntry(l)
      case Failure(e) => (Failure(e), next.1)
      case Success(entry) => (Success(Some(entry)), next.1)
  }

  predicate HasJobId(entry: Entry, jobId: string) {
    "jobid" in entry && entry["jobid"] == jobId
  }

  /** `spoolToEntry`: entries are read up to and including the first with
      the given job id, or to the end of the log. */
  function SpoolTo(lines: seq<string>, pos: nat, jobId: string): (r: (Result<()>, nat))
    requires pos <= |lines|
    ensures pos <= r.1 <= |lines|
    ensures r.0.Failure? ==> r.0.error == IndexError
    decreases |lines| - pos
  {
    var next := NextLogEntry(lines, pos);
    match next.0
    case Failure(err) => (Failure(err), next.1)
    case Success(None) => (Success(()), next.1)
    case Success(Some(entry)) =>
      if entry["jobid"] == jobId then (Success(()), next.1)
      else SpoolTo(lines, next.1, jobId)
  }

  /** What `readline` gives: no line of a file read before its end is empty. */
  predicate NoEmptyLines(lines: seq<string>) {
    forall j :: 0 <= j < |lines| ==> lines[j] != ""
  }

  /** The entries of a log from line `pos` on, in order, read as
      `getNextLogEntry` reads them. */
  function LogEntries(lines: seq<string>, pos: nat): (r: Result<seq<Entry>>)
    requires pos <= |lines|
    ensures r.Success? ==> forall k :: 0 <= k < |r.value| ==> "jobid" in r.value[k]
    decreases |lines| - pos
  {
    var next := NextLogEntry(lines, pos);
    match next.0
    case Failure(err) => Failure(err)
    case Success(None) => Success([])
    case Success(Some(entry)) =>
      var rest :- LogEntries(lines, next.1);
      Success([entry] + rest)
  }

  /** In a file without empty lines, no entry is left once the search for
      the next one comes back empty. */
  lemma NoEntryAtEnd(lines: seq<string>, pos: nat)
    requires pos <= |lines| && NoEmptyLines(lines) && NextLogEntry(lines, pos).0 == Success(None)
    ensures NextLogEntry(lines, pos).1 == |lines|
  {
    NextLogLineReads(lines, pos);
  }

  /** The test `spoolToEntry` applies to each entry. */
  function JobIdTest(jobId: string): Entry -> bool {
    entry => HasJobId(entry, jobId)
  }

  /** Spooling to a job id leaves exactly the entries after the first one
      with that id unread, or none when no entry has it. */
  lemma {:induction false} SpoolLeavesRest(lines: seq<string>, pos: nat, jobId: string)
    requires pos <= |lines| && NoEmptyLines(lines) && LogEntries(lines, pos).Success?
    ensures SpoolTo(lines, pos, jobId).0.Success?
    ensures var es := LogEntries(lines, pos).value;
      LogEntries(lines, SpoolTo(lines, pos, jobId).1) == Success(es[FirstPast(es, JobIdTest(jobId))..])
    decreases |lines| - pos
  {
    var next := NextLogEntry(lines, pos);
    var es := LogEntries(lines, pos).value;
    if next.0.value.None? {
      NoEntryAtEnd(lines, pos);
    } else {
      var entry := next.0.value.value;
      var tail := LogEntries(lines, next.1).value;
      assert es == [entry] + tail;
      assert es[1..] == tail;
      if entry["jobid"] != jobId {
        SpoolLeavesRest(lines, next.1, jobId);
      }
    }
  }

  /** `TorqueLogParser`: a log file read line by line. `file_` is None until
      the file is opened and then holds its lines, of which the first `pos`
      have been read. The file system is the map `files` from path to
      lines; a path it lacks cannot be opened. */
  class TorqueLogParser {
    var log_file: string
    var file_: Option<seq<string>>
    var pos: nat

    predicate Valid()
      reads this
    {
      file_.Some? ==> pos <= |file_.value|
    }

    constructor (logFile: string)
      ensures Valid() && log_file == logFile && file_.None?
    {
      log_file := logFile;
      file_ := None;
      pos := 0;
    }

    /** The lines the next read works on, once the file is open. */
    function Lines(files: map<string, seq<string>>): Result<seq<string>>
      reads this
    {
      if file_.Some? then Success(file_.value)
      else if log_file in files then Success(files[log_file])
      else Failure(IOError)
    }

    /** The number of lines already read, once the file is open. */
    function Position(): nat
      reads this
    {
      if file_.Some? then pos else 0
    }

    /** `openFile` */
    method OpenFile(files: map<string, seq<string>>) returns (r: Result<()>)
      modifies this
      ensures log_file == old(log_file)
      ensures old(log_file) in files ==> r == Success(()) && file_ == Some(files[log_file]) && pos == 0
      ensures old(log_file) !in files ==> r == Failure(IOError) && file_ == old(file_) && pos == old(pos)
    {
      if log_file !in files {
        return Failure(IOError);
      }
      file_ := Some(files[log_file]);
      pos := 0;
      return Success(());
    }

    /** `readline`: the next line, or the empty string at the end. */
    method ReadLine() returns (line: string)
      requires Valid() && file_.Some?
      modifies this
      ensures Valid() && log_file == old(log_file) && file_ == old(file_)
      ensures old(pos) == |file_.value| ==> line == "" && pos == old(pos)
      ensures old(pos) < |file_.value| ==> line == file_.value[old(pos)] && pos == old(pos) + 1
    {
      if pos == |file_.value| {
        return "";
      }
      line := file_.value[pos];
      pos := pos + 1;
    }

    /** Opens the file when it is not open yet. */
    method EnsureOpen(files: map<string, seq<string>>) returns (r: Result<()>)
      requires Valid()
      modifies this
      ensures Valid() && log_file == old(log_file)
      ensures r.Success? <==> old(Lines(files)).Success?
      ensures r.Success? ==> file_ == Some(old(Lines(files)).value) && pos == old(Position())
      ensures r.Failure? ==> r.error == IOError && file_ == old(file_) && pos == old(pos)
    {
      if file_.None? {
        r := OpenFile(files);
      } else {
        r := Success(());
      }
    }

    /** `getNextLogLine` */
    method GetNextLogLine(files: map<string, seq<string>>) returns (r: Result<Option<string>>)
      requires Valid()
      modifies this
      ensures Valid() && log_file == old(log_file)
      ensures old(Lines(files)).Failure? ==> r == Failure(IOError) && file_ == old(file_) && pos == old(pos)
      ensures old(Lines(files)).Success? ==>
        var next := NextLogLine(old(Lines(files)).value, old(Position()));
        file_ == Some(old(Lines(files)).value) && r == next.0 && pos == next.1
    {
      var open := EnsureOpen(files);
      if open.Failure? {
        return Failure(IOError);
      }
      ghost var start := pos;
      while true
        invariant Valid() && file_.Some? && file_ == Some(old(Lines(files)).value)
        invariant start <= pos && NextLogLine(file_.value, start) == NextLogLine(file_.value, pos)
        invariant log_file == old(log_file)
        decreases |file_.value| - pos
      {
        var line := ReadLine();
        if line == "" {
          return Success(None);
        }
        if |line| <= 20 {
          return Failure(IndexError);
        }
        if line[20] == 'E' {
          return Success(Some(line));
        }
      }
    }

    /** `getNextLogEntry` */
    method GetNextLogEntry(files: map<string, seq<string>>) returns (r: Result<Option<Entry>>)
      requires Valid()
      modifies this
      ensures Valid() && log_file == old(log_file)
      ensures old(Lines(files)).Failure? ==> r == Failure(IOError) && file_ == old(file_) && pos == old(pos)
      ensures old(Lines(files)).Success? ==>
        var next := NextLogEntry(old(Lines(files)).value, old(Position()));
        file_ == Some(old(Lines(files)).value) && r == next.0 && pos == next.1
    {
      var line := GetNextLogLine(files);
      if line.Failure? {
        return Failure(line.error);
      }
      if line.value.None? {
        return Success(None);
      }
      var entry := LineEntry(line.value.value);
      if entry.Failure? {
        return Failure(entry.error);
      }
      return Success(Some(entry.value));
    }

    /** `spoolToEntry` */
    method SpoolToEntry(files: map<string, seq<string>>, jobId: string) returns (r: Result<()>)
      requires Valid()
      modifies this
      ensures Valid() && log_file == old(log_file)
      ensures old(Lines(files)).Failure? ==> r == Failure(IOError) && file_ == old(file_) && pos == old(pos)
      ensures old(Lines(files)).Success? ==>
        var next := SpoolTo(old(Lines(files)).value, old(Position()), jobId);
        file_ == Some(old(Lines(files)).value) && r == next.0 && pos == next.1
    {
      var open := EnsureOpen(files);
      if open.Failure? {
        return Failure(IOError);
      }
      ghost var start := pos;
      while true
        invariant Valid() && file_.Some? && file_ == Some(old(Lines(files)).value)
        invariant start <= pos && SpoolTo(file_.value, start, jobId) == SpoolTo(file_.value, pos, jobId)
        invariant log_file == old(log_file)
        decreases |file_.value| - pos
      {
        var entry := GetNextLogEntry(files);
        if entry.Failure? {
          return Failure(entry.error);
        }
        if entry.value.None? || entry.value.value["jobid"] == jobId {
          return Success(());
        }
      }
    }
  }

  // ---- getSeconds ----

  /** `getSeconds`: `HH:MM:SS` as a number of seconds. The text must have
      exactly three `:`-parts to unpack, and each must be an integer `int()`
      accepts; anything else raises ValueError. */
  /** Hours, minutes and seconds as seconds. */
  function ClockSeconds(h: int, m: int, s: int): int {
    h * 3600 + m * 60 + s
  }

  function GetSeconds(ts: string): (r: Result<int>)
    ensures r.Failure? ==> r.error == ValueError
    ensures r.Success? ==> |Split(ts, ':')| == 3
  {
    var parts := Split(ts, ':');
    if |parts| != 3 then Failure(ValueError)
    else
      match (ParseInt(parts[0]), ParseInt(parts[1]), ParseInt(parts[2]))
      case (Some(h), Some(m), Some(s)) => Success(ClockSeconds(h, m, s))
      case _ => Failure(ValueError)
  }

  lemma DigitsFree(a: string, c: char)
    requires IsDigits(a) && !IsDigit(c)
    ensures c !in a
  {
    assert forall i :: 0 <= i < |a| ==> IsDigit(a[i]);
  }

  /** A text whose three `:`-parts are numerals H, M and S is
      H·3600 + M·60 + S seconds; unlike a clock time, the hours are not
      bounded (a `cput` of `120:00:05` is 432005 seconds). */
  lemma GetSecondsOf(ts: string, h: string, m: string, s: string)
    requires Split(ts, ':') == [h, m, s] && IsDigits(h) && IsDigits(m) && IsDigits(s)
    ensures GetSeconds(ts) == Success(ClockSeconds(DigitsValue(h), DigitsValue(m), DigitsValue(s)))
  {
    var parts := Split(ts, ':');
    assert parts[0] == h && parts[1] == m && parts[2] == s;
    ParseIntDigits(h);
    ParseIntDigits(m);
    ParseIntDigits(s);
  }

  /** `H:M:S` of three numerals has those three `:`-parts. */
  lemma SplitThree(h: string, m: string, s: string)
    requires IsDigits(h) && IsDigits(m) && IsDigits(s)
    ensures Split(h + ":" + m + ":" + s, ':') == [h, m, s]
  {
    DigitsFree(h, ':');
    DigitsFree(m, ':');
    DigitsFree(s, ':');
    assert h + ":" + m + ":" + s == h + [':'] + (m + [':'] + s);
    SplitAppendSep(h, ':', m + [':'] + s);
    Common.SplitAround(m, ':', s);
  }

  /** A time with one `:`, such as `05:30`, does not unpack into three parts. */
  lemma GetSecondsTwoParts(m: nat, s: nat)
    ensures GetSeconds(NatToString(m) + ":" + NatToString(s)) == Failure(ValueError)
  {
    var b, c := NatToString(m), NatToString(s);
    DigitsFree(b, ':');
    DigitsFree(c, ':');
    Common.SplitAround(b, ':', c);
    assert b + ":" + c == b + [':'] + c;
  }

  // ---- getCoreCount ----

  /** A `:`-part naming the processors per node: longer than three
      characters and starting with `ppn`. */
  predicate IsPpn(part: string) {
    |part| > 3 && part[..3] == "ppn"
  }

  /** The first part that names the processors per node, if any. */
  function PpnIndex(parts: seq<string>): (r: Option<nat>)
    ensures r.Some? ==> r.value < |parts|
    decreases |parts|
  {
    if |parts| == 0 then None
    else if IsPpn(parts[0]) then Some(0)
    else
      match PpnIndex(parts[1..])
      case None => None
      case Some(q) => Some(q + 1)
  }

  /** `PpnIndex` finds the first `ppn` part, and None means there is none. */
  lemma {:induction false} PpnIndexFirst(parts: seq<string>)
    ensures var r := PpnIndex(parts);
      && (r.Some? ==> IsPpn(parts[r.value]) && forall q :: 0 <= q < r.value ==> !IsPpn(parts[q]))
      && (r.None? ==> forall q :: 0 <= q < |parts| ==> !IsPpn(parts[q]))
    decreases |parts|
  {
    if |parts| > 0 && !IsPpn(parts[0]) {
      PpnIndexFirst(parts[1..]);
      forall q | 1 <= q < |parts| ensures parts[q] == parts[1..][q - 1] {}
    }
  }

  /** The node count a request starts with: its number, or 1 for a host name. */
  function LeadingCount(first: string): int {
    if IsDigits(first) then DigitsValue(first) else 1
  }

  /** The cores one `+`-separated request asks for: the leading count, times
      the value after `=` of the first `ppn` part when the request has more
      than one `:`-part. A `ppn` part without `=` raises IndexError, a value
      that is no integer ValueError. */
  function SpecCores(spec: string): Result<int> {
    var parts := Split(spec, ':');
    var first := LeadingCount(parts[0]);
    if |parts| > 1 then
      match PpnIndex(parts)
      case None => Success(first)
      case Some(j) =>
        var kv := Split(parts[j], '=');
        if |kv| < 2 then Failure(IndexError)
        else
          match ParseInt(kv[1])
          case None => Failure(ValueError)
          case Some(p) => Success(first * p)
    else Success(first)
  }

  /** The cores of a list of requests, summed left to right; the first
      request that fails decides the result. */
  function SumCores(specs: seq<string>): Result<int>
    decreases |specs|
  {
    if |specs| == 0 then Success(0)
    else
      var c :- SpecCores(specs[0]);
      var rest :- SumCores(specs[1..]);
      Success(c + rest)
  }

  /** The number of cores a `Resource_List.nodes` value asks for. */
  function CoreCount(nodes: string): Result<int> {
    SumCores(Split(nodes, '+'))
  }

  /** `c` plus a successful count; a failure unchanged. */
  function Shift(c: int, r: Result<int>): Result<int> {
    if r.Success? then Success(c + r.value) else r
  }

  /** The sum from request `i` on: that request's cores and the sum after it. */
  lemma SumCoresStep(specs: seq<string>, i: nat)
    requires i < |specs|
    ensures var c := SpecCores(specs[i]);
      SumCores(specs[i..]) == if c.Failure? then Failure(c.error) else Shift(c.value, SumCores(specs[i + 1..]))
  {
    assert specs[i..][0] == specs[i] && specs[i..][1..] == specs[i + 1..];
  }

  /** `getCoreCount`: the cores of each `+`-separated request, added up. */
  method GetCoreCount(nodes: string) returns (r: Result<int>)
    ensures r == CoreCount(nodes)
  {
    var specs := Split(nodes, '+');
    var cores := 0;
    for i := 0 to |specs|
      invariant CoreCount(nodes) == Shift(cores, SumCores(specs[i..]))
    {
      SumCoresStep(specs, i);
      var c := RequestCores(specs[i]);
      if c.Failure? {
        return c;
      }
      cores := cores + c.value;
    }
    assert specs[|specs|..] == [];
    return Success(cores);
  }

  /** The body of `getCoreCount`'s outer loop for one request: the leading
      count, and the scan of its `:`-parts for the first `ppn` part. */
  method RequestCores(spec: string) returns (r: Result<int>)
    ensures r == SpecCores(spec)
  {
    var listTmp := Split(spec, ':');
    var first;
    if IsDigits(listTmp[0]) {
      ParseIntDigits(listTmp[0]);
      first := ParseInt(listTmp[0]).value;
    } else {
      first := 1;
    }
    assert first == LeadingCount(listTmp[0]);
    PpnIndexFirst(listTmp);
    if |listTmp| > 1 {
      for j := 0 to |listTmp|
        invariant forall q :: 0 <= q < j ==> !IsPpn(listTmp[q])
      {
        var e := listTmp[j];
        if |e| > 3 && e[..3] == "ppn" {
          assert IsPpn(e);
          assert PpnIndex(listTmp) == Some(j);
          var kv := Split(e, '=');
          if |kv| < 2 {
            return Failure(IndexError);
          }
          var p := ParseInt(kv[1]);
          if p.None? {
            return Failure(ValueError);
          }
          return Success(first * p.value);
        }
      }
      assert PpnIndex(listTmp) == None;
    }
    return Success(first);
  }

  lemma NotPpnDigits(a: string)
    requires IsDigits(a)
    ensures !IsPpn(a)
  {
    if |a| > 3 {
      assert IsDigit(a[0]);
      assert a[..3][0] == a[0];
    }
  }

  /** A request `<count or host>:ppn=P` asks for P cores per node: N·P
      for a node count N, P for a host name. */
  lemma SpecCoresPpn(spec: string, first: string, ppn: string, p: string)
    requires Split(spec, ':') == [first, ppn] && !IsPpn(first)
    requires IsPpn(ppn) && Split(ppn, '=') == ["ppn", p] && IsDigits(p)
    ensures SpecCores(spec) == Success(LeadingCount(first) * DigitsValue(p))
  {
    ParseIntDigits(p);
    PpnIndexFirst([first, ppn]);
  }

  /** The `:`-parts of `N:ppn=P`. */
  lemma NodesPpnParts(n: string, p: string)
    requires IsDigits(n) && IsDigits(p)
    ensures Split(n + ":ppn=" + p, ':') == [n, "ppn=" + p] && !IsPpn(n)
    ensures IsPpn("ppn=" + p) && Split("ppn=" + p, '=') == ["ppn", p]
  {
    var e := "ppn=" + p;
    assert e[..3] == "ppn";
    DigitsFree(n, ':');
    DigitsFree(p, ':');
    DigitsFree(p, '=');
    assert ':' !in e;
    assert n + ":ppn=" + p == n + [':'] + e;
    Common.SplitAround(n, ':', e);
    assert e == "ppn" + ['='] + p;
    Common.SplitAround("ppn", '=', p);
    NotPpnDigits(n);
  }

  /** A bare `N` asks for N cores, a bare host name for one. */
  lemma SpecCoresPlain(spec: string)
    requires ':' !in spec
    ensures SpecCores(spec) == Success(if IsDigits(spec) then DigitsValue(spec) else 1)
  {
    SplitOfSepFree(spec, ':');
  }

  /** Requests joined with `+` add up, the first failing one deciding. */
  lemma CoreCountPlus(a: string, b: string)
    requires '+' !in a
    ensures CoreCount(a + "+" + b) == if SpecCores(a).Failure? then SpecCores(a) else Shift(SpecCores(a).value, CoreCount(b))
  {
    assert a + "+" + b == a + ['+'] + b;
    SplitAppendSep(a, '+', b);
    var specs := [a] + Split(b, '+');
    SumCoresStep(specs, 0);
    assert specs[0..] == specs && specs[0] == a && specs[1..] == Split(b, '+');
  }

  // ---- the fields of a job ----

  /** `log_entry[k]`: KeyError when the line has no such field. */
  function StrField(entry: Entry, k: string): Result<string> {
    if k in entry then Success(entry[k]) else Failure(KeyError)
  }

  /** `int(log_entry[k])`: KeyError when absent, ValueError when no integer. */
  function IntField(entry: Entry, k: string): (r: Result<int>)
    ensures r.Failure? ==> r.error == (if k in entry then ValueError else KeyError)
    ensures r.Success? ==> k in entry && ParseInt(entry[k]) == Some(r.value)
  {
    if k !in entry then Failure(KeyError)
    else
      match ParseInt(entry[k])
      case None => Failure(ValueError)
      case Some(v) => Success(v)
  }

  /** The host of an `exec_host` element `host/slot`. */
  function HostOf(element: string): string {
    Split(element, '/')[0]
  }

  /** The distinct strings of `xs`, in order of first occurrence. */
  function Dedup(xs: seq<string>): seq<string>
    decreases |xs|
  {
    if |xs| == 0 then []
    else
      var d := Dedup(xs[..|xs| - 1]);
      if xs[|xs| - 1] in d then d else d + [xs[|xs| - 1]]
  }

  /** `Dedup` keeps every string once: the same strings, none twice. */
  lemma {:induction false} DedupDistinct(xs: seq<string>)
    ensures forall x :: x in Dedup(xs) <==> x in xs
    ensures forall i, j :: 0 <= i < j < |Dedup(xs)| ==> Dedup(xs)[i] != Dedup(xs)[j]
    decreases |xs|
  {
    if |xs| > 0 {
      DedupDistinct(xs[..|xs| - 1]);
      assert xs == xs[..|xs| - 1] + [xs[|xs| - 1]];
    }
  }

  /** The host of each element, in order. */
  function HostsOfElements(elements: seq<string>): seq<string>
    decreases |elements|
  {
    if |elements| == 0 then [] else [HostOf(elements[0])] + HostsOfElements(elements[1..])
  }

  lemma {:induction false} HostsOfElementsIn(elements: seq<string>, h: string)
    ensures h in HostsOfElements(elements) <==> exists e :: e in elements && h == HostOf(e)
    decreases |elements|
  {
    if |elements| > 0 {
      HostsOfElementsIn(elements[1..], h);
      assert elements == [elements[0]] + elements[1..];
    }
  }

  /** The hosts of an `exec_host` value: the host of each `+`-separated
      element, each host once. */
  function Hosts(execHost: string): seq<string> {
    Dedup(HostsOfElements(Split(execHost, '+')))
  }

  /** `hosts` names exactly the hosts of the elements, each once. */
  lemma HostsDistinct(execHost: string)
    ensures forall h :: h in Hosts(execHost) <==> exists e :: e in Split(execHost, '+') && h == HostOf(e)
    ensures forall i, j :: 0 <= i < j < |Hosts(execHost)| ==> Hosts(execHost)[i] != Hosts(execHost)[j]
  {
    var hs := HostsOfElements(Split(execHost, '+'));
    DedupDistinct(hs);
    forall h ensures h in Hosts(execHost) <==> exists e :: e in Split(execHost, '+') && h == HostOf(e) {
      HostsOfElementsIn(Split(execHost, '+'), h);
    }
  }

  /** Python 2's `/` on integers: the quotient rounded towards minus infinity. */
  function FloorDiv(a: int, b: int): int
    requires b != 0
  {
    if b > 0 then a / b else (-a) / (-b)
  }

  /** The quotient is rounded down, for either sign of the divisor. */
  lemma FloorDivBounds(a: int, b: int)
    requires b != 0
    ensures b > 0 ==> b * FloorDiv(a, b) <= a < b * FloorDiv(a, b) + b
    ensures b < 0 ==> b * FloorDiv(a, b) + b < a <= b * FloorDiv(a, b)
  {
    if b < 0 {
      var q := (-a) / (-b);
      assert (-b) * q <= -a < (-b) * q + (-b);
    }
  }

  /** The node count when `mppnodect` is missing: the cores divided by
      `int(mppnppn)`; any failure there (no such field, no integer, zero)
      keeps the number of hosts. */
  function GuessedNodes(entry: Entry, cores: int, hostCount: nat): int {
    match IntField(entry, "Resource_List.mppnppn")
    case Success(p) => if p == 0 then hostCount else FloorDiv(cores, p)
    case Failure(_) => hostCount
  }

  /** The processor and node counts, from the first of `ncpus`, `nodes` and
      `mppwidth` or `size` that the line has; without any of them both are
      the number of hosts. */
  function ProcessorCounts(entry: Entry, hosts: seq<string>): (r: Result<(int, int)>)
    ensures r.Success? && "Resource_List.mppwidth" !in entry && "Resource_List.size" !in entry ==> r.value.1 == |hosts|
  {
    if "Resource_List.ncpus" in entry then
      var c :- IntField(entry, "Resource_List.ncpus");
      Success((c, |hosts|))
    else if "Resource_List.nodes" in entry then
      var c :- CoreCount(entry["Resource_List.nodes"]);
      Success((c, |hosts|))
    else if "Resource_List.mppwidth" in entry || "Resource_List.size" in entry then
      var c :- IntField(entry, if "Resource_List.mppwidth" in entry then "Resource_List.mppwidth" else "Resource_List.size");
      if "Resource_List.mppnodect" in entry then
        var n :- IntField(entry, "Resource_List.mppnodect");
        Success((c, n))
      else Success((c, GuessedNodes(entry, c, |hosts|)))
    else Success((|hosts|, |hosts|))
  }

  /** `ncpus` takes precedence over every other request. */
  lemma NcpusFirst(entry: Entry, hosts: seq<string>, n: nat)
    requires "Resource_List.ncpus" in entry && entry["Resource_List.ncpus"] == NatToString(n)
    ensures ProcessorCounts(entry, hosts) == Success((n, |hosts|))
  {
    ParseIntDigits(NatToString(n));
  }

  /** Without `ncpus`, the processors are the cores the `nodes` request
      asks for, and the node count the number of hosts. */
  lemma NodesRequest(entry: Entry, hosts: seq<string>)
    requires "Resource_List.ncpus" !in entry && "Resource_List.nodes" in entry
    requires CoreCount(entry["Resource_List.nodes"]).Success?
    ensures ProcessorCounts(entry, hosts) == Success((CoreCount(entry["Resource_List.nodes"]).value, |hosts|))
  {
  }

  /** On a Cray-style line with `mppwidth` W and `mppnppn` P > 0 but no
      `mppnodect`, the node count is W / P rounded down. */
  lemma MppGuess(entry: Entry, hosts: seq<string>, w: int, p: int)
    requires "Resource_List.ncpus" !in entry && "Resource_List.nodes" !in entry
    requires "Resource_List.mppnodect" !in entry
    requires IntField(entry, "Resource_List.mppwidth") == Success(w)
    requires IntField(entry, "Resource_List.mppnppn") == Success(p) && p > 0
    ensures ProcessorCounts(entry, hosts).Success?
    ensures var (c, nodes) := ProcessorCounts(entry, hosts).value;
      c == w && p * nodes <= w < p * nodes + p
  {
    FloorDivBounds(w, p);
    assert ProcessorCounts(entry, hosts) == Success((w, FloorDiv(w, p)));
  }

  /** `job_identifier`: a numeric job id is qualified with the host name. */
  function JobIdentifier(jobId: string, hostname: Option<string>): string {
    if IsDigits(jobId) && hostname.Some? then jobId + "." + hostname.value else jobId
  }

  /** What `createUsageRecord` derives from a line before it consults the
      user map. */
  datatype Job = Job(
    jobId: string, userName: string, queue: string, account: Option<string>,
    submitTime: int, startTime: int, endTime: int, utilizedCpu: int, wallTime: int,
    hosts: seq<string>, coreCount: int, nodeCount: int,
    jobIdentifier: string, fqdnJobId: string, machineName: string)

  /** `createUsageRecord` up to the user-map check: the field reads, `int()`
      and `getSeconds` raise in source order, and a missing host name makes
      the `+` of the qualified job id raise TypeError. */
  function JobOf(entry: Entry, hostname: Option<string>): (r: Result<Job>)
    ensures r.Success? ==> hostname.Some?
  {
    var jobId :- StrField(entry, "jobid");
    var user :- StrField(entry, "user");
    var queue :- StrField(entry, "queue");
    var account := if "account" in entry then Some(entry["account"]) else None;
    var submit :- IntField(entry, "ctime");
    var start :- IntField(entry, "start");
    var end :- IntField(entry, "end");
    var cputText :- StrField(entry, "resources_used.cput");
    var cpu :- GetSeconds(cputText);
    var wallText :- StrField(entry, "resources_used.walltime");
    var wall :- GetSeconds(wallText);
    var execHost :- StrField(entry, "exec_host");
    var hosts := Hosts(execHost);
    var counts :- ProcessorCounts(entry, hosts);
    var ident := JobIdentifier(jobId, hostname);
    if hostname.None? then Failure(TypeError)
    else
      Success(Job(jobId, user, queue, account, submit, start, end, cpu, wall, hosts,
                  counts.0, counts.1, ident, hostname.value + ":" + ident, hostname.value))
  }

  /** `not user_map.get(user)`: no mapping, or an empty one. */
  predicate Unmapped(users: map<string, Option<string>>, user: string) {
    MapGet(users, user).None? || MapGet(users, user).value == ""
  }

  /** The VO a job is mapped to: by its account when the line names a
      non-empty one, else by its user. A mapped VO becomes one block of
      type `bart-vomap`. */
  function JobVo(vos: map<string, Option<string>>, account: Option<string>, user: string): (vs: seq<VOInformation>)
    ensures var key := if account.Some? && account.value != "" then account.value else user;
      && |vs| <= 1 && (|vs| == 1 <==> MapGet(vos, key).Some?)
      && (|vs| == 1 ==> vs[0] == NewVOInformation(MapGet(vos, key), Some("bart-vomap"), None))
  {
    var mapped := if account.Some? && account.value != "" then MapGet(vos, account.value) else MapGet(vos, user);
    if mapped.Some? then [NewVOInformation(mapped, Some("bart-vomap"), None)] else []
  }

  /** The block is written with its `type` attribute. */
  lemma JobVoTyped(vos: map<string, Option<string>>, account: Option<string>, user: string)
    requires |JobVo(vos, account, user)| == 1
    ensures VoElement(JobVo(vos, account, user)[0]).attrs == map[VoType := "bart-vomap"]
  {
  }

  /** What the record context holds: the host name the caller passes (None
      when it has none) and the contents of the user and VO maps. */
  datatype Context = Context(hostname: Option<string>, users: map<string, Option<string>>, vos: map<string, Option<string>>)

  /** The record of a job, from line 191 on: the three times go through
      `epoch2isoTime`, and a line without `Exit_status` raises KeyError. */
  function JobRecord(ctx: Context, job: Job, entry: Entry): Result<UsageRecord> {
    var vo := JobVo(ctx.vos, job.account, job.userName);
    var submit :- Epoch2IsoTime(job.submitTime);
    var start :- Epoch2IsoTime(job.startTime);
    var end :- Epoch2IsoTime(job.endTime);
    var exit :- StrField(entry, "Exit_status");
    Success(NewUsageRecord().(
      record_id := Some(job.fqdnJobId),
      local_job_id := Some(job.jobIdentifier),
      global_job_id := Some(job.fqdnJobId),
      local_user_id := Some(job.userName),
      global_user_name := MapGet(ctx.users, job.userName),
      machine_name := Some(job.machineName),
      queue := Some(job.queue),
      project_name := job.account,
      processors := Some(Int(job.coreCount)),
      node_count := Some(Int(job.nodeCount)),
      host := Some(Join(job.hosts, ",")),
      submit_time := Some(submit),
      start_time := Some(start),
      end_time := Some(end),
      cpu_duration := Some(job.utilizedCpu as real),
      wall_duration := Some(job.wallTime as real),
      vo_info := vo,
      exit_code := Some(Str(exit))))
  }

  /** `createUsageRecord`'s result for an entry. */
  function RecordOf(ctx: Context, entry: Entry): Result<UsageRecord> {
    var job :- JobOf(entry, ctx.hostname);
    JobRecord(ctx, job, entry)
  }

  /** A job read from a line carries the line's values: the host name
      qualifies the job id, the strings are as written, the times are the
      integers written, the durations what `getSeconds` reads and the
      counts what the resource requests give. */
  lemma JobFields(entry: Entry, hostname: Option<string>)
    requires JobOf(entry, hostname).Success?
    ensures hostname.Some?
    ensures "jobid" in entry && "user" in entry && "queue" in entry
    ensures "resources_used.cput" in entry && "resources_used.walltime" in entry && "exec_host" in entry
    ensures var job := JobOf(entry, hostname).value;
      && job.jobId == entry["jobid"] && job.userName == entry["user"] && job.queue == entry["queue"]
      && job.account == (if "account" in entry then Some(entry["account"]) else None)
      && job.submitTime == IntField(entry, "ctime").value
      && job.startTime == IntField(entry, "start").value
      && job.endTime == IntField(entry, "end").value
      && job.utilizedCpu == GetSeconds(entry["resources_used.cput"]).value
      && job.wallTime == GetSeconds(entry["resources_used.walltime"]).value
      && job.hosts == Hosts(entry["exec_host"])
      && ProcessorCounts(entry, job.hosts) == Success((job.coreCount, job.nodeCount))
      && job.jobIdentifier == JobIdentifier(entry["jobid"], hostname)
      && job.fqdnJobId == hostname.value + ":" + job.jobIdentifier
      && job.machineName == hostname.value
  {
  }

  /** Without a host name no job can be read. */
  lemma JobNeedsHostname(entry: Entry)
    ensures JobOf(entry, None).Failure?
  {
  }

  /** The user `createUsageRecord` adds to `missing_user_mappings`: the
      entry's user, once the fields up to the qualified job id have been
      read, when the user map gives it no non-empty name. */
  function UnmappedUser(ctx: Context, entry: Entry): set<string> {
    match JobOf(entry, ctx.hostname)
    case Success(job) => if Unmapped(ctx.users, job.userName) then {job.userName} else {}
    case Failure(_) => {}
  }

  /** The line's own user is reported exactly when the line reads as a job
      and the user map has no usable entry for the user; nothing else is. */
  lemma UnmappedUserOf(ctx: Context, entry: Entry)
    ensures |UnmappedUser(ctx, entry)| <= 1
    ensures UnmappedUser(ctx, entry) != {} <==>
      JobOf(entry, ctx.hostname).Success? && "user" in entry && Unmapped(ctx.users, entry["user"])
    ensures UnmappedUser(ctx, entry) != {} ==>
      "user" in entry && UnmappedUser(ctx, entry) == {entry["user"]}
  {
    if JobOf(entry, ctx.hostname).Success? {
      JobFields(entry, ctx.hostname);
    }
  }

  /** A record carries the job's values: its identifiers, user, queue,
      account, durations, hosts and counts, and the exit status as written. */
  lemma JobRecordFields(ctx: Context, job: Job, entry: Entry)
    requires JobRecord(ctx, job, entry).Success?
    ensures "Exit_status" in entry
    ensures var ur := JobRecord(ctx, job, entry).value;
      && ur.local_job_id == Some(job.jobIdentifier)
      && ur.record_id == Some(job.fqdnJobId) && ur.global_job_id == ur.record_id
      && ur.machine_name == Some(job.machineName)
      && ur.local_user_id == Some(job.userName) && ur.global_user_name == MapGet(ctx.users, job.userName)
      && ur.queue == Some(job.queue) && ur.project_name == job.account
      && ur.exit_code == Some(Str(entry["Exit_status"]))
      && ur.cpu_duration == Some(job.utilizedCpu as real) && ur.wall_duration == Some(job.wallTime as real)
      && ur.host == Some(Join(job.hosts, ","))
      && ur.processors == Some(Int(job.coreCount)) && ur.node_count == Some(Int(job.nodeCount))
      && ur.vo_info == JobVo(ctx.vos, job.account, job.userName)
  {
  }

  /** A record carries the line's identifiers and values: the job id
      qualified by the host name, the user, queue, account and exit status
      as written, and the durations `getSeconds` reads. */
  lemma RecordFields(ctx: Context, entry: Entry)
    requires RecordOf(ctx, entry).Success?
    ensures ctx.hostname.Some?
    ensures "jobid" in entry && "user" in entry && "queue" in entry && "Exit_status" in entry
    ensures "resources_used.cput" in entry && "resources_used.walltime" in entry && "exec_host" in entry
    ensures GetSeconds(entry["resources_used.cput"]).Success? && GetSeconds(entry["resources_used.walltime"]).Success?
    ensures var ur := RecordOf(ctx, entry).value;
      var ident := JobIdentifier(entry["jobid"], ctx.hostname);
      && ur.local_job_id == Some(ident)
      && ur.record_id == Some(ctx.hostname.value + ":" + ident) && ur.global_job_id == ur.record_id
      && ur.machine_name == ctx.hostname
      && ur.local_user_id == Some(entry["user"]) && ur.global_user_name == MapGet(ctx.users, entry["user"])
      && ur.queue == Some(entry["queue"])
      && ur.project_name == (if "account" in entry then Some(entry["account"]) else None)
      && ur.exit_code == Some(Str(entry["Exit_status"]))
      && ur.cpu_duration == Some(GetSeconds(entry["resources_used.cput"]).value as real)
      && ur.wall_duration == Some(GetSeconds(entry["resources_used.walltime"]).value as real)
      && ur.host == Some(Join(Hosts(entry["exec_host"]), ","))
  {
    var job := JobOf(entry, ctx.hostname).value;
    JobFields(entry, ctx.hostname);
    JobRecordFields(ctx, job, entry);
  }

  /** Without a host name no record can be made. */
  lemma RecordNeedsHostname(ctx: Context, entry: Entry)
    requires ctx.hostname.None?
    ensures RecordOf(ctx, entry).Failure?
  {
    JobNeedsHostname(entry);
  }

  /** A numeric job id is qualified with the host name, once in the local
      id and again after the host name in the record id. */
  lemma NumericJobId(ctx: Context, entry: Entry)
    requires RecordOf(ctx, entry).Success? && "jobid" in entry && IsDigits(entry["jobid"])
    ensures ctx.hostname.Some?
    ensures var h := ctx.hostname.value;
      RecordOf(ctx, entry).value.record_id == Some(h + ":" + entry["jobid"] + "." + h)
  {
    RecordFields(ctx, entry);
    QualifiedId(ctx.hostname.value, entry["jobid"]);
  }

  lemma QualifiedId(h: string, id: string)
    requires IsDigits(id)
    ensures h + ":" + JobIdentifier(id, Some(h)) == h + ":" + id + "." + h
  {
    assert h + ":" + (id + "." + h) == h + ":" + id + "." + h;
  }

  // ---- the resume state ----

  /** `createGeneratorState`: `"<job id> <date>"`, with `-` for a job id
      that is None or empty; a date that is None is written `None`. */
  function StateText(jobId: Option<string>, logFile: Option<string>): string {
    (if jobId.None? || jobId.value == "" then "-" else jobId.value) + " " + RenderOpt(logFile)
  }

  /** `time.strftime(TORQUE_DATE_FORMAT, time.gmtime(t))` for a clock
      reading of `t` whole seconds: a time `gmtime` cannot represent, or
      one before 1900 that Python 2's `strftime` refuses, raises ValueError. */
  function DateText(t: int): (r: Result<string>)
    ensures r.Failure? ==> r.error == ValueError
  {
    match GmTime(t)
    case None => Failure(ValueError)
    case Some(tm) => Strftime(TorqueDateFormat, tm)
  }

  /** The job id and date `parseGeneratorState` keeps. Without a state (or
      with an empty one) it starts with no job id from the day 24 hours
      before `now`; otherwise the state must hold exactly one space (the
      two names `split(' ', 2)` is unpacked into), else ValueError, and a
      job id `-` means none. */
  function ParseState(state: Option<string>, now: int): (r: Result<(Option<string>, string)>)
    ensures state.Some? && state.value != "" && r.Success? ==> |Split(state.value, ' ')| == 2
    ensures r.Success? && r.value.0.Some? ==> r.value.0.value != "-"
  {
    if state.None? || state.value == "" then
      var date :- DateText(now - 24 * 3600);
      Success((None, date))
    else
      var parts := Split(state.value, ' ');
      if |parts| != 2 then Failure(ValueError)
      else Success((if parts[0] == "-" then None else Some(parts[0]), parts[1]))
  }

  /** A saved state is read back as the job id and date it was made of, a
      job id `-` or empty read back as none. */
  lemma StateRoundTrip(jobId: Option<string>, date: string)
    requires jobId.Some? ==> ' ' !in jobId.value
    requires ' ' !in date
    ensures forall now ::
      ParseState(Some(StateText(jobId, Some(date))), now) ==
        Success((if jobId.None? || jobId.value == "" || jobId.value == "-" then None else jobId, date))
  {
    var j := if jobId.None? || jobId.value == "" then "-" else jobId.value;
    assert StateText(jobId, Some(date)) == j + [' '] + date;
    Common.SplitAround(j, ' ', date);
  }

  /** The same through the state file: the state written as its first line,
      whatever follows, is read back by `readGeneratorState`. */
  lemma StateFileRoundTrip(jobId: string, date: string, more: string, now: int)
    requires ' ' !in jobId && '\n' !in jobId && jobId != "" && jobId != "-" && !IsSpace(jobId[0])
    requires ' ' !in date && '\n' !in date && date != "" && !IsSpace(date[|date| - 1])
    ensures var text := StateText(Some(jobId), Some(date));
      ParseState(Common.ReadGeneratorState(Some(text + "\n" + more)), now) == Success((Some(jobId), date))
  {
    var text := StateText(Some(jobId), Some(date));
    assert text == jobId + " " + date;
    assert text[0] == jobId[0] && text[|text| - 1] == date[|date| - 1];
    assert '\n' !in text;
    Common.ReadWrittenState(text, more);
    StateRoundTrip(Some(jobId), date);
  }

  // ---- generateUsageRecords ----

  /** `os.path.join` of two POSIX paths: an absolute second path replaces
      the first, and a `/` is put between them unless the first is empty or
      ends with one. */
  function PathJoin(a: string, b: string): (r: string)
    ensures |b| > 0 && b[0] == '/' ==> r == b
    ensures (|b| == 0 || b[0] != '/') && |a| > 0 && a[|a| - 1] != '/' ==> r == a + "/" + b
  {
    if |b| > 0 && b[0] == '/' then b
    else if |a| == 0 || a[|a| - 1] == '/' then a + b
    else a + "/" + b
  }

  /** The accounting directory under the configured spool directory. */
  function AccountingDir(cfg: Ini): string {
    var spool := GetConfigValue(cfg, Section, SpoolDirOption, Some(DefaultSpoolDir)).value;
    PathJoin(PathJoin(spool, "server_priv"), "accounting")
  }

  /** By default the logs are read from `/var/spool/torque/server_priv/accounting`. */
  lemma DefaultAccountingDir(cfg: Ini)
    requires Section !in cfg || SpoolDirOption !in cfg[Section]
    ensures AccountingDir(cfg) == "/var/spool/torque/server_priv/accounting"
  {
  }

  /** How a run turns an entry into its record and which user without a
      mapping it notes: `createUsageRecord`, for the Torque backend the
      functions `RecordOf` and `UnmappedUser` of its context. */
  datatype Recorder = Recorder(record: Entry -> Result<UsageRecord>, unmapped: Entry -> set<string>)

  function TorqueRecorder(ctx: Context): Recorder {
    Recorder(entry => RecordOf(ctx, entry), entry => UnmappedUser(ctx, entry))
  }

  /** What a run has done so far: the records written, the states saved
      after each, the users without a mapping, the job id and date last
      saved, and the exception that ended it, if one did. */
  datatype Run = Run(
    written: seq<UsageRecord>, saves: seq<string>, missing: set<string>,
    stateJob: Option<string>, stateDate: Option<string>, error: Option<Exception>)

  /** The inner loop of `generateUsageRecords` over one day's log from line
      `pos` on: each entry's record is written and the state saved after
      it; the end of the log ends the loop and an exception ends the run. */
  function DayLoop(rec: Recorder, lines: seq<string>, pos: nat, date: string, run: Run): Run
    requires pos <= |lines|
    decreases |lines| - pos
  {
    var next := NextLogEntry(lines, pos);
    match next.0
    case Failure(e) => run.(error := Some(e))
    case Success(None) => run
    case Success(Some(entry)) =>
      var missing := run.missing + rec.unmapped(entry);
      match rec.record(entry)
      case Failure(e) => run.(missing := missing, error := Some(e))
      case Success(ur) =>
        var jobId := Some(entry["jobid"]);
        DayLoop(rec, lines, next.1, date,
          Run(run.written + [ur], run.saves + [StateText(jobId, Some(date))], missing, jobId, Some(date), None))
  }

  /** One day of `generateUsageRecords`: a log that cannot be opened adds
      nothing; with a job id to resume after, the log is spooled to that
      job first, and an exception while spooling ends the run. */
  function DayRun(rec: Recorder, files: map<string, seq<string>>, path: string, date: string, jobId: Option<string>, run: Run): Run {
    if path !in files then run
    else if jobId.None? then DayLoop(rec, files[path], 0, date, run)
    else
      var sp := SpoolTo(files[path], 0, jobId.value);
      if sp.0.Failure? then run.(error := Some(sp.0.error))
      else DayLoop(rec, files[path], sp.1, date, run)
  }

  /** How far a date is from the last one `strptime` can read, which each
      step to the next day brings closer; 0 for a text that is no date. */
  function DateRank(date: string): nat {
    match Strptime(TorqueDateFormat, date)
    case Failure(_) => 0
    case Success(tm) =>
      DateOfDayNumberOf(tm.DateOf());
      LastDayNumber - DayNumber(tm.DateOf())
  }

  /** `%Y%m%d` has distinct directives and reads a midnight back whole. */
  lemma DateFormatFields(m: Tm)
    requires m.hour == 0 && m.minute == 0 && m.second == 0
    ensures DistinctFields(TorqueDateFormat)
    ensures forall f: Field :: Fld(f) in TorqueDateFormat || FieldValue(f, m) == DefaultValue(f)
  {
    forall f: Field ensures Fld(f) in TorqueDateFormat || FieldValue(f, m) == DefaultValue(f) {
      match f
      case Year =>
      case Month =>
      case Day =>
      case Hour =>
      case Minute =>
      case Second =>
    }
  }

  /** The next day `getIncrementalDate` gives is read back one day later. */
  lemma NextDateRank(date: string, next: string)
    requires Common.GetIncrementalDate(date, TorqueDateFormat) == Success(next)
    ensures DateRank(next) < DateRank(date)
  {
    var tm := Strptime(TorqueDateFormat, date).value;
    var n := NextDay(tm.DateOf()).value;
    var m := Common.Midnight(n);
    assert Strftime(TorqueDateFormat, m) == Success(next);
    DateFormatFields(m);
    StrptimeStrftime(TorqueDateFormat, m);
    assert m.DateOf() == n;
    DateOfDayNumberOf(n);
  }

  /** The outer loop of `generateUsageRecords` from `date` on: a job id
      whose log cannot be opened is dropped and the day read without it;
      the run stops after an exception or after `today`, and otherwise goes
      on with the next day, where `getIncrementalDate` may raise. */
  function Drive(rec: Recorder, files: map<string, seq<string>>, dir: string, today: string, date: string, jobId: Option<string>, run: Run): Run
    decreases DateRank(date), if jobId.Some? then 1 else 0
  {
    var path := PathJoin(dir, date);
    if jobId.Some? && path !in files then Drive(rec, files, dir, today, date, None, run)
    else
      var after := DayRun(rec, files, path, date, jobId, run);
      if after.error.Some? || date == today then after
      else
        match Common.GetIncrementalDate(date, TorqueDateFormat)
        case Failure(e) => after.(error := Some(e))
        case Success(next) =>
          NextDateRank(date, next);
          Drive(rec, files, dir, today, next, None, after)
  }

  /** The records of a list of entries, in order; the first entry without
      one decides the exception. */
  function EntryRecords(rec: Recorder, entries: seq<Entry>): Result<seq<UsageRecord>>
    decreases |entries|
  {
    if |entries| == 0 then Success([])
    else
      var ur :- rec.record(entries[0]);
      var rest :- EntryRecords(rec, entries[1..]);
      Success([ur] + rest)
  }

  /** A day's loop ends without an exception exactly when every entry of the
      rest of the log can be read and has a record, and then it writes those
      records in order. */
  lemma {:induction false} DayLoopWrites(rec: Recorder, lines: seq<string>, pos: nat, date: string, run: Run)
    requires pos <= |lines| && run.error.None?
    ensures var r := DayLoop(rec, lines, pos, date, run);
      var es := LogEntries(lines, pos);
      && (r.error.None? <==> es.Success? && EntryRecords(rec, es.value).Success?)
      && (r.error.None? ==> r.written == run.written + EntryRecords(rec, es.value).value)
    decreases |lines| - pos
  {
    var next := NextLogEntry(lines, pos);
    if next.0.Success? && next.0.value.Some? {
      var entry := next.0.value.value;
      var r := DayLoop(rec, lines, pos, date, run);
      if rec.record(entry).Success? {
        var ur := rec.record(entry).value;
        var jobId := Some(entry["jobid"]);
        var run' := Run(run.written + [ur], run.saves + [StateText(jobId, Some(date))],
          run.missing + rec.unmapped(entry), jobId, Some(date), None);
        DayLoopWrites(rec, lines, next.1, date, run');
        var tail := LogEntries(lines, next.1);
        if tail.Success? {
          var es := [entry] + tail.value;
          assert LogEntries(lines, pos) == Success(es);
          assert es[0] == entry && es[1..] == tail.value;
          if EntryRecords(rec, tail.value).Success? {
            assert EntryRecords(rec, es) == Success([ur] + EntryRecords(rec, tail.value).value);
          }
        }
      } else {
        var tail := LogEntries(lines, next.1);
        if tail.Success? {
          var es := [entry] + tail.value;
          assert es[0] == entry;
        }
      }
    }
  }

  /** Every record written is followed by a saved state, the last of which
      names the job id and date the run ends with. */
  predicate Tracked(run: Run) {
    |run.saves| == |run.written|
    && (|run.saves| > 0 ==> run.saves[|run.saves| - 1] == StateText(run.stateJob, run.stateDate))
  }

  lemma {:induction false} DayLoopTracked(rec: Recorder, lines: seq<string>, pos: nat, date: string, run: Run)
    requires pos <= |lines| && Tracked(run)
    ensures Tracked(DayLoop(rec, lines, pos, date, run))
    decreases |lines| - pos
  {
    var after, more, pos' := EntryTracked(rec, lines, pos, date, run);
    if more {
      DayLoopTracked(rec, lines, pos', date, after);
    }
  }

  /** One entry of the inner loop keeps the run tracked; the loop either
      ends there or goes on from a later line. */
  lemma EntryTracked(rec: Recorder, lines: seq<string>, pos: nat, date: string, run: Run)
    returns (after: Run, more: bool, pos': nat)
    requires pos <= |lines| && Tracked(run)
    ensures more ==>
      && pos < pos' <= |lines| && Tracked(after)
      && (Tracked(DayLoop(rec, lines, pos', date, after)) ==> Tracked(DayLoop(rec, lines, pos, date, run)))
    ensures !more ==> Tracked(DayLoop(rec, lines, pos, date, run))
  {
    var next := NextLogEntry(lines, pos);
    var whole := DayLoop(rec, lines, pos, date, run);
    pos' := next.1;
    after := run;
    more := false;
    if next.0.Failure? {
      assert whole == run.(error := Some(next.0.error));
    } else if next.0.value.None? {
      assert whole == run;
    } else {
      var entry := next.0.value.value;
      var missing := run.missing + rec.unmapped(entry);
      var ur := rec.record(entry);
      if ur.Failure? {
        assert whole == run.(missing := missing, error := Some(ur.error));
      } else {
        var jobId := Some(entry["jobid"]);
        after := Run(run.written + [ur.value], run.saves + [StateText(jobId, Some(date))], missing, jobId, Some(date), None);
        more := true;
        assert whole == DayLoop(rec, lines, next.1, date, after);
      }
    }
  }

  lemma DayRunTracked(rec: Recorder, files: map<string, seq<string>>, path: string, date: string, jobId: Option<string>, run: Run)
    requires Tracked(run)
    ensures Tracked(DayRun(rec, files, path, date, jobId, run))
  {
    if path in files {
      if jobId.None? {
        DayLoopTracked(rec, files[path], 0, date, run);
      } else if SpoolTo(files[path], 0, jobId.value).0.Success? {
        DayLoopTracked(rec, files[path], SpoolTo(files[path], 0, jobId.value).1, date, run);
      }
    }
  }

  /** Once a run is tracked it stays tracked, over all the days it reads. */
  lemma {:induction false} DriveTracked(rec: Recorder, files: map<string, seq<string>>, dir: string, today: string, date: string, jobId: Option<string>, run: Run)
    requires Tracked(run)
    ensures Tracked(Drive(rec, files, dir, today, date, jobId, run))
    decreases DateRank(date), if jobId.Some? then 1 else 0
  {
    if jobId.Some? && PathJoin(dir, date) !in files {
      DropsMissingLog(rec, files, dir, today, date, jobId, run);
      DriveTracked(rec, files, dir, today, date, None, run);
    } else {
      var after, next := DayTracked(rec, files, dir, today, date, jobId, run);
      if after.error.None? && date != today && next.Success? {
        DriveTracked(rec, files, dir, today, next.value, None, after);
      }
    }
  }

  /** A job id whose log cannot be opened is dropped, and the day read from
      its start. */
  lemma DropsMissingLog(rec: Recorder, files: map<string, seq<string>>, dir: string, today: string, date: string, jobId: Option<string>, run: Run)
    requires jobId.Some? && PathJoin(dir, date) !in files
    ensures Drive(rec, files, dir, today, date, jobId, run) == Drive(rec, files, dir, today, date, None, run)
  {
  }

  /** One day of the outer loop keeps the run tracked; the run goes on from
      the next date, which is nearer the end of the calendar. */
  lemma DayTracked(rec: Recorder, files: map<string, seq<string>>, dir: string, today: string, date: string, jobId: Option<string>, run: Run)
    returns (after: Run, next: Result<string>)
    requires Tracked(run) && (jobId.Some? ==> PathJoin(dir, date) in files)
    ensures Tracked(after)
    ensures after.error.None? && date != today && next.Success? ==>
      && DateRank(next.value) < DateRank(date)
      && (Tracked(Drive(rec, files, dir, today, next.value, None, after)) ==> Tracked(Drive(rec, files, dir, today, date, jobId, run)))
    ensures !(after.error.None? && date != today && next.Success?) ==> Tracked(Drive(rec, files, dir, today, date, jobId, run))
  {
    after := DayRun(rec, files, PathJoin(dir, date), date, jobId, run);
    next := Common.GetIncrementalDate(date, TorqueDateFormat);
    DayRunTracked(rec, files, PathJoin(dir, date), date, jobId, run);
    DriveOnce(rec, files, dir, today, date, jobId, run, after, next);
    if after.error.None? && date != today && next.Success? {
      NextDateRank(date, next.value);
    }
    var later := if next.Success? then Drive(rec, files, dir, today, next.value, None, after) else after;
    TrackedStep(after, next, date, today, Drive(rec, files, dir, today, date, jobId, run), later);
  }

  /** One day of the outer loop, the day's run and the next date given. */
  lemma DriveOnce(rec: Recorder, files: map<string, seq<string>>, dir: string, today: string, date: string, jobId: Option<string>, run: Run,
                  after: Run, next: Result<string>)
    requires jobId.Some? ==> PathJoin(dir, date) in files
    requires after == DayRun(rec, files, PathJoin(dir, date), date, jobId, run)
    requires next == Common.GetIncrementalDate(date, TorqueDateFormat)
    ensures Drive(rec, files, dir, today, date, jobId, run)
         == if after.error.Some? || date == today then after
            else if next.Failure? then after.(error := Some(next.error))
            else Drive(rec, files, dir, today, next.value, None, after)
  {
  }

  /** A run that ends with the day, fails on the next date or goes on from
      it is tracked when the day's run is, and, when it goes on, the rest of
      the run is. */
  lemma TrackedStep(after: Run, next: Result<string>, date: string, today: string, whole: Run, later: Run)
    requires Tracked(after)
    requires whole == if after.error.Some? || date == today then after
                      else if next.Failure? then after.(error := Some(next.error))
                      else later
    ensures after.error.None? && date != today && next.Success? ==> (Tracked(later) ==> Tracked(whole))
    ensures !(after.error.None? && date != today && next.Success?) ==> Tracked(whole)
  {
  }

  /** Resuming a day after job `j` writes the records of exactly the entries
      after the first one with that id (none when no entry has it). */
  lemma ResumeWrites(rec: Recorder, files: map<string, seq<string>>, path: string, date: string, j: string, run: Run)
    requires path in files && NoEmptyLines(files[path]) && LogEntries(files[path], 0).Success?
    requires run.error.None?
    ensures var es := LogEntries(files[path], 0).value;
      var recs := EntryRecords(rec, es[FirstPast(es, JobIdTest(j))..]);
      var r := DayRun(rec, files, path, date, Some(j), run);
      && (r.error.None? <==> recs.Success?)
      && (r.error.None? ==> r.written == run.written + recs.value)
  {
    var lines := files[path];
    SpoolLeavesRest(lines, 0, j);
    DayLoopWrites(rec, lines, SpoolTo(lines, 0, j).1, date, run);
  }

  /** The `Torque` generator. `state_job_id` and `state_log_file` are None
      until `parseGeneratorState` has set them. */
  class TorqueGenerator {
    var cfg: Ini
    var state_job_id: Option<string>
    var state_log_file: Option<string>
    var missing_user_mappings: set<string>

    constructor (cfg: Ini)
      ensures this.cfg == cfg && state_job_id.None? && state_log_file.None? && missing_user_mappings == {}
    {
      this.cfg := cfg;
      state_job_id := None;
      state_log_file := None;
      missing_user_mappings := {};
    }

    /** `getStateFile`: the `statefile` option, `torque.state` by default. */
    function GetStateFile(): (f: string)
      reads this
      ensures Section !in cfg || StateFileOption !in cfg[Section] ==> f == "torque.state"
    {
      GetConfigValue(cfg, Section, StateFileOption, Some(DefaultStateFile)).value
    }

    /** `createUsageRecord`: the record of an entry, noting its user when
        the user map gives it no non-empty name. */
    method CreateUsageRecord(ctx: Context, entry: Entry) returns (r: Result<UsageRecord>)
      modifies this
      ensures r == RecordOf(ctx, entry)
      ensures missing_user_mappings == old(missing_user_mappings) + UnmappedUser(ctx, entry)
      ensures cfg == old(cfg) && state_job_id == old(state_job_id) && state_log_file == old(state_log_file)
    {
      var job := JobOf(entry, ctx.hostname);
      if job.Failure? {
        return Failure(job.error);
      }
      if Unmapped(ctx.users, job.value.userName) {
        missing_user_mappings := missing_user_mappings + {job.value.userName};
      }
      r := JobRecord(ctx, job.value, entry);
    }

    /** `parseGeneratorState`: the job id and date the next run resumes
        from; a state that cannot be unpacked raises and changes nothing. */
    method ParseGeneratorState(state: Option<string>, now: int) returns (r: Result<()>)
      modifies this
      ensures var p := ParseState(state, now);
        if p.Success? then r == Success(()) && state_job_id == p.value.0 && state_log_file == Some(p.value.1)
        else r == Failure(p.error) && state_job_id == old(state_job_id) && state_log_file == old(state_log_file)
      ensures cfg == old(cfg) && missing_user_mappings == old(missing_user_mappings)
    {
      var p := ParseState(state, now);
      if p.Failure? {
        return Failure(p.error);
      }
      state_job_id, state_log_file := p.value.0, Some(p.value.1);
      return Success(());
    }

    /** `createGeneratorState`: a state that `parseGeneratorState` reads
        back, at any clock reading, as this generator's job id and log date. */
    function CreateGeneratorState(): (r: string)
      reads this
      ensures (state_log_file.Some? && ' ' !in state_log_file.value
               && (state_job_id.Some? ==> ' ' !in state_job_id.value)) ==>
        forall now :: ParseState(Some(r), now) == Success((
          if state_job_id.None? || state_job_id.value == "" || state_job_id.value == "-" then None
          else state_job_id, state_log_file.value))
    {
      if state_log_file.Some? && ' ' !in state_log_file.value
          && (state_job_id.Some? ==> ' ' !in state_job_id.value) then
        StateRoundTrip(state_job_id, state_log_file.value);
        StateText(state_job_id, state_log_file)
      else StateText(state_job_id, state_log_file)
    }

    /** The inner loop of `generateUsageRecords` over the log `tlp` reads:
        each entry's record is written and the state saved after it; a log
        that cannot be opened ends the day with nothing read. */
    method ReadDay(ctx: Context, files: map<string, seq<string>>, tlp: TorqueLogParser, date: string,
                   written0: seq<UsageRecord>, saves0: seq<string>)
      returns (written: seq<UsageRecord>, saves: seq<string>, error: Option<Exception>)
      requires tlp.Valid()
      modifies this, tlp
      ensures cfg == old(cfg)
      ensures old(tlp.Lines(files)).Failure? ==>
        written == written0 && saves == saves0 && error.None? && missing_user_mappings == old(missing_user_mappings)
        && state_job_id == old(state_job_id) && state_log_file == old(state_log_file)
      ensures old(tlp.Lines(files)).Success? ==>
        Run(written, saves, missing_user_mappings, state_job_id, state_log_file, error) ==
        DayLoop(TorqueRecorder(ctx), old(tlp.Lines(files)).value, old(tlp.Position()), date,
          Run(written0, saves0, old(missing_user_mappings), old(state_job_id), old(state_log_file), None))
    {
      written, saves := written0, saves0;
      if tlp.Lines(files).Failure? {
        var entry := tlp.GetNextLogEntry(files);
        return written, saves, None;
      }
      ghost var lines := tlp.Lines(files).value;
      ghost var rec := TorqueRecorder(ctx);
      ghost var goal := DayLoop(rec, lines, tlp.Position(), date,
        Run(written0, saves0, missing_user_mappings, state_job_id, state_log_file, None));
      while true
        invariant tlp.Valid() && tlp.Lines(files) == Success(lines) && tlp.Position() <= |lines|
        invariant goal == DayLoop(rec, lines, tlp.Position(), date,
          Run(written, saves, missing_user_mappings, state_job_id, state_log_file, None))
        invariant cfg == old(cfg)
        decreases |lines| - tlp.Position()
      {
        ghost var pos := tlp.Position();
        var entry := tlp.GetNextLogEntry(files);
        if entry.Failure? {
          return written, saves, Some(entry.error);
        }
        if entry.value.None? {
          return written, saves, None;
        }
        var jobId := entry.value.value["jobid"];
        var ur := CreateUsageRecord(ctx, entry.value.value);
        if ur.Failure? {
          return written, saves, Some(ur.error);
        }
        written := written + [ur.value];
        state_job_id := Some(jobId);
        state_log_file := Some(date);
        saves := saves + [CreateGeneratorState()];
      }
    }

    /** One pass of `generateUsageRecords`'s outer loop up to the date
        check: the log is opened, spooled to the job id when there is one,
        and read. `spoolMissing` says that spooling found no log, which
        makes the loop start the day again without a job id. */
    method ReadLog(ctx: Context, files: map<string, seq<string>>, logFile: string, date: string, jobId: Option<string>,
                   written0: seq<UsageRecord>, saves0: seq<string>)
      returns (written: seq<UsageRecord>, saves: seq<string>, error: Option<Exception>, spoolMissing: bool)
      modifies this
      ensures cfg == old(cfg)
      ensures spoolMissing <==> jobId.Some? && logFile !in files
      ensures spoolMissing ==>
        written == written0 && saves == saves0 && missing_user_mappings == old(missing_user_mappings)
        && state_job_id == old(state_job_id) && state_log_file == old(state_log_file)
      ensures !spoolMissing ==>
        Run(written, saves, missing_user_mappings, state_job_id, state_log_file, error) ==
        DayRun(TorqueRecorder(ctx), files, logFile, date, jobId,
          Run(written0, saves0, old(missing_user_mappings), old(state_job_id), old(state_log_file), None))
    {
      var tlp := new TorqueLogParser(logFile);
      if jobId.Some? {
        var sp := tlp.SpoolToEntry(files, jobId.value);
        if sp.Failure? {
          if sp.error == IOError {
            return written0, saves0, None, true;
          }
          return written0, saves0, Some(sp.error), false;
        }
      }
      written, saves, error := ReadDay(ctx, files, tlp, date, written0, saves0);
      spoolMissing := false;
    }

    /** `generateUsageRecords`: the logs are read day by day from the saved
        date up to today, resuming after the saved job id; `now` is the
        clock and `files` the accounting logs. */
    method GenerateUsageRecords(ctx: Context, files: map<string, seq<string>>, now: int)
      returns (written: seq<UsageRecord>, saves: seq<string>, error: Option<Exception>)
      requires state_log_file.Some?
      modifies this
      ensures cfg == old(cfg)
      ensures var today := DateText(now);
        if today.Failure? then
          written == [] && saves == [] && error == Some(today.error) && missing_user_mappings == old(missing_user_mappings)
          && state_job_id == old(state_job_id) && state_log_file == old(state_log_file)
        else
          var run := Drive(TorqueRecorder(ctx), files, AccountingDir(cfg), today.value, old(state_log_file).value, old(state_job_id),
            Run([], [], {}, old(state_job_id), old(state_log_file), None));
          && written == run.written && saves == run.saves && error == run.error && missing_user_mappings == run.missing
          && state_job_id == run.stateJob && state_log_file == run.stateDate
    {
      var dir := AccountingDir(cfg);
      var t := DateText(now);
      if t.Failure? {
        return [], [], Some(t.error);
      }
      var today := t.value;
      var jobId := state_job_id;
      var date := state_log_file.value;
      missing_user_mappings := {};
      written, saves := [], [];
      ghost var rec := TorqueRecorder(ctx);
      ghost var goal := Drive(rec, files, dir, today, date, jobId, Run([], [], {}, state_job_id, state_log_file, None));
      while true
        invariant goal == Drive(rec, files, dir, today, date, jobId,
          Run(written, saves, missing_user_mappings, state_job_id, state_log_file, None))
        invariant cfg == old(cfg)
        decreases DateRank(date), if jobId.Some? then 1 else 0
      {
        var e, spoolMissing;
        written, saves, e, spoolMissing := ReadLog(ctx, files, PathJoin(dir, date), date, jobId, written, saves);
        if spoolMissing {
          jobId := None;
          continue;
        }
        if e.Some? {
          return written, saves, e;
        }
        if date == today {
          return written, saves, None;
        }
        var next := Common.GetIncrementalDate(date, TorqueDateFormat);
        if next.Failure? {
          return written, saves, Some(next.error);
        }
        NextDateRank(date, next.value);
        date := next.value;
        jobId := None;
      }
    }
  }
}
