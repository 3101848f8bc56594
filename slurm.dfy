/** The Slurm backend: `sacct` rows, one job per `|`-separated line, become
    usage records; the resume state is the end of the last queried window. */
module Slurm {
  import opened Wrappers
  import opened Text
  import opened Numerals
  import opened Calendar
  import opened UrElements
  import opened UsageRecords
  import opened Common
  import opened Config

  // ---- node lists ----

  /** `"{:0>{width}}".format(i, width=width)`: the numeral padded on the left
      with `0`, a sign included in the padded text. */
  function PadNumber(i: int, width: nat): string {
    ZeroPad(IntToString(i), width)
  }

  /** `prefix` followed by each number from `a` to `b`, in order. */
  function RangeNames(prefix: string, a: int, b: int, width: nat): (r: seq<string>)
    ensures |r| == if b < a then 0 else b - a + 1
  {
    Range(NodeName(prefix, width), a, b)
  }

  /** The name of node `i`: the prefix and the padded number. */
  function NodeName(prefix: string, width: nat): int -> string {
    i => prefix + PadNumber(i, width)
  }

  /** `f` of each number from `a` to `b`, in order. */
  function Range<T>(f: int -> T, a: int, b: int): (r: seq<T>)
    ensures |r| == if b < a then 0 else b - a + 1
  {
    seq(if b < a then 0 else b - a + 1, k => f(a + k))
  }

  lemma RangeSnoc<T>(f: int -> T, a: int, i: int)
    requires a <= i
    ensures Range(f, a, i) == Range(f, a, i - 1) + [f(i)]
  {
    var front := Range(f, a, i - 1);
    var whole := Range(f, a, i);
    assert |whole| == |front| + 1;
    forall k | 0 <= k < |whole| ensures whole[k] == (front + [f(i)])[k] {
      if k < |front| {
        assert whole[k] == f(a + k) == front[k];
      }
    }
  }

  lemma RangeNamesSnoc(prefix: string, a: int, i: int, width: nat)
    requires a <= i
    ensures RangeNames(prefix, a, i, width) == RangeNames(prefix, a, i - 1, width) + [prefix + PadNumber(i, width)]
  {
    RangeSnoc(NodeName(prefix, width), a, i);
  }

  /** Each name of a range is the prefix and a numeral of at least `width`
      digits for its number. */
  lemma RangeNamesNumbers(prefix: string, a: nat, b: int, width: nat, k: nat)
    requires k < |RangeNames(prefix, a, b, width)|
    ensures var name := RangeNames(prefix, a, b, width)[k];
      && StartsWith(name, prefix)
      && AllDigits(name[|prefix|..]) && DigitsValue(name[|prefix|..]) == a + k
      && |name| - |prefix| >= width
  {
    var name := RangeNames(prefix, a, b, width)[k];
    assert name == NodeName(prefix, width)(a + k) == prefix + ZeroPad(NatToString(a + k), width);
    assert name[|prefix|..] == ZeroPad(NatToString(a + k), width);
    ZeroPadValue(a + k, width);
  }

  /** A text holding the separator splits into at least two pieces. */
  lemma {:induction false} SplitTwo(s: string, c: char)
    requires c in s
    ensures |Split(s, c)| >= 2
    decreases |s|
  {
    if s[..1] != [c] {
      assert s[0] != c by { assert s[..1] == [s[0]]; }
      assert c in s[1..] by {
        var i :| 0 <= i < |s| && s[i] == c;
        assert s[1..][i - 1] == c;
      }
      SplitTwo(s[1..], c);
    } else {
      assert |s[1..]| >= 0;
    }
  }

  /** One comma-separated item of a bracket: `a-b` is the range from `a` to
      `b` padded to the width of the text `a`, anything else one name; both
      bounds go through `int()`, which raises ValueError. */
  function ExpandItem(prefix: string, item: string): (r: Result<seq<string>>)
    ensures r.Failure? ==> r.error == ValueError
    ensures '-' !in RStripChar(item, ']') ==> r == Success([prefix + RStripChar(item, ']')])
  {
    var sequence := RStripChar(item, ']');
    if '-' in sequence then
      SplitTwo(sequence, '-');
      var numbers := Split(sequence, '-');
      var lo := ParseInt(numbers[0]);
      var hi := ParseInt(numbers[1]);
      if lo.None? || hi.None? then Failure(ValueError)
      else Success(RangeNames(prefix, lo.value, hi.value, |numbers[0]|))
    else Success([prefix + sequence])
  }

  /** The items of a bracket, each expanded with `prefix`. */
  function ItemExpander(prefix: string): string -> Result<seq<string>> {
    item => ExpandItem(prefix, item)
  }

  /** One group: with a `[`, the text before it prefixes every item of the
      text after it; without, the group is one name. */
  function ExpandGroup(element: string): (r: Result<seq<string>>)
    ensures r.Failure? ==> r.error == ValueError
    ensures '[' !in element ==> r == Success([element])
  {
    if '[' in element then
      SplitTwo(element, '[');
      var parts := Split(element, '[');
      ConcatMapError(ItemExpander(parts[0]), Split(parts[1], ','), ValueError);
      ConcatMap(ItemExpander(parts[0]), Split(parts[1], ','))
    else Success([element])
  }

  /** The groups of a node list: it is cut only at `],`. */
  function NodeGroups(nodeStr: string): seq<string> {
    if Contains(nodeStr, "],") then SplitOn(nodeStr, "],") else [nodeStr]
  }

  /** `getNodes` as a function of the node list: only a bracket bound that
      `int()` refuses makes it fail, with ValueError. */
  function Nodes(nodeStr: string): (r: Result<seq<string>>)
    ensures r.Failure? ==> r.error == ValueError
  {
    ConcatMapError(ExpandGroup, NodeGroups(nodeStr), ValueError);
    ConcatMap(ExpandGroup, NodeGroups(nodeStr))
  }

  /** `getNodes`: the expansion of every group, one after the other. */
  method GetNodes(nodeStr: string) returns (r: Result<seq<string>>)
    ensures r == Nodes(nodeStr)
  {
    var nodes: seq<string> := [];
    var elements := if Contains(nodeStr, "],") then SplitOn(nodeStr, "],") else [nodeStr];
    for e := 0 to |elements|
      invariant ConcatMap(ExpandGroup, elements[..e]) == Success(nodes)
    {
      var added := ExpandElement(elements[e]);
      if added.Failure? {
        ConcatMapFails(ExpandGroup, elements, e);
        return Failure(added.error);
      }
      ConcatMapSnoc(ExpandGroup, elements, e);
      nodes := nodes + added.value;
    }
    assert elements[..|elements|] == elements;
    return Success(nodes);
  }

  /** The body of the outer loop of `getNodes`: the names one group adds. */
  method ExpandElement(element: string) returns (r: Result<seq<string>>)
    ensures r == ExpandGroup(element)
  {
    if '[' !in element {
      return Success([element]);
    }
    SplitTwo(element, '[');
    var parts := Split(element, '[');
    var sequences := Split(parts[1], ',');
    var expand := ItemExpander(parts[0]);
    var nodes: seq<string> := [];
    for s := 0 to |sequences|
      invariant ConcatMap(expand, sequences[..s]) == Success(nodes)
    {
      var added := ExpandSequence(parts[0], sequences[s]);
      if added.Failure? {
        ConcatMapFails(expand, sequences, s);
        return Failure(added.error);
      }
      ConcatMapSnoc(expand, sequences, s);
      nodes := nodes + added.value;
    }
    assert sequences[..|sequences|] == sequences;
    return Success(nodes);
  }

  /** The body of the innermost loops of `getNodes`: the names one bracket
      item adds. */
  method ExpandSequence(prefix: string, item: string) returns (r: Result<seq<string>>)
    ensures r == ExpandItem(prefix, item)
  {
    var sequence := RStripChar(item, ']');
    if '-' in sequence {
      SplitTwo(sequence, '-');
      var numbers := Split(sequence, '-');
      var numlength := |numbers[0]|;
      var lo := ParseInt(numbers[0]);
      if lo.None? {
        return Failure(ValueError);
      }
      var hi := ParseInt(numbers[1]);
      if hi.None? {
        return Failure(ValueError);
      }
      var names := AppendRange(prefix, lo.value, hi.value, numlength);
      return Success(names);
    }
    return Success([prefix + sequence]);
  }

  /** The loop `for i in range(lo, hi + 1)` of `getNodes`, appending the
      padded name of each number. */
  method AppendRange(prefix: string, lo: int, hi: int, width: nat) returns (names: seq<string>)
    ensures names == RangeNames(prefix, lo, hi, width)
  {
    names := [];
    var i := lo;
    while i < hi + 1
      invariant lo <= i && (i <= hi + 1 || i == lo)
      invariant names == RangeNames(prefix, lo, i - 1, width)
      decreases hi + 1 - i
    {
      RangeNamesSnoc(prefix, lo, i, width);
      names := names + [prefix + PadNumber(i, width)];
      i := i + 1;
    }
  }

  /** A node list without `[` and without `],` is the one node it names. */
  lemma PlainNode(nodeStr: string)
    requires '[' !in nodeStr && !Contains(nodeStr, "],")
    ensures Nodes(nodeStr) == Success([nodeStr])
  {
    var xs := [nodeStr];
    assert NodeGroups(nodeStr) == xs;
    assert xs[..0] == [] && xs[..1] == xs;
    var f := ExpandGroup;
    assert f(xs[0]) == Success([nodeStr]);
    assert ConcatMap(f, xs[..0]) == Success([]);
    ConcatMapSnoc(f, xs, 0);
    assert ConcatMap(f, xs[..0]).value + f(xs[0]).value == [nodeStr];
  }

  /** A range item `a-b` of decimal bounds names every number from `a` to
      `b`, padded to the width of the text `a`. */
  lemma RangeItem(prefix: string, a: string, b: string)
    requires IsDigits(a) && IsDigits(b)
    ensures ExpandItem(prefix, a + "-" + b) == Success(RangeNames(prefix, DigitsValue(a), DigitsValue(b), |a|))
  {
    var item := a + "-" + b;
    assert item[|item| - 1] == b[|b| - 1];
    assert RStripChar(item, ']') == item;
    assert item[|a|] == '-';
    assert '-' !in a by {
      forall i | 0 <= i < |a| ensures a[i] != '-' {
        assert IsDigit(a[i]);
      }
    }
    SplitAppendSep(a, '-', b);
    assert item == a + ['-'] + b;
    assert '-' !in b by {
      forall i | 0 <= i < |b| ensures b[i] != '-' {
        assert IsDigit(b[i]);
      }
    }
    SplitOfSepFree(b, '-');
    assert Split(item, '-') == [a, b];
    ParseIntDigits(a);
    ParseIntDigits(b);
    assert '-' in RStripChar(item, ']');
  }

  /** An item without `-` names the prefix and the item, less trailing `]`s. */
  lemma SingleItem(prefix: string, item: string)
    requires '-' !in item
    ensures ExpandItem(prefix, item) == Success([prefix + RStripChar(item, ']')])
  {
    var r := RStripChar(item, ']');
    assert '-' !in r by {
      forall i | 0 <= i < |r| ensures r[i] != '-' {
        assert r[i] == item[i];
      }
    }
  }

  /** A group `prefix[items` names the expansion of each comma-separated item
      with that prefix, one after the other. */
  lemma BracketGroup(prefix: string, items: string)
    requires '[' !in prefix && '[' !in items
    ensures ExpandGroup(prefix + "[" + items) == ConcatMap(ItemExpander(prefix), Split(items, ','))
  {
    var element := prefix + "[" + items;
    assert element[|prefix|] == '[';
    assert element == prefix + ['['] + items;
    SplitAppendSep(prefix, '[', items);
    SplitOfSepFree(items, '[');
  }

  // ---- configuration ----

  const Section := "slurm"
  const StateFileOption := "statefile"
  const DefaultStateFile := Section + ".state"
  const StateFileDefaultOption := "statefile_default"
  /** The default look-back, in seconds, when there is no state. */
  const DefaultStateFileDefault := "50000"
  const IdTimestampOption := "idtimestamp"
  const DefaultIdTimestamp := "true"
  const MaxDaysOption := "max_days"
  const DefaultMaxDays := "7"

  /** `CONFIG`. As written each type is stored under the builtin `type`, not
      under the string `'type'` that `validate` looks up, so no option has a
      type `validate` can see; the intended dictionary has them. */
  function Declared(mode: Mode): Declared {
    var intType := if mode == AsWritten then None else Some("int");
    var boolType := if mode == AsWritten then None else Some("bool");
    map[StateFileOption := Item(false, None),
        StateFileDefaultOption := Item(false, intType),
        IdTimestampOption := Item(false, boolType),
        MaxDaysOption := Item(false, intType)]
  }

  /** As written no declared option has a type, so `validate` only checks
      that the section exists and declares every option it holds. */
  lemma DeclaredUntyped(cfg: Ini)
    ensures ValidSection(cfg, Section, Declared(AsWritten)) ==
      if Section !in cfg then Failure(NoSectionError)
      else Success(forall option :: option in cfg[Section] ==> option in Declared(AsWritten))
  {
    forall key | key in Declared(AsWritten) ensures OptionOk(cfg, Section, key, Declared(AsWritten)[key]) {
    }
  }

  /** A `max_days` that is no integer passes `validate` as written and is
      refused as intended. */
  lemma MaxDaysTypeIgnored(v: string)
    requires ParseInt(v).None?
    ensures var cfg := map[Section := map[MaxDaysOption := v]];
      ValidSection(cfg, Section, Declared(AsWritten)) == Success(true)
      && ValidSection(cfg, Section, Declared(Intended)) == Success(false)
  {
    var cfg := map[Section := map[MaxDaysOption := v]];
    DeclaredUntyped(cfg);
    assert !OptionOk(cfg, Section, MaxDaysOption, Declared(Intended)[MaxDaysOption]);
  }

  // ---- sacct output ----

  /** `COMMAND`'s output as `SlurmBackend` keeps it: stripped, split into
      lines, the header line dropped. */
  function ResultLines(output: string): seq<string> {
    Split(Strip(output), '\n')[1..]
  }

  /** The fields `getNextLogEntry` returns for a line. As written the line's
      last character is cut off first (`entry[:-1]`): that removes the
      newline of a line `readlines` yields, but the lines of the `subprocess`
      path have none, so it removes the last character of the node list. The
      intended reading splits the line as it is. */
  function EntryFields(mode: Mode, line: string): seq<string> {
    if mode == AsWritten then Split(line[..if |line| == 0 then 0 else |line| - 1], '|')
    else Split(line, '|')
  }

  /** As intended, the fields joined with `|` give back the line. */
  lemma EntryFieldsJoin(line: string)
    ensures Join(EntryFields(Intended, line), "|") == line
  {
    JoinSplitOn(line, "|");
  }

  /** As written, the last field of a row loses its last character: a node
      list `brother13` is read as `brother1`. */
  lemma LastFieldCut(first: string, last: string, c: char)
    requires '|' !in first && '|' !in last && c != '|'
    ensures EntryFields(AsWritten, first + "|" + last + [c]) == [first, last]
    ensures EntryFields(Intended, first + "|" + last + [c]) == [first, last + [c]]
  {
    var line := first + "|" + last + [c];
    assert line[..|line| - 1] == first + ['|'] + last;
    assert line == first + ['|'] + (last + [c]);
    SplitAppendSep(first, '|', last);
    SplitOfSepFree(last, '|');
    SplitAppendSep(first, '|', last + [c]);
    assert '|' !in last + [c];
    SplitOfSepFree(last + [c], '|');
  }

  /** The `datetime.isoformat()` text of a time with whole seconds (the
      fraction `split('.')` would cut is not there). */
  function Isoformat(tm: Tm): string
    requires ValidTm(tm) && tm.second <= 59
  {
    ZeroPad(NatToString(tm.year), 4) + "-" + Pad2(tm.month) + "-" + Pad2(tm.day) + "T"
      + Pad2(tm.hour) + ":" + Pad2(tm.minute) + ":" + Pad2(tm.second)
  }

  /** `SlurmBackend`: the end of the queried window and the rows still to be read. */
  class SlurmBackend {
    var end_str: string
    var results: seq<string>

    /** The window end is computed by `QueryEnd`; `output` is what `sacct`
        printed for the window. */
    constructor (endStr: string, output: string)
      ensures end_str == endStr && results == ResultLines(output)
    {
      end_str := endStr;
      results := ResultLines(output);
    }

    /** `getNextLogEntry`: the fields of the first remaining row, which is
        removed; None when no row remains. */
    method GetNextLogEntry(mode: Mode) returns (entry: Option<seq<string>>)
      modifies this
      ensures old(results) == [] ==> entry.None? && results == []
      ensures old(results) != [] ==>
        entry == Some(EntryFields(mode, old(results)[0])) && results == old(results)[1..]
      ensures end_str == old(end_str)
    {
      if results == [] {
        return None;
      }
      var line := results[0];
      results := results[1..];
      return Some(EntryFields(mode, line));
    }
  }

  /** The end of the window `SlurmBackend` queries, from the resume state:
      now, unless `max_days` is positive and more than that many days have
      passed since the state, in which case the state plus `max_days` days.
      `int()` of the setting raises ValueError, the state is read as an ISO
      timestamp, a `timedelta` beyond 999999999 days and a date past year
      9999 raise OverflowError. */
  function QueryEnd(stateStart: string, maxDays: string, now: Tm, nowMicro: nat): (r: Result<Tm>)
    requires ValidTm(now) && now.second <= 59 && nowMicro < 1000000
    ensures r.Success? ==> ValidTm(r.value) && r.value.second <= 59
  {
    match ParseInt(maxDays)
    case None => Failure(ValueError)
    case Some(days) =>
      if days <= 0 then Success(now)
      else
        var start :- DatetimeFromIsoStr(stateStart);
        CappedEnd(start, days, now, nowMicro)
  }

  /** The window end for a positive `max_days`: now, or the state plus
      `max_days` days when more than that has passed. The window never
      ends after now and spans at most `days` days. */
  function CappedEnd(start: Tm, days: int, now: Tm, nowMicro: nat): (r: Result<Tm>)
    requires ValidTm(now) && now.second <= 59 && nowMicro < 1000000
    requires ValidTm(start) && days > 0
    ensures r.Success? ==> ValidTm(r.value) && r.value.second <= 59
    ensures r.Success? ==> TimeGm(r.value) <= TimeGm(now) && TimeGm(r.value) - TimeGm(start) <= days * 86400
    ensures r.Failure? ==> r.error == OverflowError
    ensures days <= 999999999 && (TimeGm(now) - TimeGm(start)) * 1000000 + nowMicro <= days * 86400 * 1000000 ==>
      r == Success(now)
    ensures r.Success? && (TimeGm(now) - TimeGm(start)) * 1000000 + nowMicro > days * 86400 * 1000000 ==>
      TimeGm(r.value) == TimeGm(start) + days * 86400
  {
    if days > 999999999 then Failure(OverflowError)
    else if (TimeGm(now) - TimeGm(start)) * 1000000 + nowMicro <= days * 86400 * 1000000 then
      Success(now)
    else
      var t := TimeGm(start) + days * 86400;
      match GmTime(t)
      case None => Failure(OverflowError)
      case Some(end) =>
        GmTimeInverse(t);
        Success(end)
  }

  /** The window never ends after now, and with a positive `max_days` spans
      at most that many days from the state. */
  lemma QueryEndBounds(stateStart: string, maxDays: string, now: Tm, nowMicro: nat)
    requires ValidTm(now) && now.second <= 59 && nowMicro < 1000000
    requires QueryEnd(stateStart, maxDays, now, nowMicro).Success?
    ensures var end := QueryEnd(stateStart, maxDays, now, nowMicro).value;
      && TimeGm(end) <= TimeGm(now)
      && (ParseInt(maxDays).value > 0 ==>
            DatetimeFromIsoStr(stateStart).Success?
            && TimeGm(end) - TimeGm(DatetimeFromIsoStr(stateStart).value) <= ParseInt(maxDays).value * 86400)
  {
  }

  /** Without a positive `max_days` the window ends now. */
  lemma QueryEndUncapped(stateStart: string, maxDays: string, now: Tm, nowMicro: nat)
    requires ValidTm(now) && now.second <= 59 && nowMicro < 1000000
    requires ParseInt(maxDays).Some? && ParseInt(maxDays).value <= 0
    ensures QueryEnd(stateStart, maxDays, now, nowMicro) == Success(now)
  {
  }

  // ---- one usage record ----

  /** What a record depends on outside the row: the password database the
      UID is looked up in, and `time.mktime`, which reads local time in the
      host's time zone. */
  datatype Host = Host(passwd: map<int, string>, mktime: Tm -> int)

  /** `log_entry[i]`: IndexError past the end. */
  function Field(entry: seq<string>, i: nat): Result<string> {
    if i < |entry| then Success(entry[i]) else Failure(IndexError)
  }

  /** A time field: `mktime` of `datetimeFromIsoStr`. */
  function TimeField(host: Host, entry: seq<string>, i: nat): Result<int> {
    var text :- Field(entry, i);
    var tm :- DatetimeFromIsoStr(text);
    Success(host.mktime(tm))
  }

  /** The record identifier's timestamp: `-`, `:`, `T` and `Z` removed. */
  function CompactTime(iso: string): string {
    RemoveChar(RemoveChar(RemoveChar(RemoveChar(iso, '-'), ':'), 'T'), 'Z')
  }

  /** Of a time `epoch2isoTime` writes, only the digits remain. */
  lemma CompactTimeDigits(t: int)
    requires Epoch2IsoTime(t).Success?
    ensures forall c :: c in CompactTime(Epoch2IsoTime(t).value) ==> IsDigit(c)
  {
    var tm := GmTime(t).value;
    FormatItemsChars(IsoFormat, tm);
    var iso := Epoch2IsoTime(t).value;
    assert forall c :: c in iso ==> IsDigit(c) || c in "-T:Z" by {
      forall c | c in iso ensures IsDigit(c) || c in "-T:Z" {
        if c in FormatItems(IsoFormat, tm) {
          assert IsDigit(c) || Lit(c) in IsoFormat;
        }
      }
    }
  }

  /** The fields of a row a record is made from, as lines 147-166 derive them. */
  datatype Job = Job(
    jobId: string, userName: string, queue: string,
    submitTime: int, startTime: int, endTime: int,
    accountName: string, utilizedCpu: int, wallTime: int,
    coreCount: string, hosts: seq<string>,
    fqdnJobId: string, recordId: string)

  /** `createUsageRecord` up to the user-map check: None for a row without
      a UID or partition; the field accesses, `int()`, the password lookup
      (KeyError), the time parses and the node list raise in source order. */
  function JobOf(host: Host, entry: seq<string>, hostname: string, idtimestamp: bool): (r: Result<Option<Job>>)
    ensures r == Success(None) <==>
      2 <= |entry| && (entry[1] == "" || (3 <= |entry| && entry[2] == ""))
  {
    var uidText :- Field(entry, 1);
    if uidText == "" then Success(None)
    else
      var queue :- Field(entry, 2);
      if queue == "" then Success(None)
      else
        var uid := ParseInt(uidText);
        if uid.None? then Failure(ValueError)
        else if uid.value !in host.passwd then Failure(KeyError)
        else
          var job :- JobAfterUser(host, entry, hostname, idtimestamp, host.passwd[uid.value], queue);
          Success(Some(job))
  }

  /** The rest of `createUsageRecord` once the row's user and partition are read. */
  function JobAfterUser(host: Host, entry: seq<string>, hostname: string, idtimestamp: bool,
                        user: string, queue: string): Result<Job>
    requires |entry| >= 3
  {
    var submit :- TimeField(host, entry, 3);
    var start :- TimeField(host, entry, 4);
    var end :- TimeField(host, entry, 5);
    JobAfterTimes(entry, hostname, idtimestamp, user, queue, submit, start, end)
  }

  /** The fields after the three times: account, durations, cores, nodes, record id. */
  function JobAfterTimes(entry: seq<string>, hostname: string, idtimestamp: bool,
                         user: string, queue: string, submit: int, start: int, end: int): Result<Job>
    requires |entry| >= 1
  {
    var jobId := entry[0];
    var account :- Field(entry, 6);
    var cpuText :- Field(entry, 8);
    var cpu :- GetSeconds(cpuText);
    var wallText :- Field(entry, 7);
    var wall :- GetSeconds(wallText);
    var cores :- Field(entry, 9);
    var nodeText :- Field(entry, 10);
    var hosts :- Nodes(nodeText);
    var fqdn := hostname + ":" + jobId;
    var recordId :- RecordId(fqdn, start, idtimestamp);
    Success(Job(jobId, user, queue, submit, start, end, account, cpu, wall, cores, hosts, fqdn, recordId))
  }

  /** `record_id`: the qualified job id, with `:` and the compact start time
      when `idtimestamp` is set. */
  function RecordId(fqdn: string, start: int, idtimestamp: bool): (r: Result<string>)
    ensures !idtimestamp ==> r == Success(fqdn)
    ensures idtimestamp && r.Success? ==>
      Epoch2IsoTime(start).Success? && r.value == fqdn + ":" + CompactTime(Epoch2IsoTime(start).value)
    ensures idtimestamp ==> (r.Success? <==> Epoch2IsoTime(start).Success?)
  {
    if idtimestamp then
      var iso :- Epoch2IsoTime(start);
      Success(fqdn + ":" + CompactTime(iso))
    else Success(fqdn)
  }

  /** The VO block for a project the project map knows. The type is set on
      `type`, which the encoder does not read. */
  function ProjectVo(projects: map<string, Option<string>>, account: string): (vs: seq<VOInformation>)
    ensures |vs| <= 1
    ensures |vs| == 1 <==> MapGet(projects, account).Some?
    ensures |vs| == 1 ==>
      (vs[0].name == MapGet(projects, account) && vs[0].type_.None? && vs[0].legacyType == Some("lrmsurgen-projectmap"))
  {
    var mapped := MapGet(projects, account);
    if mapped.Some? then
      [NewVOInformation(None, None, None).(name := mapped, legacyType := Some("lrmsurgen-projectmap"))]
    else []
  }

  /** `createUsageRecord` from line 171 on: the record of a job; the three
      time texts go through `epoch2isoTime`. The user and project maps are
      the contents of the two `BartMapFile`s. */
  function JobRecord(job: Job, hostname: string, users: map<string, Option<string>>, projects: map<string, Option<string>>): (r: Result<UsageRecord>)
  {
    var vo := ProjectVo(projects, job.accountName);
    var submit :- Epoch2IsoTime(job.submitTime);
    var start :- Epoch2IsoTime(job.startTime);
    var end :- Epoch2IsoTime(job.endTime);
    Success(NewUsageRecord().(
      record_id := Some(job.recordId),
      local_job_id := Some(job.jobId),
      global_job_id := Some(job.fqdnJobId),
      local_user_id := Some(job.userName),
      global_user_name := MapGet(users, job.userName),
      machine_name := Some(hostname),
      queue := Some(job.queue),
      processors := Some(Str(job.coreCount)),
      node_count := Some(Int(|job.hosts|)),
      host := Some(Join(job.hosts, ",")),
      submit_time := Some(submit),
      start_time := Some(start),
      end_time := Some(end),
      cpu_duration := Some(job.utilizedCpu as real),
      wall_duration := Some(job.wallTime as real),
      project_name := Some(job.accountName),
      vo_info := vo))
  }

  /** A row that yields a job has its fields where the `sacct` format puts them. */
  lemma JobFields(host: Host, entry: seq<string>, hostname: string, idtimestamp: bool)
    requires JobOf(host, entry, hostname, idtimestamp).Success?
    requires JobOf(host, entry, hostname, idtimestamp).value.Some?
    ensures |entry| >= 11
    ensures var job := JobOf(host, entry, hostname, idtimestamp).value.value;
      && job.jobId == entry[0] && job.queue == entry[2] && job.accountName == entry[6]
      && job.coreCount == entry[9] && ParseInt(entry[1]).Some?
      && ParseInt(entry[1]).value in host.passwd
      && job.userName == host.passwd[ParseInt(entry[1]).value]
      && Success(job.hosts) == Nodes(entry[10])
      && Success(job.wallTime) == GetSeconds(entry[7])
      && Success(job.utilizedCpu) == GetSeconds(entry[8])
      && job.fqdnJobId == hostname + ":" + entry[0]
      && Success(job.recordId) == RecordId(hostname + ":" + entry[0], job.startTime, idtimestamp)
  {
    var e := ParseInt(entry[1]);
    assert JobOf(host, entry, hostname, idtimestamp)
        == Success(Some(JobAfterUser(host, entry, hostname, idtimestamp, host.passwd[e.value], entry[2]).value));
    JobAfterUserFields(host, entry, hostname, idtimestamp, host.passwd[e.value], entry[2]);
  }

  /** The fields the job takes from the row once its user is known. */
  lemma JobAfterUserFields(host: Host, entry: seq<string>, hostname: string, idtimestamp: bool, user: string, queue: string)
    requires |entry| >= 3 && JobAfterUser(host, entry, hostname, idtimestamp, user, queue).Success?
    ensures |entry| >= 11
    ensures var job := JobAfterUser(host, entry, hostname, idtimestamp, user, queue).value;
      && job.jobId == entry[0] && job.queue == queue && job.accountName == entry[6]
      && job.coreCount == entry[9] && job.userName == user
      && Success(job.hosts) == Nodes(entry[10])
      && Success(job.wallTime) == GetSeconds(entry[7])
      && Success(job.utilizedCpu) == GetSeconds(entry[8])
      && job.fqdnJobId == hostname + ":" + entry[0]
      && Success(job.recordId) == RecordId(hostname + ":" + entry[0], job.startTime, idtimestamp)
  {
    var submit := TimeField(host, entry, 3).value;
    var start := TimeField(host, entry, 4).value;
    var end := TimeField(host, entry, 5).value;
    JobAfterTimesFields(entry, hostname, idtimestamp, user, queue, submit, start, end);
  }

  lemma JobAfterTimesFields(entry: seq<string>, hostname: string, idtimestamp: bool,
                            user: string, queue: string, submit: int, start: int, end: int)
    requires |entry| >= 1 && JobAfterTimes(entry, hostname, idtimestamp, user, queue, submit, start, end).Success?
    ensures |entry| >= 11
    ensures var job := JobAfterTimes(entry, hostname, idtimestamp, user, queue, submit, start, end).value;
      && job.startTime == start
      && job.jobId == entry[0] && job.queue == queue && job.accountName == entry[6]
      && job.coreCount == entry[9] && job.userName == user
      && Success(job.hosts) == Nodes(entry[10])
      && Success(job.wallTime) == GetSeconds(entry[7])
      && Success(job.utilizedCpu) == GetSeconds(entry[8])
      && job.fqdnJobId == hostname + ":" + entry[0]
      && Success(job.recordId) == RecordId(hostname + ":" + entry[0], job.startTime, idtimestamp)
  {
  }

  /** The record of a job: node count and host list from the expanded node
      list, processors as `sacct` wrote it, the global user name from the
      user map. */
  lemma JobRecordFields(job: Job, hostname: string, users: map<string, Option<string>>, projects: map<string, Option<string>>)
    requires JobRecord(job, hostname, users, projects).Success?
    ensures var ur := JobRecord(job, hostname, users, projects).value;
      && ur.record_id == Some(job.recordId) && ur.global_job_id == Some(job.fqdnJobId)
      && ur.node_count == Some(Int(|job.hosts|)) && ur.host == Some(Join(job.hosts, ","))
      && ur.processors == Some(Str(job.coreCount))
      && ur.global_user_name == MapGet(users, job.userName)
      && ur.wall_duration == Some(job.wallTime as real) && ur.cpu_duration == Some(job.utilizedCpu as real)
      && ur.vo_info == ProjectVo(projects, job.accountName)
      && ur.start_time == Some(Epoch2IsoTime(job.startTime).value)
  {
  }

  /** The VO block a backend sets up is written without a `type` attribute. */
  lemma ProjectVoUntyped(projects: map<string, Option<string>>, account: string)
    requires MapGet(projects, account).Some?
    ensures VoType !in VoElement(ProjectVo(projects, account)[0]).attrs
  {
  }

  // ---- the generator ----

  /** What the records of a run depend on besides the rows: how the rows are
      read, the host, the machine name, the `idtimestamp` setting and the
      contents of the user and project maps. */
  datatype Context = Context(
    mode: Mode, host: Host, hostname: string, idtimestamp: bool,
    users: map<string, Option<string>>, projects: map<string, Option<string>>)

  /** `createUsageRecord`'s result for a row. */
  function RecordOf(ctx: Context, entry: seq<string>): Result<Option<UsageRecord>> {
    var job :- JobOf(ctx.host, entry, ctx.hostname, ctx.idtimestamp);
    if job.None? then Success(None)
    else
      var ur :- JobRecord(job.value, ctx.hostname, ctx.users, ctx.projects);
      Success(Some(ur))
  }

  /** The user `createUsageRecord` adds to `missing_user_mappings`: the
      row's user, once the row has been read, when the user map has no entry
      for it. */
  function UnmappedUser(ctx: Context, entry: seq<string>): (u: set<string>)
    ensures |u| <= 1
  {
    match JobOf(ctx.host, entry, ctx.hostname, ctx.idtimestamp)
    case Success(Some(job)) => if job.userName in ctx.users then {} else {job.userName}
    case _ => {}
  }

  /** The row's user is noted exactly when the row reads as a job and the
      user map has no key for the user its uid names; nothing else is noted. */
  lemma UnmappedUserOf(ctx: Context, entry: seq<string>)
    ensures var u := UnmappedUser(ctx, entry);
      var r := JobOf(ctx.host, entry, ctx.hostname, ctx.idtimestamp);
      && (u != {} <==> r.Success? && r.value.Some? && r.value.value.userName !in ctx.users)
      && (u != {} ==>
            |entry| >= 2 && ParseInt(entry[1]).Some? && ParseInt(entry[1]).value in ctx.host.passwd
            && u == {ctx.host.passwd[ParseInt(entry[1]).value]})
  {
    var r := JobOf(ctx.host, entry, ctx.hostname, ctx.idtimestamp);
    if r.Success? && r.value.Some? {
      JobFields(ctx.host, entry, ctx.hostname, ctx.idtimestamp);
    }
  }

  /** The records written, the users without a mapping, and the exception
      that ended the loop, if one did. */
  datatype Run = Run(written: seq<UsageRecord>, missing: set<string>, error: Option<Exception>)

  /** The loop of `generateUsageRecords` over the rows `sacct` printed, as
      a function: each row's record is written in turn, rows without one are
      skipped, and the first exception ends it. */
  function RunRows(ctx: Context, lines: seq<string>): Run
    decreases |lines|
  {
    if |lines| == 0 then Run([], {}, None)
    else RunStep(ctx, RunRows(ctx, lines[..|lines| - 1]), lines[|lines| - 1])
  }

  /** One row of the loop. */
  function RunStep(ctx: Context, run: Run, line: string): Run {
    if run.error.Some? then run
    else
      var entry := EntryFields(ctx.mode, line);
      var missing := run.missing + UnmappedUser(ctx, entry);
      match RecordOf(ctx, entry)
      case Failure(e) => Run(run.written, missing, Some(e))
      case Success(None) => Run(run.written, missing, None)
      case Success(Some(ur)) => Run(run.written + [ur], missing, None)
  }

  lemma RunRowsSnoc(ctx: Context, lines: seq<string>, i: nat)
    requires i < |lines|
    ensures RunRows(ctx, lines[..i + 1]) == RunStep(ctx, RunRows(ctx, lines[..i]), lines[i])
  {
    assert lines[..i + 1][..i] == lines[..i];
  }

  /** Once an exception has ended the loop, later rows change nothing. */
  lemma {:induction false} RunRowsStops(ctx: Context, lines: seq<string>, i: nat)
    requires i <= |lines| && RunRows(ctx, lines[..i]).error.Some?
    ensures RunRows(ctx, lines) == RunRows(ctx, lines[..i])
    decreases |lines|
  {
    if i < |lines| {
      assert lines[..|lines| - 1][..i] == lines[..i];
      RunRowsStops(ctx, lines[..|lines| - 1], i);
    } else {
      assert lines[..i] == lines;
    }
  }

  /** The records of one row: none, or the one it yields. */
  function RowRecords(ctx: Context, line: string): Result<seq<UsageRecord>> {
    var r :- RecordOf(ctx, EntryFields(ctx.mode, line));
    if r.Some? then Success([r.value]) else Success([])
  }

  function RowRecorder(ctx: Context): string -> Result<seq<UsageRecord>> {
    line => RowRecords(ctx, line)
  }

  /** The loop ends without an exception exactly when every row's record can
      be made, and then it writes the records of the rows in order. */
  lemma {:induction false} RunRowsWritten(ctx: Context, lines: seq<string>)
    ensures RunRows(ctx, lines).error.None? <==> ConcatMap(RowRecorder(ctx), lines).Success?
    ensures RunRows(ctx, lines).error.None? ==> RunRows(ctx, lines).written == ConcatMap(RowRecorder(ctx), lines).value
    ensures RunRows(ctx, lines).error.Some? ==> Failure(RunRows(ctx, lines).error.value) == ConcatMap(RowRecorder(ctx), lines)
    decreases |lines|
  {
    if |lines| > 0 {
      RunRowsWritten(ctx, lines[..|lines| - 1]);
    }
  }

  /** The `Slurm` generator. */
  class SlurmGenerator {
    var cfg: Ini
    var state: Option<string>
    var idtimestamp: bool
    var missing_user_mappings: set<string>

    /** `__init__`: `idtimestamp` is read as a boolean, `true` by default. */
    constructor (mode: Mode, cfg: Ini)
      requires GetConfigValueBool(mode, cfg, Section, IdTimestampOption, Some(DefaultIdTimestamp)).Success?
      ensures this.cfg == cfg && state.None? && missing_user_mappings == {}
      ensures idtimestamp == GetConfigValueBool(mode, cfg, Section, IdTimestampOption, Some(DefaultIdTimestamp)).value
    {
      this.cfg := cfg;
      state := None;
      missing_user_mappings := {};
      idtimestamp := GetConfigValueBool(mode, cfg, Section, IdTimestampOption, Some(DefaultIdTimestamp)).value;
    }

    /** `createUsageRecord`: the record of a row, noting its user when the
        user map has no entry for it. */
    method CreateUsageRecord(ctx: Context, entry: seq<string>) returns (r: Result<Option<UsageRecord>>)
      modifies this
      ensures r == RecordOf(ctx, entry)
      ensures missing_user_mappings == old(missing_user_mappings) + UnmappedUser(ctx, entry)
      ensures cfg == old(cfg) && state == old(state) && idtimestamp == old(idtimestamp)
    {
      var job := JobOf(ctx.host, entry, ctx.hostname, ctx.idtimestamp);
      if job.Failure? {
        return Failure(job.error);
      }
      if job.value.None? {
        return Success(None);
      }
      if job.value.value.userName !in ctx.users {
        missing_user_mappings := missing_user_mappings + {job.value.value.userName};
      }
      var ur := JobRecord(job.value.value, ctx.hostname, ctx.users, ctx.projects);
      if ur.Failure? {
        return Failure(ur.error);
      }
      return Success(Some(ur.value));
    }

    /** `generateUsageRecords`: the rows of the window from the state to
        `QueryEnd` are turned into records, which are written; the state
        moves to the window's end only when a record was written and the
        loop ran to its end. `sacct` stands for the command's output for a
        window. */
    method GenerateUsageRecords(ctx: Context, now: Tm, nowMicro: nat, sacct: (string, string) -> string)
      returns (written: seq<UsageRecord>, error: Option<Exception>)
      requires state.Some? && ValidTm(now) && now.second <= 59 && nowMicro < 1000000
      requires ctx.idtimestamp == idtimestamp
      modifies this
      ensures cfg == old(cfg) && idtimestamp == old(idtimestamp)
      ensures var end := QueryEnd(old(state).value, GetConfigValue(cfg, Section, MaxDaysOption, Some(DefaultMaxDays)).value, now, nowMicro);
        if end.Failure? then
          written == [] && error == Some(end.error) && missing_user_mappings == {} && state == old(state)
        else
          var endStr := Isoformat(end.value);
          var run := RunRows(ctx, ResultLines(sacct(old(state).value, endStr)));
          && written == run.written && error == run.error && missing_user_mappings == run.missing
          && state == if error.None? && |written| > 0 then Some(endStr) else old(state)
    {
      missing_user_mappings := {};
      var maxDays := GetConfigValue(cfg, Section, MaxDaysOption, Some(DefaultMaxDays)).value;
      var end := QueryEnd(state.value, maxDays, now, nowMicro);
      if end.Failure? {
        return [], Some(end.error);
      }
      var endStr := Isoformat(end.value);
      var tlp := new SlurmBackend(endStr, sacct(state.value, endStr));
      var count;
      written, count, error := WriteRecords(ctx, tlp);
      if error.Some? {
        return;
      }
      if count > 0 {
        state := Some(tlp.end_str);
      }
    }

    /** The loop of `generateUsageRecords`: rows are read from `tlp` until
        none is left, and each row's record is written and counted. */
    method WriteRecords(ctx: Context, tlp: SlurmBackend) returns (written: seq<UsageRecord>, count: nat, error: Option<Exception>)
      requires missing_user_mappings == {} && ctx.idtimestamp == idtimestamp
      modifies this, tlp
      ensures Run(written, missing_user_mappings, error) == RunRows(ctx, old(tlp.results))
      ensures count == |written| && tlp.end_str == old(tlp.end_str)
      ensures cfg == old(cfg) && idtimestamp == old(idtimestamp) && state == old(state)
    {
      ghost var lines := tlp.results;
      count := 0;
      written := [];
      ghost var i := 0;
      while true
        invariant 0 <= i <= |lines| && tlp.results == lines[i..] && tlp.end_str == old(tlp.end_str)
        invariant RunRows(ctx, lines[..i]) == Run(written, missing_user_mappings, None)
        invariant count == |written|
        invariant cfg == old(cfg) && idtimestamp == old(idtimestamp) && state == old(state)
        decreases |tlp.results|
      {
        ghost var before := tlp.results;
        var entry := tlp.GetNextLogEntry(ctx.mode);
        if entry.None? {
          assert i == |lines|;
          break;
        }
        assert before[0] == lines[i] && tlp.results == lines[i + 1..];
        assert entry.value == EntryFields(ctx.mode, lines[i]);
        RunRowsSnoc(ctx, lines, i);
        var ur := CreateUsageRecord(ctx, entry.value);
        i := i + 1;
        if ur.Failure? {
          RunRowsStops(ctx, lines, i);
          return written, count, Some(ur.error);
        }
        if ur.value.Some? {
          written := written + [ur.value.value];
          count := count + 1;
        }
      }
      assert lines[..i] == lines;
      return written, count, None;
    }

    /** `parseGeneratorState`: a non-empty state is kept as given. */
    method ParseGeneratorState(stateIn: Option<string>, now: Tm) returns (r: Result<()>)
      requires ValidTm(now) && now.second <= 59
      modifies this
      ensures r.Success? <==> StartState(cfg, stateIn, now).Success?
      ensures r.Failure? ==> r.error == StartState(cfg, stateIn, now).error
      ensures r.Success? ==> state == Some(StartState(cfg, stateIn, now).value)
      ensures r.Failure? ==> state == old(state)
      ensures cfg == old(cfg) && idtimestamp == old(idtimestamp) && missing_user_mappings == old(missing_user_mappings)
    {
      var s := StartState(cfg, stateIn, now);
      if s.Failure? {
        return Failure(s.error);
      }
      state := Some(s.value);
      return Success(());
    }

    /** `createGeneratorState`: the generator's state, when not empty, is
        what the next `parseGeneratorState` starts from, at any clock reading. */
    function CreateGeneratorState(): (r: Option<string>)
      reads this
      ensures state.Some? && |state.value| > 0 ==>
        forall now :: ValidTm(now) && now.second <= 59 ==> StartState(cfg, r, now) == Success(state.value)
      ensures r.Some? && |r.value| > 0 ==>
        forall now :: ValidTm(now) && now.second <= 59 ==> StartState(cfg, r, now) == Success(r.value)
    {
      state
    }
  }

  /** The state `parseGeneratorState` keeps: the given one when it is not
      empty, else the time `statefile_default` seconds (50000 by default)
      before now. `int()` of the setting raises ValueError and a time before
      year 1 OverflowError. */
  function StartState(cfg: Ini, state: Option<string>, now: Tm): (r: Result<string>)
    requires ValidTm(now) && now.second <= 59
    ensures state.Some? && |state.value| > 0 ==> r == Success(state.value)
  {
    if state.Some? && |state.value| > 0 then Success(state.value)
    else
      match ParseInt(GetConfigValue(cfg, Section, StateFileDefaultOption, Some(DefaultStateFileDefault)).value)
      case None => Failure(ValueError)
      case Some(seconds) =>
        match GmTime(TimeGm(now) - seconds)
        case None => Failure(OverflowError)
        case Some(tm) => Success(Isoformat(tm))
  }
}
