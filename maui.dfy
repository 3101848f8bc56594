/** The Maui backend: the daily workload trace files under the `stats`
    directory of the Maui spool directory are read from the saved position
    onwards; each `Completed` job line of 44 fields becomes a usage record,
    and the position is saved after each one. Where the source slips (an
    undefined name, an attribute records do not have), the writing loop
    and the state parser are modelled both as written and as evidently
    intended, chosen by a `Mode`. */
module Maui {
  import opened Wrappers
  import opened Text
  import opened Numerals
  import opened UsageRecords
  import opened Config
  import Common
  import Torque

  const Section := "maui"
  const StateFileOption := "statefile"
  const DefaultStateFile := Section + ".state"
  const SpoolDirOption := "spooldir"
  const DefaultSpoolDir := "/var/spool/maui"
  const StatsDir := "stats"
  const MauiCfgFile := "maui.cfg"
  const ServerHostKey := "SERVERHOST"

  /** `CONFIG`: both options are optional and carry no type. */
  const ConfigItems: Declared := map[StateFileOption := Item(false, None), SpoolDirOption := Item(false, None)]

  /** `MAUI_DATE_FORMAT`. Days are named with the numeric day format of the
      Torque backend, so the date arithmetic is shared with it. */
  const MauiDateFormat := Torque.TorqueDateFormat

  /** A log entry: the fields of a workload trace line. */
  type Entry = seq<string>

  // ---- splitLineEntry ----

  /** The pieces of a `' '`-split that were not empty, each stripped. The
      test comes before `strip`, so a piece made of whitespace only (the
      newline after a final space) becomes an empty field. */
  function Words(pieces: seq<string>): (r: seq<string>)
    ensures |r| <= |pieces|
  {
    FlatMapAtMostOne(PieceField, pieces);
    FlatMap(PieceField, pieces)
  }

  /** The field one piece gives: none for an empty piece, else the piece stripped. */
  function PieceField(piece: string): (r: seq<string>)
    ensures |r| <= 1
  {
    if piece == "" then [] else [Strip(piece)]
  }

  /** `splitLineEntry` */
  function SplitLineEntry(line: string): (r: Entry)
    ensures |r| <= |Split(line, ' ')|
    ensures line != "" && ' ' !in line ==> r == [Strip(line)]
  {
    if line != "" && ' ' !in line then
      ContainsChar(line, ' ');
      SplitOnAbsent(line, [' ']);
      WordsOne(line);
      Words(Split(line, ' '))
    else Words(Split(line, ' '))
  }

  /** A word: not empty, no space inside and no whitespace at either end. */
  predicate IsWord(w: string) {
    w != "" && ' ' !in w && !IsSpace(w[0]) && !IsSpace(w[|w| - 1])
  }

  lemma WordsAppend(a: seq<string>, b: seq<string>)
    ensures Words(a + b) == Words(a) + Words(b)
  {
    FlatMapAppend(PieceField, a, b);
  }

  lemma {:induction false} WordsOfWords(ws: seq<string>)
    requires forall k :: 0 <= k < |ws| ==> IsWord(ws[k])
    ensures Words(ws) == ws
    decreases |ws|
  {
    if |ws| > 0 {
      StripUnchanged(ws[0]);
      WordsOfWords(ws[1..]);
      assert ws == [ws[0]] + ws[1..];
    }
  }

  lemma {:induction false} JoinSnoc(ws: seq<string>, x: string, sep: string)
    requires |ws| >= 1
    ensures Join(ws + [x], sep) == Join(ws, sep) + sep + x
    decreases |ws|
  {
    if |ws| > 1 {
      assert (ws + [x])[1..] == ws[1..] + [x];
      JoinSnoc(ws[1..], x, sep);
    }
  }

  /** A word followed by the newline `readline` keeps is stripped back to the word. */
  lemma StripNewline(w: string)
    requires IsWord(w)
    ensures Strip(w + "\n") == w
  {
    var t := w + "\n";
    assert TrimLeft(t) == t;
    assert t[..|t| - 1] == w;
    assert TrimRight(t) == TrimRight(w);
    StripUnchanged(w);
  }

  /** A trace line of words separated by single spaces, as `readline` gives
      it with its newline, is read back as those words. */
  lemma EntryOfLine(ws: seq<string>)
    requires |ws| >= 1 && forall k :: 0 <= k < |ws| ==> IsWord(ws[k])
    ensures var n := |ws| - 1;
      SplitLineEntry(Join(ws[..n] + [ws[n] + "\n"], " ")) == ws
  {
    var n := |ws| - 1;
    var init, last := ws[..n], ws[n] + "\n";
    assert ' ' !in last by {
      assert forall i :: 0 <= i < |ws[n]| ==> last[i] == ws[n][i];
    }
    NoSpacePieces(init, last);
    SplitJoin(init + [last], ' ');
    WordsAppend(init, [last]);
    WordsOfWords(init);
    WordsOne(last);
    StripNewline(ws[n]);
    assert ws == init + [ws[n]];
  }

  lemma NoSpacePieces(init: seq<string>, last: string)
    requires (forall k :: 0 <= k < |init| ==> IsWord(init[k])) && ' ' !in last
    ensures forall p :: p in init + [last] ==> ' ' !in p
  {
    forall p | p in init + [last] ensures ' ' !in p {
      if p != last {
        var k :| 0 <= k < |init| && init[k] == p;
      }
    }
  }

  lemma WordsOne(x: string)
    requires x != ""
    ensures Words([x]) == [Strip(x)]
  {
    assert [x][1..] == [];
  }

  /** A space before the newline adds an empty last field, which makes a
      line of 44 words an entry of 45 fields. */
  lemma TrailingSpaceField(ws: seq<string>)
    requires |ws| >= 1 && forall k :: 0 <= k < |ws| ==> IsWord(ws[k])
    ensures SplitLineEntry(Join(ws, " ") + " \n") == ws + [""]
  {
    SpaceNewline(Join(ws, " "));
    SpacedLinePieces(ws, "\n");
    WordsAppend(ws, ["\n"]);
    WordsOfWords(ws);
    NewlineField();
  }

  /** The token `"\n"` is kept, and stripped to the empty field. */
  lemma NewlineField()
    ensures Words(["\n"]) == [""]
  {
    assert Strip("\n") == "";
    assert ["\n"][1..] == [];
  }

  lemma SpaceNewline(a: string)
    ensures a + " \n" == a + " " + "\n"
  {
  }

  lemma SpacedLinePieces(ws: seq<string>, x: string)
    requires |ws| >= 1 && (forall k :: 0 <= k < |ws| ==> IsWord(ws[k])) && ' ' !in x
    ensures Split(Join(ws, " ") + " " + x, ' ') == ws + [x]
  {
    JoinSnoc(ws, x, " ");
    SpaceFreePieces(ws, x);
    SplitJoin(ws + [x], ' ');
  }

  lemma SpaceFreePieces(ws: seq<string>, x: string)
    requires (forall k :: 0 <= k < |ws| ==> IsWord(ws[k])) && ' ' !in x
    ensures forall p :: p in ws + [x] ==> ' ' !in p
  {
    forall p | p in ws + [x] ensures ' ' !in p {
      if p != x {
        var k :| 0 <= k < |ws| && ws[k] == p;
      }
    }
  }



  // ---- MauiLogParser ----

  /** A line `getNextLogLine` reads past: the `VERSION` header, a comment,
      or an empty line. */
  predicate Skipped(line: string) {
    StartsWith(line, "VERSION") || StartsWith(line, "#") || line == "\n"
  }

  /** `getNextLogLine` on a trace read up to line `pos`: the next line that
      is not read past, or None at the end of the file. */
  function NextLogLine(lines: seq<string>, pos: nat): (r: (Option<string>, nat))
    requires pos <= |lines|
    ensures pos <= r.1 <= |lines| && (r.1 == pos <==> pos == |lines|)
    ensures r.0.Some? ==> r.0.value != "" && !Skipped(r.0.value)
    decreases |lines| - pos
  {
    if pos == |lines| then (None, pos)
    else if Skipped(lines[pos]) then NextLogLine(lines, pos + 1)
    else if lines[pos] == "" then (None, pos + 1)
    else (Some(lines[pos]), pos + 1)
  }

  /** Every line `getNextLogLine` reads but the last is one it reads past;
      it reaches the end of the file if the last is one too, and otherwise
      the last line is returned, unless it is the empty end marker. */
  lemma {:induction false} NextLogLineReads(lines: seq<string>, pos: nat)
    requires pos <= |lines|
    ensures var r := NextLogLine(lines, pos);
      && (forall j :: pos <= j < r.1 - 1 ==> Skipped(lines[j]))
      && (r.1 == pos || Skipped(lines[r.1 - 1]) ==> r.1 == |lines| && r.0.None?)
      && (r.1 > pos && !Skipped(lines[r.1 - 1]) ==>
          r.0 == if lines[r.1 - 1] == "" then None else Some(lines[r.1 - 1]))
    decreases |lines| - pos
  {
    if pos < |lines| && Skipped(lines[pos]) {
      NextLogLineReads(lines, pos + 1);
    }
  }

  /** `getNextLogEntry`: the next line, split into its fields. */
  function NextLogEntry(lines: seq<string>, pos: nat): (r: (Option<Entry>, nat))
    requires pos <= |lines|
    ensures r.1 == NextLogLine(lines, pos).1
    ensures r.0.None? <==> NextLogLine(lines, pos).0.None?
    ensures r.0.Some? ==> r.0.value == SplitLineEntry(NextLogLine(lines, pos).0.value)
  {
    var next := NextLogLine(lines, pos);
    match next.0
    case None => (None, next.1)
    case Some(l) => (Some(SplitLineEntry(l)), next.1)
  }

  predicate HasJobId(entry: Entry, jobId: string) {
    |entry| > 0 && entry[0] == jobId
  }

  /** `spoolToEntry`: entries are read up to and including the first whose
      first field is the job id, or to the end of the trace; an entry with
      no field at all raises IndexError. */
  function SpoolTo(lines: seq<string>, pos: nat, jobId: string): (r: (Result<()>, nat))
    requires pos <= |lines|
    ensures pos <= r.1 <= |lines|
    ensures r.0.Failure? ==> r.0.error == IndexError
    decreases |lines| - pos
  {
    var next := NextLogEntry(lines, pos);
    match next.0
    case None => (Success(()), next.1)
    case Some(entry) =>
      if |entry| == 0 then (Failure(IndexError), next.1)
      else if entry[0] == jobId then (Success(()), next.1)
      else SpoolTo(lines, next.1, jobId)
  }

  /** The entries of a trace from line `pos` on, in order, read as
      `getNextLogEntry` reads them. */
  function LogEntries(lines: seq<string>, pos: nat): (r: seq<Entry>)
    requires pos <= |lines|
    ensures |r| <= |lines| - pos
    decreases |lines| - pos
  {
    var next := NextLogEntry(lines, pos);
    match next.0
    case None => []
    case Some(entry) => [entry] + LogEntries(lines, next.1)
  }

  /** In a file without empty lines, no entry is left once the search for
      the next one comes back empty. */
  lemma NoEntryAtEnd(lines: seq<string>, pos: nat)
    requires pos <= |lines| && Torque.NoEmptyLines(lines) && NextLogEntry(lines, pos).0.None?
    ensures NextLogEntry(lines, pos).1 == |lines|
  {
    NextLogLineReads(lines, pos);
  }

  /** The test `spoolToEntry` applies to each entry. */
  function JobIdTest(jobId: string): Entry -> bool {
    entry => HasJobId(entry, jobId)
  }

  /** Every entry of the trace from `pos` on has a first field. */
  predicate NoEmptyEntry(lines: seq<string>, pos: nat)
    requires pos <= |lines|
  {
    var es := LogEntries(lines, pos);
    forall k :: 0 <= k < |es| ==> |es[k]| > 0
  }

  /** Spooling to a job id leaves exactly the entries after the first one
      with that id unread, or none when no entry has it. */
  lemma {:induction false} SpoolLeavesRest(lines: seq<string>, pos: nat, jobId: string)
    requires pos <= |lines| && Torque.NoEmptyLines(lines) && NoEmptyEntry(lines, pos)
    ensures SpoolTo(lines, pos, jobId).0.Success?
    ensures var es := LogEntries(lines, pos);
      LogEntries(lines, SpoolTo(lines, pos, jobId).1) == es[FirstPast(es, JobIdTest(jobId))..]
    decreases |lines| - pos
  {
    var next := NextLogEntry(lines, pos);
    var es := LogEntries(lines, pos);
    if next.0.None? {
      NoEntryAtEnd(lines, pos);
    } else {
      var entry := next.0.value;
      var tail := LogEntries(lines, next.1);
      assert es == [entry] + tail;
      assert es[0] == entry && es[1..] == tail;
      if entry[0] != jobId {
        assert forall k :: 0 <= k < |tail| ==> tail[k] == es[k + 1];
        SpoolLeavesRest(lines, next.1, jobId);
      }
    }
  }

  /** An entry without fields before any with the job id makes spooling fail. */
  lemma {:induction false} SpoolStopsAtEmptyEntry(lines: seq<string>, pos: nat, jobId: string, k: nat)
    requires pos <= |lines|
    requires var es := LogEntries(lines, pos);
      k < |es| && |es[k]| == 0 && forall j :: 0 <= j < k ==> !HasJobId(es[j], jobId)
    ensures SpoolTo(lines, pos, jobId).0 == Failure(IndexError)
    decreases k
  {
    EntriesLeft(lines, pos);
    LogEntriesCons(lines, pos);
    var next := NextLogEntry(lines, pos);
    var es := LogEntries(lines, pos);
    var tail := LogEntries(lines, next.1);
    if k > 0 && |es[0]| > 0 {
      assert es[0][0] != jobId;
      SpoolPast(lines, pos, jobId);
      SpoolStopsAtEmptyEntry(lines, next.1, jobId, k - 1);
    }
  }

  /** Entries are left exactly when there is a next entry. */
  lemma EntriesLeft(lines: seq<string>, pos: nat)
    requires pos <= |lines|
    ensures |LogEntries(lines, pos)| > 0 <==> NextLogEntry(lines, pos).0.Some?
  {
  }

  /** An entry with another first field is passed over. */
  lemma SpoolPast(lines: seq<string>, pos: nat, jobId: string)
    requires pos <= |lines|
    requires var next := NextLogEntry(lines, pos); next.0.Some? && |next.0.value| > 0 && next.0.value[0] != jobId
    ensures SpoolTo(lines, pos, jobId) == SpoolTo(lines, NextLogEntry(lines, pos).1, jobId)
  {
  }



  /** `MauiLogParser`: a trace file read line by line. `file_` is None until
      the file is opened and then holds its lines, of which the first `pos`
      have been read. The file system is the map `files` from path to
      lines; a path it lacks cannot be opened. */
  class MauiLogParser {
    var log_file: string
    var file_: Option<seq<string>>
    var pos: nat

    predicate Valid()
      reads this
    {
      file_.Some? ==> pos <= |file_.value|
    }

    constructor (logFile: string)
      ensures Valid() && log_file == logFile && file_.None?
    {
      log_file := logFile;
      file_ := None;
      pos := 0;
    }

    /** The lines the next read works on, once the file is open. */
    function Lines(files: map<string, seq<string>>): Result<seq<string>>
      reads this
    {
      if file_.Some? then Success(file_.value)
      else if log_file in files then Success(files[log_file])
      else Failure(IOError)
    }

    /** The number of lines already read, once the file is open. */
    function Position(): nat
      reads this
    {
      if file_.Some? then pos else 0
    }

    /** `openFile` */
    method OpenFile(files: map<string, seq<string>>) returns (r: Result<()>)
      modifies this
      ensures log_file == old(log_file)
      ensures old(log_file) in files ==> r == Success(()) && file_ == Some(files[log_file]) && pos == 0
      ensures old(log_file) !in files ==> r == Failure(IOError) && file_ == old(file_) && pos == old(pos)
    {
      if log_file !in files {
        return Failure(IOError);
      }
      file_ := Some(files[log_file]);
      pos := 0;
      return Success(());
    }

    /** `readline`: the next line, or the empty string at the end. */
    method ReadLine() returns (line: string)
      requires Valid() && file_.Some?
      modifies this
      ensures Valid() && log_file == old(log_file) && file_ == old(file_)
      ensures old(pos) == |file_.value| ==> line == "" && pos == old(pos)
      ensures old(pos) < |file_.value| ==> line == file_.value[old(pos)] && pos == old(pos) + 1
    {
      if pos == |file_.value| {
        return "";
      }
      line := file_.value[pos];
      pos := pos + 1;
    }

    /** `getNextLogLine`: the file is opened on the first call. */
    method GetNextLogLine(files: map<string, seq<string>>) returns (r: Result<Option<string>>)
      requires Valid()
      modifies this
      ensures Valid() && log_file == old(log_file)
      ensures old(Lines(files)).Failure? ==> r == Failure(IOError) && file_ == old(file_) && pos == old(pos)
      ensures old(Lines(files)).Success? ==>
        var next := NextLogLine(old(Lines(files)).value, old(Position()));
        file_ == Some(old(Lines(files)).value) && r == Success(next.0) && pos == next.1
    {
      if file_.None? {
        var open := OpenFile(files);
        if open.Failure? {
          return Failure(IOError);
        }
      }
      ghost var start := pos;
      while true
        invariant Valid() && file_ == Some(old(Lines(files)).value)
        invariant start <= pos && NextLogLine(file_.value, start) == NextLogLine(file_.value, pos)
        invariant log_file == old(log_file)
        decreases |file_.value| - pos
      {
        var line := ReadLine();
        if !Skipped(line) {
          if line == "" {
            return Success(None);
          }
          return Success(Some(line));
        }
      }
    }

    /** `getNextLogEntry` */
    method GetNextLogEntry(files: map<string, seq<string>>) returns (r: Result<Option<Entry>>)
      requires Valid()
      modifies this
      ensures Valid() && log_file == old(log_file)
      ensures old(Lines(files)).Failure? ==> r == Failure(IOError) && file_ == old(file_) && pos == old(pos)
      ensures old(Lines(files)).Success? ==>
        var next := NextLogEntry(old(Lines(files)).value, old(Position()));
        file_ == Some(old(Lines(files)).value) && r == Success(next.0) && pos == next.1
    {
      var line := GetNextLogLine(files);
      if line.Failure? {
        return Failure(line.error);
      }
      if line.value.None? {
        return Success(None);
      }
      return Success(Some(SplitLineEntry(line.value.value)));
    }

    /** `spoolToEntry` */
    method SpoolToEntry(files: map<string, seq<string>>, jobId: string) returns (r: Result<()>)
      requires Valid()
      modifies this
      ensures Valid() && log_file == old(log_file)
      ensures old(Lines(files)).Failure? ==> r == Failure(IOError) && file_ == old(file_) && pos == old(pos)
      ensures old(Lines(files)).Success? ==>
        var next := SpoolTo(old(Lines(files)).value, old(Position()), jobId);
        file_ == Some(old(Lines(files)).value) && r == next.0 && pos == next.1
    {
      if file_.None? {
        var open := OpenFile(files);
        if open.Failure? {
          return Failure(IOError);
        }
      }
      ghost var start := pos;
      while true
        invariant Valid() && file_ == Some(old(Lines(files)).value)
        invariant start <= pos && SpoolTo(file_.value, start, jobId) == SpoolTo(file_.value, pos, jobId)
        invariant log_file == old(log_file)
        decreases |file_.value| - pos
      {
        var entry := GetNextLogEntry(files);
        if entry.value.None? {
          return Success(());
        }
        if |entry.value.value| == 0 {
          return Failure(IndexError);
        }
        if entry.value.value[0] == jobId {
          return Success(());
        }
      }
    }
  }

  // ---- getMauiServer ----

  /** `s.replace(SERVERHOST, '')`: every occurrence removed. */
  function RemoveKey(s: string): string {
    Join(SplitOn(s, ServerHostKey), "")
  }

  /** The server host named by the first line of `maui.cfg` that starts,
      once stripped, with `SERVERHOST`: the rest of that line with the key
      removed and stripped again. None when no line names it. */
  function ServerHost(lines: seq<string>): (r: Option<string>)
    ensures r.None? <==> forall k :: 0 <= k < |lines| ==> !NamesServer(lines[k])
    decreases |lines|
  {
    if |lines| == 0 then None
    else if NamesServer(lines[0]) then Some(HostOf(lines[0]))
    else
      var r := ServerHost(lines[1..]);
      assert forall k :: 0 < k < |lines| ==> lines[k] == lines[1..][k - 1];
      r
  }

  /** A `maui.cfg` line that starts, once stripped, with `SERVERHOST`. */
  predicate NamesServer(line: string) {
    StartsWith(Strip(line), ServerHostKey)
  }

  /** The host such a line names: the stripped line, key removed, stripped again. */
  function HostOf(line: string): string {
    Strip(RemoveKey(Strip(line)))
  }

  /** The first line that names the server host decides it. */
  lemma {:induction false} ServerHostFirst(lines: seq<string>, k: nat)
    requires k < |lines| && NamesServer(lines[k])
    requires forall j :: 0 <= j < k ==> !NamesServer(lines[j])
    ensures ServerHost(lines) == Some(HostOf(lines[k]))
    decreases k
  {
    if k > 0 {
      var tail := lines[1..];
      assert !NamesServer(lines[0]) && tail[k - 1] == lines[k];
      forall j | 0 <= j < k - 1 ensures !NamesServer(tail[j]) {
        assert tail[j] == lines[j + 1];
      }
      ServerHostFirst(tail, k - 1);
      assert ServerHost(lines) == ServerHost(tail);
    }
  }

  /** A line `SERVERHOST <host>` names that host. */
  lemma ServerHostLine(h: string)
    requires h != "" && !IsSpace(h[0]) && !IsSpace(h[|h| - 1]) && !Contains(h, ServerHostKey)
    ensures Strip(RemoveKey(ServerHostKey + " " + h)) == h
  {
    RemoveKeyLine(h);
    StripSpaced(h);
  }

  lemma RemoveKeyLine(h: string)
    requires !Contains(h, ServerHostKey)
    ensures RemoveKey(ServerHostKey + " " + h) == " " + h
  {
    var t := " " + h;
    KeyFirst(t);
    assert ServerHostKey + " " + h == ServerHostKey + t;
    SpaceNoKey(h);
    SplitOnAbsent(t, ServerHostKey);
    assert Join(["", t], "") == t;
  }


  lemma KeyFirst(t: string)
    ensures SplitOn(ServerHostKey + t, ServerHostKey) == [""] + SplitOn(t, ServerHostKey)
  {
    var s := ServerHostKey + t;
    assert s[..|ServerHostKey|] == ServerHostKey;
    assert s[|ServerHostKey|..] == t;
  }

  lemma SpaceNoKey(h: string)
    requires !Contains(h, ServerHostKey)
    ensures !Contains(" " + h, ServerHostKey)
  {
    var t := " " + h;
    assert t[0] == ' ';
    assert !StartsWith(t, ServerHostKey);
    assert t[1..] == h;
  }

  lemma StripSpaced(h: string)
    requires h != "" && !IsSpace(h[0]) && !IsSpace(h[|h| - 1])
    ensures Strip(" " + h) == h
  {
    assert (" " + h)[1..] == h;
    assert TrimLeft(" " + h) == h;
    StripUnchanged(h);
  }


  // ---- shouldGenerateUR ----

  /** `shouldGenerateUR`: the job completed, and its user is not one the
      user map names with no account (`-`). A completed job is skipped
      exactly when its user is in the map without a name for it: a user
      missing from the map gets a record. */
  predicate ShouldGenerateUR(entry: Entry, users: map<string, Option<string>>)
    requires |entry| > 6
    ensures ShouldGenerateUR(entry, users) <==>
      entry[6] == "Completed" && (entry[3] !in users || MapGet(users, entry[3]).Some?)
  {
    entry[6] == "Completed" && !(entry[3] in users && users[entry[3]].None?)
  }

  // ---- createUsageRecord ----

  /** `entry[k]`, IndexError past the end. */
  function At(entry: Entry, k: nat): (r: Result<string>)
    ensures r.Success? <==> k < |entry|
    ensures r.Failure? ==> r.error == IndexError
    ensures r.Success? ==> r.value == entry[k]
  {
    if k < |entry| then Success(entry[k]) else Failure(IndexError)
  }

  /** `int(entry[k])` */
  function IntAt(entry: Entry, k: nat): (r: Result<int>)
    ensures r.Failure? ==> r.error == IndexError || r.error == ValueError
    ensures r.Success? ==> k < |entry| && ParseInt(entry[k]) == Some(r.value)
  {
    var s :- At(entry, k);
    if ParseInt(s).Some? then Success(ParseInt(s).value) else Failure(ValueError)
  }

  /** `float(entry[k])` */
  function FloatAt(entry: Entry, k: nat): (r: Result<real>)
    ensures r.Failure? ==> r.error == IndexError || r.error == ValueError
    ensures r.Success? ==> k < |entry| && ParseFloat(entry[k]) == Some(r.value)
  {
    var s :- At(entry, k);
    if ParseFloat(s).Some? then Success(ParseFloat(s).value) else Failure(ValueError)
  }

  /** What `createUsageRecord` takes from a trace line, lines 123 to 141. */
  datatype Job = Job(
    jobId: string, userName: string, reqClass: string,
    submitTime: int, startTime: int, endTime: int, tasks: int,
    accountName: string, utilizedCpu: real, coreCount: int, hosts: seq<string>,
    jobIdentifier: string, fqdnJobId: string, machineName: string)

  /** The fields are read in the order of the source: an index past the end
      raises IndexError, a field `int` or `float` refuses ValueError, and a
      missing host name TypeError. */
  function JobOf(entry: Entry, hostname: Option<string>, serverHost: Option<string>): (r: Result<Job>)
    ensures r.Failure? ==> r.error == IndexError || r.error == ValueError || r.error == TypeError
    ensures r.Success? ==> |entry| >= 38 && hostname.Some?
    ensures r.Success? ==> var job := r.value;
      && job.jobId == entry[0] && job.userName == entry[3] && job.reqClass == entry[7]
      && ParseInt(entry[8]) == Some(job.submitTime) && ParseInt(entry[10]) == Some(job.startTime)
      && ParseInt(entry[11]) == Some(job.endTime) && ParseInt(entry[21]) == Some(job.tasks)
      && job.accountName == entry[25] && ParseFloat(entry[29]) == Some(job.utilizedCpu)
      && ParseInt(entry[31]).Some? && job.coreCount == ParseInt(entry[31]).value * job.tasks
      && job.hosts == Split(entry[37], ':')
      && job.jobIdentifier == Torque.JobIdentifier(entry[0], serverHost)
      && job.machineName == hostname.value && job.fqdnJobId == hostname.value + ":" + job.jobIdentifier
  {
    var jobId :- At(entry, 0);
    var user :- At(entry, 3);
    var reqClass :- At(entry, 7);
    var submit :- IntAt(entry, 8);
    var start :- IntAt(entry, 10);
    var end :- IntAt(entry, 11);
    var tasks :- IntAt(entry, 21);
    var account :- At(entry, 25);
    var cpu :- FloatAt(entry, 29);
    var procs :- IntAt(entry, 31);
    var hostList :- At(entry, 37);
    var ident := Torque.JobIdentifier(jobId, serverHost);
    if hostname.None? then Failure(TypeError)
    else Success(Job(jobId, user, reqClass, submit, start, end, tasks, account, cpu, procs * tasks,
      Split(hostList, ':'), ident, hostname.value + ":" + ident, hostname.value))
  }

  /** The queue of a class such as `[batch:4]`: the brackets removed, then
      cut at the first `:`. */
  function CleanQueue(reqClass: string): string {
    var q := RemoveChar(RemoveChar(reqClass, '['), ']');
    if ':' in q then Split(q, ':')[0] else q
  }

  /** The queue is where the unbracketed class starts, and holds no bracket
      and no `:`. */
  lemma CleanQueueOf(reqClass: string)
    ensures var q := CleanQueue(reqClass);
      && StartsWith(RemoveChar(RemoveChar(reqClass, '['), ']'), q)
      && '[' !in q && ']' !in q && ':' !in q
  {
    var u := RemoveChar(RemoveChar(reqClass, '['), ']');
    var q := CleanQueue(reqClass);
    if ':' in u {
      SplitFirstPrefix(u, ':');
      SplitPiecesFree(u, ':');
      assert q in Split(u, ':');
      assert forall i :: 0 <= i < |q| ==> q[i] == u[i];
    }
  }

  /** `[name:count]` gives the queue `name`. */
  lemma CleanQueueClass(name: string, count: string)
    requires '[' !in name && ']' !in name && ':' !in name
    requires '[' !in count && ']' !in count
    ensures CleanQueue("[" + name + ":" + count + "]") == name
  {
    var u := name + ":" + count;
    Bracketed(name, count);
    Unbracket(u);
    FirstPiece(name, count);
  }

  lemma Bracketed(name: string, count: string)
    ensures "[" + name + ":" + count + "]" == "[" + (name + ":" + count) + "]"
  {
  }


  lemma Unbracket(u: string)
    requires '[' !in u && ']' !in u
    ensures RemoveChar(RemoveChar("[" + u + "]", '['), ']') == u
  {
    var x := u + "]";
    assert "[" + u + "]" == "[" + x;
    LeadingDropped(x, '[');
    TrailingDropped(u, ']');
  }

  lemma LeadingDropped(x: string, c: char)
    requires c !in x
    ensures RemoveChar([c] + x, c) == x
  {
    assert ([c] + x)[1..] == x;
  }

  lemma TrailingDropped(u: string, c: char)
    requires c !in u
    ensures RemoveChar(u + [c], c) == u
  {
    RemoveCharAppend(u, [c], c);
    assert RemoveChar([c], c) == "";
  }



  lemma FirstPiece(name: string, count: string)
    requires ':' !in name
    ensures var u := name + ":" + count; ':' in u && Split(u, ':')[0] == name
  {
    var u := name + ":" + count;
    assert u == name + [':'] + count && u[|name|] == ':';
    SplitAppendSep(name, ':', count);
  }



  /** The account `[NONE]` stands for none. */
  function CleanAccount(account: string): (r: Option<string>)
    ensures r.None? <==> account == "[NONE]"
    ensures r.Some? ==> r.value == account
  {
    if account == "[NONE]" then None else Some(account)
  }

  /** The VO of a job: the one its account is mapped to, or failing that
      the one its user is mapped to, as one block of type `bart-vomap`. */
  function MauiVo(vos: map<string, Option<string>>, account: Option<string>, user: string): (vs: seq<VOInformation>)
    ensures |vs| <= 1
    ensures account.Some? && MapGet(vos, account.value).Some? ==>
      vs == [NewVOInformation(MapGet(vos, account.value), Some("bart-vomap"), None)]
    ensures (account.None? || MapGet(vos, account.value).None?) ==>
      (|vs| == 1 <==> MapGet(vos, user).Some?) &&
      (|vs| == 1 ==> vs[0] == NewVOInformation(MapGet(vos, user), Some("bart-vomap"), None))
  {
    var byAccount := if account.Some? then MapGet(vos, account.value) else None;
    var mapped := if byAccount.Some? then byAccount else MapGet(vos, user);
    if mapped.Some? then [NewVOInformation(mapped, Some("bart-vomap"), None)] else []
  }

  /** The CPU time correction: a time above the wall time of all the tasks
      is taken to count every task and divided by their number, which
      raises ZeroDivisionError when a job has no task and some CPU time. */
  function CorrectedCpu(cpu: real, wall: int, tasks: int): (r: Result<real>)
    ensures r.Failure? <==> tasks == 0 && cpu > 0.0
    ensures r.Failure? ==> r.error == ZeroDivisionError
  {
    if cpu > (wall * tasks) as real then
      if tasks == 0 then Failure(ZeroDivisionError) else Success(cpu / tasks as real)
    else Success(cpu)
  }

  /** For a job with tasks, the corrected time is a share of the measured
      one: all of it when it fits in the wall time of the tasks, else the
      share of one task. */
  lemma CorrectedCpuBounds(cpu: real, wall: int, tasks: int)
    requires tasks >= 1 && cpu >= 0.0
    ensures var r := CorrectedCpu(cpu, wall, tasks);
      && r.Success? && 0.0 <= r.value <= cpu
      && (cpu <= (wall * tasks) as real ==> r.value == cpu)
      && (cpu > (wall * tasks) as real ==> r.value * tasks as real == cpu)
  {
    if cpu > (wall * tasks) as real {
      var t := tasks as real;
      assert t >= 1.0;
      assert cpu / t <= cpu by {
        assert cpu <= cpu * t;
      }
    }
  }

  /** The corrected CPU time and the wall time of a job, in seconds. */
  function Durations(job: Job): Result<(real, real)> {
    var wall := job.endTime - job.startTime;
    var cpu :- CorrectedCpu(job.utilizedCpu, wall, job.tasks);
    Success((cpu, wall as real))
  }

  /** For a job with tasks, the wall time is the end time less the start
      time, and the CPU time recorded is at most the measured one. */
  lemma DurationsOf(job: Job)
    requires job.tasks >= 1 && job.utilizedCpu >= 0.0
    ensures Durations(job).Success?
    ensures var d := Durations(job).value;
      && d.1 == (job.endTime - job.startTime) as real
      && 0.0 <= d.0 <= job.utilizedCpu
      && (job.utilizedCpu <= ((job.endTime - job.startTime) * job.tasks) as real ==> d.0 == job.utilizedCpu)
  {
    CorrectedCpuBounds(job.utilizedCpu, job.endTime - job.startTime, job.tasks);
  }

  /** The submit, start and end times through `epoch2isoTime`. */
  function IsoTimes(job: Job): Result<(string, string, string)> {
    var submit :- Epoch2IsoTime(job.submitTime);
    var start :- Epoch2IsoTime(job.startTime);
    var end :- Epoch2IsoTime(job.endTime);
    Success((submit, start, end))
  }

  /** The record of a job, from line 146 on. */
  function JobRecord(ctx: Torque.Context, job: Job): (r: Result<UsageRecord>)
    ensures r.Success? ==> var ur := r.value;
      && ur.record_id == Some(job.fqdnJobId) && ur.global_job_id == Some(job.fqdnJobId)
      && ur.local_job_id == Some(job.jobIdentifier) && ur.local_user_id == Some(job.userName)
      && ur.global_user_name == MapGet(ctx.users, job.userName)
      && ur.machine_name == Some(job.machineName) && ur.queue == Some(CleanQueue(job.reqClass))
      && ur.processors == Some(Int(job.coreCount)) && ur.node_count == Some(Int(|job.hosts|))
      && ur.host == Some(Join(job.hosts, ","))
      && Durations(job).Success?
      && ur.cpu_duration == Some(Durations(job).value.0)
      && ur.wall_duration == Some(Durations(job).value.1)
      && ur.project_name == CleanAccount(job.accountName)
      && ur.vo_info == MauiVo(ctx.vos, CleanAccount(job.accountName), job.userName)
  {
    var queue := CleanQueue(job.reqClass);
    var account := CleanAccount(job.accountName);
    var vo := MauiVo(ctx.vos, account, job.userName);
    var durations :- Durations(job);
    var times :- IsoTimes(job);
    Success(NewUsageRecord().(
      record_id := Some(job.fqdnJobId),
      local_job_id := Some(job.jobIdentifier),
      global_job_id := Some(job.fqdnJobId),
      local_user_id := Some(job.userName),
      global_user_name := MapGet(ctx.users, job.userName),
      machine_name := Some(job.machineName),
      queue := Some(queue),
      processors := Some(Int(job.coreCount)),
      node_count := Some(Int(|job.hosts|)),
      host := Some(Join(job.hosts, ",")),
      submit_time := Some(times.0),
      start_time := Some(times.1),
      end_time := Some(times.2),
      cpu_duration := Some(durations.0),
      wall_duration := Some(durations.1),
      project_name := account,
      vo_info := vo))
  }

  /** `createUsageRecord`'s result for an entry: the record names the job
      by the host and its identifier, takes the user, queue and account
      from the line, counts cores and hosts, and carries the wall time and
      the corrected CPU time. */
  function RecordOf(ctx: Torque.Context, serverHost: Option<string>, entry: Entry): (r: Result<UsageRecord>)
    ensures r.Success? ==> JobOf(entry, ctx.hostname, serverHost).Success?
    ensures r.Success? ==> var ur := r.value;
      var job := JobOf(entry, ctx.hostname, serverHost).value;
      && ur.record_id == Some(ctx.hostname.value + ":" + Torque.JobIdentifier(entry[0], serverHost))
      && ur.global_job_id == ur.record_id
      && ur.local_job_id == Some(Torque.JobIdentifier(entry[0], serverHost))
      && ur.local_user_id == Some(entry[3]) && ur.global_user_name == MapGet(ctx.users, entry[3])
      && ur.machine_name == ctx.hostname
      && ur.queue == Some(CleanQueue(entry[7])) && ur.project_name == CleanAccount(entry[25])
      && ur.vo_info == MauiVo(ctx.vos, CleanAccount(entry[25]), entry[3])
      && ur.processors == Some(Int(ParseInt(entry[31]).value * ParseInt(entry[21]).value))
      && ur.node_count == Some(Int(|Split(entry[37], ':')|))
      && ur.host == Some(Join(Split(entry[37], ':'), ","))
      && Durations(job).Success?
      && ur.cpu_duration == Some(Durations(job).value.0) && ur.wall_duration == Some(Durations(job).value.1)
  {
    var job :- JobOf(entry, ctx.hostname, serverHost);
    JobRecord(ctx, job)
  }

  /** How `createUsageRecord` proceeds once the fields are read. */
  lemma RecordOfJob(ctx: Torque.Context, serverHost: Option<string>, entry: Entry)
    ensures var job := JobOf(entry, ctx.hostname, serverHost);
      && (job.Failure? ==> RecordOf(ctx, serverHost, entry) == Failure(job.error) && UnmappedUser(ctx, serverHost, entry) == {})
      && (job.Success? ==>
            && RecordOf(ctx, serverHost, entry) == JobRecord(ctx, job.value)
            && UnmappedUser(ctx, serverHost, entry) == if job.value.userName in ctx.users then {} else {job.value.userName})
  {
  }

  /** The user `createUsageRecord` notes as missing: the entry's, when the
      fields are read and the user map has no key for it. */
  function UnmappedUser(ctx: Torque.Context, serverHost: Option<string>, entry: Entry): set<string> {
    match JobOf(entry, ctx.hostname, serverHost)
    case Failure(_) => {}
    case Success(job) => if job.userName !in ctx.users then {job.userName} else {}
  }

  /** A line of fewer than 38 fields, or a caller without a host name,
      gives no job. */
  lemma JobNeedsFields(entry: Entry, hostname: Option<string>, serverHost: Option<string>)
    requires |entry| < 38 || hostname.None?
    ensures JobOf(entry, hostname, serverHost).Failure?
  {
  }

  /** The user noted as missing is the entry's, and only when the user map
      has no key for it. */
  lemma UnmappedUserOf(ctx: Torque.Context, serverHost: Option<string>, entry: Entry)
    ensures var u := UnmappedUser(ctx, serverHost, entry);
      && |u| <= 1
      && (u != {} <==> JobOf(entry, ctx.hostname, serverHost).Success? && entry[3] !in ctx.users)
      && (u != {} ==> u == {entry[3]})
  {
  }

  /** A trace line of a numeric job id is named after the host and the
      server host: `<host>:<id>.<server host>`. */
  lemma NumericJobId(ctx: Torque.Context, serverHost: Option<string>, entry: Entry)
    requires RecordOf(ctx, serverHost, entry).Success? && |entry| > 0 && IsDigits(entry[0]) && serverHost.Some?
    ensures ctx.hostname.Some?
    ensures RecordOf(ctx, serverHost, entry).value.record_id ==
      Some(ctx.hostname.value + ":" + entry[0] + "." + serverHost.value)
  {
    var h := ctx.hostname.value;
    var ident := Torque.JobIdentifier(entry[0], serverHost);
    assert RecordOf(ctx, serverHost, entry).value.record_id == Some(h + ":" + ident);
    assert ident == entry[0] + "." + serverHost.value;
    QualifiedName(h, entry[0], serverHost.value);
  }

  lemma QualifiedName(h: string, id: string, server: string)
    ensures h + ":" + (id + "." + server) == h + ":" + id + "." + server
  {
  }

  // ---- the resume state ----

  /** The job id and date `parseGeneratorState` keeps. As written, a
      non-empty state is split through the name `state_data`, which is not
      defined, and raises NameError; as intended the state itself is split,
      as the Torque backend splits its own. */
  function ParseState(mode: Mode, state: Option<string>, now: int): Result<(Option<string>, string)> {
    if mode == AsWritten && state.Some? && state.value != "" then Failure(NameError)
    else Torque.ParseState(state, now)
  }

  /** As written, no state a run has saved can be read back. */
  lemma SavedStateRaises(jobId: Option<string>, date: string, now: int)
    ensures ParseState(AsWritten, Some(Torque.StateText(jobId, Some(date))), now) == Failure(NameError)
  {
    assert Torque.StateText(jobId, Some(date)) != "" by {
      var j := if jobId.None? || jobId.value == "" then "-" else jobId.value;
      assert Torque.StateText(jobId, Some(date)) == j + " " + RenderOpt(Some(date));
    }
  }

  /** As intended, a saved state is read back as the job id and date it
      was made of; without a state both modes start from the day before. */
  lemma StateRoundTrip(mode: Mode, jobId: Option<string>, date: string, now: int)
    requires jobId.Some? ==> ' ' !in jobId.value
    requires ' ' !in date
    ensures ParseState(Intended, Some(Torque.StateText(jobId, Some(date))), now) ==
      Success((if jobId.None? || jobId.value == "" || jobId.value == "-" then None else jobId, date))
    ensures ParseState(mode, None, now) == ParseState(mode, Some(""), now)
    ensures ParseState(mode, None, now).Success? <==> Torque.DateText(now - 24 * 3600).Success?
    ensures ParseState(mode, None, now).Success? ==>
      ParseState(mode, None, now).value == (None, Torque.DateText(now - 24 * 3600).value)
  {
    Torque.StateRoundTrip(jobId, date);
  }

  // ---- generateUsageRecords ----

  /** The spool directory: the `spooldir` option, `/var/spool/maui` by default. */
  function MauiSpoolDir(cfg: Ini): string {
    GetConfigValue(cfg, Section, SpoolDirOption, Some(DefaultSpoolDir)).value
  }

  /** The trace of a day, `<spool dir>/stats/<date>`. */
  function LogPath(dir: string, date: string): string {
    Torque.PathJoin(Torque.PathJoin(dir, StatsDir), date)
  }

  /** By default the traces are read from `/var/spool/maui/stats`. */
  lemma DefaultLogPath(cfg: Ini, date: string)
    requires Section !in cfg || SpoolDirOption !in cfg[Section]
    requires |date| > 0 && date[0] != '/'
    ensures LogPath(MauiSpoolDir(cfg), date) == "/var/spool/maui/stats/" + date
  {
  }

  /** The server host `getMauiServer` finds in `maui.cfg` under the spool
      directory, None when there is no such file. */
  function ServerHostOf(files: map<string, seq<string>>, spoolDir: string): Option<string> {
    var path := Torque.PathJoin(spoolDir, MauiCfgFile);
    if path in files then ServerHost(files[path]) else None
  }

  /** How a run turns an entry into its record and which user without a
      mapping it notes: `createUsageRecord`, for the Maui backend the
      functions `RecordOf` and `UnmappedUser` of its context and server host. */
  datatype Recorder = Recorder(record: Entry -> Result<UsageRecord>, unmapped: Entry -> set<string>)

  function MauiRecorder(ctx: Torque.Context, serverHost: Option<string>): Recorder {
    Recorder(entry => RecordOf(ctx, serverHost, entry), entry => UnmappedUser(ctx, serverHost, entry))
  }

  /** An entry the loop makes a record of: the 44 fields of a trace line,
      and `shouldGenerateUR` accepts it. */
  predicate Wanted(entry: Entry, users: map<string, Option<string>>) {
    |entry| == 44 && ShouldGenerateUR(entry, users)
  }

  /** What the inner loop of `generateUsageRecords` does with one entry.
      An entry of another width than a trace line's 44 fields is passed
      over, unless it has no field at all: the message about it reads its
      first field and raises IndexError. An entry `shouldGenerateUR`
      refuses is passed over. Otherwise its record is made; as written,
      passing the undefined name `cfg` to `writeUr` then raises NameError,
      and as intended the record is written and the entry's job id saved
      with the date. */
  function EntryStep(mode: Mode, rec: Recorder, users: map<string, Option<string>>, entry: Entry, date: string,
                     run: Torque.Run): Torque.Run {
    if |entry| == 0 then run.(error := Some(IndexError))
    else if !Wanted(entry, users) then run
    else
      match rec.record(entry)
      case Failure(e) => run.(missing := run.missing + rec.unmapped(entry), error := Some(e))
      case Success(_) =>
        if mode == AsWritten then run.(missing := run.missing + rec.unmapped(entry), error := Some(NameError))
        else Written(rec, entry, date, run)
  }

  /** The run once an entry's record is written and the state saved. */
  function Written(rec: Recorder, entry: Entry, date: string, run: Torque.Run): Torque.Run
    requires |entry| > 0 && rec.record(entry).Success?
  {
    var jobId := Some(entry[0]);
    Torque.Run(run.written + [rec.record(entry).value], run.saves + [Torque.StateText(jobId, Some(date))],
      run.missing + rec.unmapped(entry), jobId, Some(date), None)
  }

  /** One entry of the inner loop with `cfg` read as `self.cfg` but the
      state saved as written: a usage record has no attribute `job_id`, so
      once the record is written `ur.job_id` raises AttributeError, before
      any state is saved. */
  function CfgFixedStep(rec: Recorder, users: map<string, Option<string>>, entry: Entry, date: string,
                        run: Torque.Run): Torque.Run {
    if |entry| == 0 then run.(error := Some(IndexError))
    else if !Wanted(entry, users) then run
    else
      match rec.record(entry)
      case Failure(e) => run.(missing := run.missing + rec.unmapped(entry), error := Some(e))
      case Success(ur) => run.(written := run.written + [ur], missing := run.missing + rec.unmapped(entry),
                               error := Some(AttributeError))
  }

  /** With `cfg` fixed, the first wanted entry's record is written and the run
      ends with AttributeError and no saved state; as intended the entry's
      job id is saved with the date, as the Torque backend saves it. */
  lemma JobIdUnsaved(rec: Recorder, users: map<string, Option<string>>, entry: Entry, date: string, run: Torque.Run)
    requires Wanted(entry, users) && rec.record(entry).Success?
    ensures var r := CfgFixedStep(rec, users, entry, date, run);
      r.written == run.written + [rec.record(entry).value] && r.saves == run.saves && r.error == Some(AttributeError)
    ensures var r := EntryStep(Intended, rec, users, entry, date, run);
      && r.written == run.written + [rec.record(entry).value]
      && r.saves == run.saves + [Torque.StateText(Some(entry[0]), Some(date))] && r.error.None?
  {
  }

  /** The inner loop of `generateUsageRecords` over one day's trace from
      line `pos` on, up to its end or the first exception. */
  function DayLoop(mode: Mode, rec: Recorder, users: map<string, Option<string>>, lines: seq<string>, pos: nat,
                   date: string, run: Torque.Run): Torque.Run
    requires pos <= |lines|
    decreases |lines| - pos
  {
    var next := NextLogEntry(lines, pos);
    match next.0
    case None => run
    case Some(entry) =>
      var after := EntryStep(mode, rec, users, entry, date, run);
      if after.error.Some? then after else DayLoop(mode, rec, users, lines, next.1, date, after)
  }

  /** One day of `generateUsageRecords`. With a job id to resume after, the
      trace is spooled to it first, outside the handler: a trace that
      cannot be opened, or an entry without fields, ends the run. Without
      one, a trace that cannot be opened adds nothing. */
  function DayRun(mode: Mode, rec: Recorder, users: map<string, Option<string>>, files: map<string, seq<string>>,
                  path: string, date: string, jobId: Option<string>, run: Torque.Run): Torque.Run {
    if path !in files then (if jobId.Some? then run.(error := Some(IOError)) else run)
    else if jobId.None? then DayLoop(mode, rec, users, files[path], 0, date, run)
    else
      var sp := SpoolTo(files[path], 0, jobId.value);
      if sp.0.Failure? then run.(error := Some(sp.0.error))
      else DayLoop(mode, rec, users, files[path], sp.1, date, run)
  }

  /** The outer loop of `generateUsageRecords` from `date` on: the run stops
      after an exception or after `today`, and otherwise goes on with the
      next day without a job id, where `getIncrementalDate` may raise. */
  function Drive(mode: Mode, rec: Recorder, users: map<string, Option<string>>, files: map<string, seq<string>>,
                 dir: string, today: string, date: string, jobId: Option<string>, run: Torque.Run): Torque.Run
    decreases Torque.DateRank(date)
  {
    var after := DayRun(mode, rec, users, files, LogPath(dir, date), date, jobId, run);
    if after.error.Some? || date == today then after
    else
      match Common.GetIncrementalDate(date, MauiDateFormat)
      case Failure(e) => after.(error := Some(e))
      case Success(next) =>
        Torque.NextDateRank(date, next);
        Drive(mode, rec, users, files, dir, today, next, None, after)
  }

  /** The records of a list of entries, in order, of those the loop makes
      one of; an entry without fields, or the first wanted entry without a
      record, decides the exception. */
  function EntryRecords(rec: Recorder, users: map<string, Option<string>>, entries: seq<Entry>): Result<seq<UsageRecord>>
    decreases |entries|
  {
    if |entries| == 0 then Success([])
    else if |entries[0]| == 0 then Failure(IndexError)
    else if !Wanted(entries[0], users) then EntryRecords(rec, users, entries[1..])
    else
      var ur :- rec.record(entries[0]);
      var rest :- EntryRecords(rec, users, entries[1..]);
      Success([ur] + rest)
  }

  /** As intended, a day's loop ends without an exception exactly when every
      entry of the rest of the trace has a field and every wanted one a
      record; it then writes those records in order, and otherwise ends
      with the exception of the first that fails. */
  lemma {:induction false} DayLoopWrites(rec: Recorder, users: map<string, Option<string>>, lines: seq<string>, pos: nat,
                                         date: string, run: Torque.Run)
    requires pos <= |lines| && run.error.None?
    ensures var r := DayLoop(Intended, rec, users, lines, pos, date, run);
      var recs := EntryRecords(rec, users, LogEntries(lines, pos));
      && (r.error.None? <==> recs.Success?)
      && (r.error.None? ==> r.written == run.written + recs.value)
      && (recs.Failure? ==> r.error == Some(recs.error))
    decreases |lines| - pos, 1
  {
    var next := NextLogEntry(lines, pos);
    if next.0.Some? {
      LogEntriesCons(lines, pos);
      var entry := next.0.value;
      if |entry| > 0 && !Wanted(entry, users) {
        DayLoopWrites(rec, users, lines, next.1, date, run);
      } else if |entry| > 0 && rec.record(entry).Success? {
        DayLoopWritesRecord(rec, users, lines, pos, date, run);
      }
    }
  }

  /** The first entry of the rest of a trace, and the entries after it. */
  lemma LogEntriesCons(lines: seq<string>, pos: nat)
    requires pos <= |lines| && NextLogEntry(lines, pos).0.Some?
    ensures var next := NextLogEntry(lines, pos);
      var es := LogEntries(lines, pos);
      pos < next.1 <= |lines| && |es| > 0 && es[0] == next.0.value && es[1..] == LogEntries(lines, next.1)
  {
    var next := NextLogEntry(lines, pos);
    NextLogLineReads(lines, pos);
    var es := LogEntries(lines, pos);
    assert es == [next.0.value] + LogEntries(lines, next.1);
  }

  /** The case of `DayLoopWrites` where the first entry gives a record. */
  lemma {:induction false} DayLoopWritesRecord(rec: Recorder, users: map<string, Option<string>>, lines: seq<string>, pos: nat,
                                               date: string, run: Torque.Run)
    requires pos <= |lines| && run.error.None?
    requires var e := NextLogEntry(lines, pos).0; e.Some? && |e.value| > 0 && Wanted(e.value, users) && rec.record(e.value).Success?
    ensures var r := DayLoop(Intended, rec, users, lines, pos, date, run);
      var recs := EntryRecords(rec, users, LogEntries(lines, pos));
      && (r.error.None? <==> recs.Success?)
      && (r.error.None? ==> r.written == run.written + recs.value)
      && (recs.Failure? ==> r.error == Some(recs.error))
    decreases |lines| - pos, 0
  {
    var next := NextLogEntry(lines, pos);
    var entry := next.0.value;
    LogEntriesCons(lines, pos);
    var run' := Written(rec, entry, date, run);
    assert DayLoop(Intended, rec, users, lines, pos, date, run) == DayLoop(Intended, rec, users, lines, next.1, date, run');
    DayLoopWrites(rec, users, lines, next.1, date, run');
    EntryRecordsWanted(rec, users, LogEntries(lines, pos));
    WrittenAfter(run, rec.record(entry).value, DayLoop(Intended, rec, users, lines, next.1, date, run'),
      EntryRecords(rec, users, LogEntries(lines, next.1)));
  }

  /** What a run writes after a record and the records after it. */
  lemma WrittenAfter(run: Torque.Run, ur: UsageRecord, r: Torque.Run, rest: Result<seq<UsageRecord>>)
    requires r.error.None? <==> rest.Success?
    requires r.error.None? ==> r.written == run.written + [ur] + rest.value
    requires rest.Failure? ==> r.error == Some(rest.error)
    ensures var recs := if rest.Success? then Success([ur] + rest.value) else rest;
      && (r.error.None? <==> recs.Success?)
      && (r.error.None? ==> r.written == run.written + recs.value)
      && (recs.Failure? ==> r.error == Some(recs.error))
  {
    if rest.Success? {
      assert run.written + [ur] + rest.value == run.written + ([ur] + rest.value);
    }
  }

  /** A wanted first entry with a record puts it before the rest's records. */
  lemma EntryRecordsWanted(rec: Recorder, users: map<string, Option<string>>, es: seq<Entry>)
    requires |es| > 0 && |es[0]| > 0 && Wanted(es[0], users) && rec.record(es[0]).Success?
    ensures var rest := EntryRecords(rec, users, es[1..]);
      EntryRecords(rec, users, es) == if rest.Success? then Success([rec.record(es[0]).value] + rest.value) else rest
  {
  }

  /** The Maui recorder makes `createUsageRecord`'s record and notes its user. */
  lemma MauiRecorderOf(ctx: Torque.Context, serverHost: Option<string>, entry: Entry)
    ensures MauiRecorder(ctx, serverHost).record(entry) == RecordOf(ctx, serverHost, entry)
    ensures MauiRecorder(ctx, serverHost).unmapped(entry) == UnmappedUser(ctx, serverHost, entry)
  {
  }

  /** As written, no day's loop writes a record or saves a state: the first
      record made raises NameError before it is written. */
  lemma {:induction false} DayLoopWritesNothing(rec: Recorder, users: map<string, Option<string>>, lines: seq<string>, pos: nat,
                                                date: string, run: Torque.Run)
    requires pos <= |lines|
    ensures var r := DayLoop(AsWritten, rec, users, lines, pos, date, run);
      r.written == run.written && r.saves == run.saves
    decreases |lines| - pos
  {
    var next := NextLogEntry(lines, pos);
    if next.0.Some? {
      var after := EntryStep(AsWritten, rec, users, next.0.value, date, run);
      EntryStepWritesNothing(rec, users, next.0.value, date, run);
      if after.error.None? {
        DayLoopWritesNothing(rec, users, lines, next.1, date, after);
      }
    }
  }

  lemma EntryStepWritesNothing(rec: Recorder, users: map<string, Option<string>>, entry: Entry, date: string, run: Torque.Run)
    ensures var after := EntryStep(AsWritten, rec, users, entry, date, run);
      after.written == run.written && after.saves == run.saves
  {
  }

  /** As written, an entry that should give a record ends the run with
      NameError instead, its user noted but nothing written. */
  lemma FirstRecordRaises(rec: Recorder, users: map<string, Option<string>>, lines: seq<string>, pos: nat,
                          date: string, run: Torque.Run)
    requires pos <= |lines|
    requires var e := NextLogEntry(lines, pos).0; e.Some? && Wanted(e.value, users) && rec.record(e.value).Success?
    ensures var e := NextLogEntry(lines, pos).0.value;
      DayLoop(AsWritten, rec, users, lines, pos, date, run) == run.(missing := run.missing + rec.unmapped(e), error := Some(NameError))
  {
  }

  /** Every record written is followed by a saved state, in either mode. */
  lemma {:induction false} DayLoopTracked(mode: Mode, rec: Recorder, users: map<string, Option<string>>, lines: seq<string>,
                                          pos: nat, date: string, run: Torque.Run)
    requires pos <= |lines| && Torque.Tracked(run)
    ensures Torque.Tracked(DayLoop(mode, rec, users, lines, pos, date, run))
    decreases |lines| - pos
  {
    var after, more, pos' := EntryTracked(mode, rec, users, lines, pos, date, run);
    if more {
      DayLoopTracked(mode, rec, users, lines, pos', date, after);
    }
  }

  /** One entry of the inner loop keeps the run tracked; the loop either
      ends there or goes on from a later line. */
  lemma EntryTracked(mode: Mode, rec: Recorder, users: map<string, Option<string>>, lines: seq<string>,
                     pos: nat, date: string, run: Torque.Run)
    returns (after: Torque.Run, more: bool, pos': nat)
    requires pos <= |lines| && Torque.Tracked(run)
    ensures more ==>
      && pos < pos' <= |lines| && Torque.Tracked(after)
      && (Torque.Tracked(DayLoop(mode, rec, users, lines, pos', date, after)) ==> Torque.Tracked(DayLoop(mode, rec, users, lines, pos, date, run)))
    ensures !more ==> Torque.Tracked(DayLoop(mode, rec, users, lines, pos, date, run))
  {
    var next := NextLogEntry(lines, pos);
    pos' := next.1;
    if next.0.Some? {
      after := EntryStep(mode, rec, users, next.0.value, date, run);
      assert Torque.Tracked(after);
      more := after.error.None?;
    } else {
      after := run;
      more := false;
    }
  }

  lemma DayRunTracked(mode: Mode, rec: Recorder, users: map<string, Option<string>>, files: map<string, seq<string>>,
                      path: string, date: string, jobId: Option<string>, run: Torque.Run)
    requires Torque.Tracked(run)
    ensures Torque.Tracked(DayRun(mode, rec, users, files, path, date, jobId, run))
  {
    if path in files {
      if jobId.None? {
        DayLoopTracked(mode, rec, users, files[path], 0, date, run);
      } else if SpoolTo(files[path], 0, jobId.value).0.Success? {
        DayLoopTracked(mode, rec, users, files[path], SpoolTo(files[path], 0, jobId.value).1, date, run);
      }
    }
  }

  /** Once a run is tracked it stays tracked, over all the days it reads. */
  lemma {:induction false} DriveTracked(mode: Mode, rec: Recorder, users: map<string, Option<string>>, files: map<string, seq<string>>,
                                        dir: string, today: string, date: string, jobId: Option<string>, run: Torque.Run)
    requires Torque.Tracked(run)
    ensures Torque.Tracked(Drive(mode, rec, users, files, dir, today, date, jobId, run))
    decreases Torque.DateRank(date)
  {
    var after, next := DayTracked(mode, rec, users, files, dir, today, date, jobId, run);
    if after.error.None? && date != today && next.Success? {
      DriveTracked(mode, rec, users, files, dir, today, next.value, None, after);
    }
  }

  /** One day of the outer loop keeps the run tracked; the run goes on from
      the next date, which is nearer the end of the calendar. */
  lemma DayTracked(mode: Mode, rec: Recorder, users: map<string, Option<string>>, files: map<string, seq<string>>,
                   dir: string, today: string, date: string, jobId: Option<string>, run: Torque.Run)
    returns (after: Torque.Run, next: Result<string>)
    requires Torque.Tracked(run)
    ensures Torque.Tracked(after)
    ensures after.error.None? && date != today && next.Success? ==>
      && Torque.DateRank(next.value) < Torque.DateRank(date)
      && (Torque.Tracked(Drive(mode, rec, users, files, dir, today, next.value, None, after)) ==> Torque.Tracked(Drive(mode, rec, users, files, dir, today, date, jobId, run)))
    ensures !(after.error.None? && date != today && next.Success?) ==> Torque.Tracked(Drive(mode, rec, users, files, dir, today, date, jobId, run))
  {
    after := DayRun(mode, rec, users, files, LogPath(dir, date), date, jobId, run);
    next := Common.GetIncrementalDate(date, MauiDateFormat);
    DayRunTracked(mode, rec, users, files, LogPath(dir, date), date, jobId, run);
    DriveOnce(mode, rec, users, files, dir, today, date, jobId, run, after, next);
    if after.error.None? && date != today && next.Success? {
      Torque.NextDateRank(date, next.value);
    }
    var later := if next.Success? then Drive(mode, rec, users, files, dir, today, next.value, None, after) else after;
    Torque.TrackedStep(after, next, date, today, Drive(mode, rec, users, files, dir, today, date, jobId, run), later);
  }

  /** One day of the outer loop, the day's run and the next date given. */
  lemma DriveOnce(mode: Mode, rec: Recorder, users: map<string, Option<string>>, files: map<string, seq<string>>,
                  dir: string, today: string, date: string, jobId: Option<string>, run: Torque.Run,
                  after: Torque.Run, next: Result<string>)
    requires after == DayRun(mode, rec, users, files, LogPath(dir, date), date, jobId, run)
    requires next == Common.GetIncrementalDate(date, MauiDateFormat)
    ensures Drive(mode, rec, users, files, dir, today, date, jobId, run)
         == if after.error.Some? || date == today then after
            else match next
              case Failure(e) => after.(error := Some(e))
              case Success(n) => Drive(mode, rec, users, files, dir, today, n, None, after)
  {
  }

  lemma DayRunWritesNothing(rec: Recorder, users: map<string, Option<string>>, files: map<string, seq<string>>,
                            path: string, date: string, jobId: Option<string>, run: Torque.Run)
    ensures var r := DayRun(AsWritten, rec, users, files, path, date, jobId, run);
      r.written == run.written && r.saves == run.saves
  {
    if path in files {
      if jobId.None? {
        DayLoopWritesNothing(rec, users, files[path], 0, date, run);
      } else if SpoolTo(files[path], 0, jobId.value).0.Success? {
        DayLoopWritesNothing(rec, users, files[path], SpoolTo(files[path], 0, jobId.value).1, date, run);
      }
    }
  }

  /** As written, a whole run writes no record and saves no state. */
  lemma {:induction false} DriveWritesNothing(rec: Recorder, users: map<string, Option<string>>, files: map<string, seq<string>>,
                                              dir: string, today: string, date: string, jobId: Option<string>, run: Torque.Run)
    ensures var r := Drive(AsWritten, rec, users, files, dir, today, date, jobId, run);
      r.written == run.written && r.saves == run.saves
    decreases Torque.DateRank(date)
  {
    DayRunWritesNothing(rec, users, files, LogPath(dir, date), date, jobId, run);
    var after := DayRun(AsWritten, rec, users, files, LogPath(dir, date), date, jobId, run);
    var next := Common.GetIncrementalDate(date, MauiDateFormat);
    DriveOnce(AsWritten, rec, users, files, dir, today, date, jobId, run, after, next);
    if after.error.None? && date != today && next.Success? {
      Torque.NextDateRank(date, next.value);
      DriveWritesNothing(rec, users, files, dir, today, next.value, None, after);
    }
  }

  /** As intended, resuming a day after job `j` writes the records of
      exactly the entries after the first one with that id. */
  lemma ResumeWrites(rec: Recorder, users: map<string, Option<string>>, files: map<string, seq<string>>,
                     path: string, date: string, j: string, run: Torque.Run)
    requires path in files && Torque.NoEmptyLines(files[path]) && NoEmptyEntry(files[path], 0)
    requires run.error.None?
    ensures var es := LogEntries(files[path], 0);
      var recs := EntryRecords(rec, users, es[FirstPast(es, JobIdTest(j))..]);
      var r := DayRun(Intended, rec, users, files, path, date, Some(j), run);
      && (r.error.None? <==> recs.Success?)
      && (r.error.None? ==> r.written == run.written + recs.value)
  {
    var lines := files[path];
    SpoolLeavesRest(lines, 0, j);
    DayLoopWrites(rec, users, lines, SpoolTo(lines, 0, j).1, date, run);
  }

  /** The job id saved for an entry leads a resumed run to just after it,
      when no earlier entry of the day has the same id. */
  lemma {:induction false} ResumeAfterSaved(es: seq<Entry>, i: nat)
    requires i < |es| && |es[i]| > 0
    requires forall k :: 0 <= k < i ==> !HasJobId(es[k], es[i][0])
    ensures FirstPast(es, JobIdTest(es[i][0])) == i + 1
    decreases i
  {
    if i > 0 {
      assert es[1..][i - 1] == es[i];
      assert forall k :: 0 <= k < i - 1 ==> es[1..][k] == es[k + 1];
      ResumeAfterSaved(es[1..], i - 1);
    }
  }

  /** The `Maui` generator. `state_job_id` and `state_log_file` are None
      until `parseGeneratorState` has set them. */
  class MauiGenerator {
    var cfg: Ini
    var state_job_id: Option<string>
    var state_log_file: Option<string>
    var missing_user_mappings: set<string>

    constructor (cfg: Ini)
      ensures this.cfg == cfg && state_job_id.None? && state_log_file.None? && missing_user_mappings == {}
    {
      this.cfg := cfg;
      state_job_id := None;
      state_log_file := None;
      missing_user_mappings := {};
    }

    /** `getStateFile`: the `statefile` option, `maui.state` by default. */
    function GetStateFile(): (f: string)
      reads this
      ensures Section !in cfg || StateFileOption !in cfg[Section] ==> f == "maui.state"
      ensures Section in cfg && StateFileOption in cfg[Section] ==> f == cfg[Section][StateFileOption]
    {
      GetConfigValue(cfg, Section, StateFileOption, Some(DefaultStateFile)).value
    }

    /** `getMauiServer`: `maui.cfg` is read line by line up to the first
        that names the server host. */
    method GetMauiServer(files: map<string, seq<string>>, spoolDir: string) returns (r: Option<string>)
      ensures r == ServerHostOf(files, spoolDir)
    {
      var path := Torque.PathJoin(spoolDir, MauiCfgFile);
      if path !in files {
        return None;
      }
      var lines := files[path];
      var i := 0;
      while i < |lines|
        invariant 0 <= i <= |lines|
        invariant ServerHost(lines[i..]) == ServerHost(lines)
      {
        var line := Strip(lines[i]);
        if StartsWith(line, ServerHostKey) {
          return Some(Strip(RemoveKey(line)));
        }
        assert lines[i..][1..] == lines[i + 1..];
        i := i + 1;
      }
      return None;
    }

    /** `createUsageRecord`: the record of an entry, noting its user when
        the user map has no key for it. */
    method CreateUsageRecord(ctx: Torque.Context, serverHost: Option<string>, entry: Entry) returns (r: Result<UsageRecord>)
      modifies this
      ensures r == RecordOf(ctx, serverHost, entry)
      ensures missing_user_mappings == old(missing_user_mappings) + UnmappedUser(ctx, serverHost, entry)
      ensures cfg == old(cfg) && state_job_id == old(state_job_id) && state_log_file == old(state_log_file)
    {
      var job := JobOf(entry, ctx.hostname, serverHost);
      RecordOfJob(ctx, serverHost, entry);
      assert missing_user_mappings + {} == missing_user_mappings;
      if job.Failure? {
        return Failure(job.error);
      }
      if job.value.userName !in ctx.users {
        missing_user_mappings := missing_user_mappings + {job.value.userName};
      }
      r := JobRecord(ctx, job.value);
    }

    /** `parseGeneratorState`: the job id and date the next run resumes
        from; a state that cannot be read raises and changes nothing. */
    method ParseGeneratorState(mode: Mode, state: Option<string>, now: int) returns (r: Result<()>)
      modifies this
      ensures var p := ParseState(mode, state, now);
        if p.Success? then r == Success(()) && state_job_id == p.value.0 && state_log_file == Some(p.value.1)
        else r == Failure(p.error) && state_job_id == old(state_job_id) && state_log_file == old(state_log_file)
      ensures cfg == old(cfg) && missing_user_mappings == old(missing_user_mappings)
    {
      var p := ParseState(mode, state, now);
      if p.Failure? {
        return Failure(p.error);
      }
      state_job_id, state_log_file := p.value.0, Some(p.value.1);
      return Success(());
    }

    /** `createGeneratorState`: as intended, a state that
        `parseGeneratorState` reads back, at any clock reading, as this
        generator's job id and trace date. */
    function CreateGeneratorState(): (r: string)
      reads this
      ensures (state_log_file.Some? && ' ' !in state_log_file.value
               && (state_job_id.Some? ==> ' ' !in state_job_id.value)) ==>
        forall now :: ParseState(Intended, Some(r), now) == Success((
          if state_job_id.None? || state_job_id.value == "" || state_job_id.value == "-" then None
          else state_job_id, state_log_file.value))
    {
      if state_log_file.Some? && ' ' !in state_log_file.value
          && (state_job_id.Some? ==> ' ' !in state_job_id.value) then
        Torque.StateRoundTrip(state_job_id, state_log_file.value);
        Torque.StateText(state_job_id, state_log_file)
      else Torque.StateText(state_job_id, state_log_file)
    }

    /** The body of `generateUsageRecords`'s inner loop for an entry
        read from the trace of `date`. */
    method ProcessEntry(mode: Mode, ctx: Torque.Context, serverHost: Option<string>, entry: Entry, date: string,
                        written0: seq<UsageRecord>, saves0: seq<string>)
      returns (written: seq<UsageRecord>, saves: seq<string>, error: Option<Exception>)
      modifies this
      ensures cfg == old(cfg)
      ensures Torque.Run(written, saves, missing_user_mappings, state_job_id, state_log_file, error) ==
        EntryStep(mode, MauiRecorder(ctx, serverHost), ctx.users, entry, date,
          Torque.Run(written0, saves0, old(missing_user_mappings), old(state_job_id), old(state_log_file), None))
    {
      written, saves, error := written0, saves0, None;
      if |entry| != 44 {
        if |entry| == 0 {
          return written, saves, Some(IndexError);
        }
        return written, saves, None;
      }
      if !ShouldGenerateUR(entry, ctx.users) {
        return written, saves, None;
      }
      MauiRecorderOf(ctx, serverHost, entry);
      var ur := CreateUsageRecord(ctx, serverHost, entry);
      if ur.Failure? {
        return written, saves, Some(ur.error);
      }
      if mode == AsWritten {
        return written, saves, Some(NameError);
      }
      written := written + [ur.value];
      state_job_id := Some(entry[0]);
      state_log_file := Some(date);
      saves := saves + [CreateGeneratorState()];
    }

    /** The inner loop of `generateUsageRecords` over the trace `mlp`
        reads; a trace that cannot be opened ends the day with nothing read. */
    method ReadDay(mode: Mode, ctx: Torque.Context, serverHost: Option<string>, files: map<string, seq<string>>,
                   mlp: MauiLogParser, date: string, written0: seq<UsageRecord>, saves0: seq<string>)
      returns (written: seq<UsageRecord>, saves: seq<string>, error: Option<Exception>)
      requires mlp.Valid()
      modifies this, mlp
      ensures cfg == old(cfg)
      ensures old(mlp.Lines(files)).Failure? ==>
        written == written0 && saves == saves0 && error.None? && missing_user_mappings == old(missing_user_mappings)
        && state_job_id == old(state_job_id) && state_log_file == old(state_log_file)
      ensures old(mlp.Lines(files)).Success? ==>
        Torque.Run(written, saves, missing_user_mappings, state_job_id, state_log_file, error) ==
        DayLoop(mode, MauiRecorder(ctx, serverHost), ctx.users, old(mlp.Lines(files)).value, old(mlp.Position()), date,
          Torque.Run(written0, saves0, old(missing_user_mappings), old(state_job_id), old(state_log_file), None))
    {
      written, saves := written0, saves0;
      if mlp.Lines(files).Failure? {
        var entry := mlp.GetNextLogEntry(files);
        return written, saves, None;
      }
      ghost var lines := mlp.Lines(files).value;
      ghost var rec := MauiRecorder(ctx, serverHost);
      ghost var goal := DayLoop(mode, rec, ctx.users, lines, mlp.Position(), date,
        Torque.Run(written0, saves0, missing_user_mappings, state_job_id, state_log_file, None));
      while true
        invariant mlp.Valid() && mlp.Lines(files) == Success(lines) && mlp.Position() <= |lines|
        invariant goal == DayLoop(mode, rec, ctx.users, lines, mlp.Position(), date,
          Torque.Run(written, saves, missing_user_mappings, state_job_id, state_log_file, None))
        invariant cfg == old(cfg)
        decreases |lines| - mlp.Position()
      {
        var entry := mlp.GetNextLogEntry(files);
        if entry.value.None? {
          return written, saves, None;
        }
        written, saves, error := ProcessEntry(mode, ctx, serverHost, entry.value.value, date, written, saves);
        if error.Some? {
          return written, saves, error;
        }
      }
    }

    /** One pass of `generateUsageRecords`'s outer loop up to the date
        check: the trace is opened, spooled to the job id when there is one,
        and read. */
    method ReadLog(mode: Mode, ctx: Torque.Context, serverHost: Option<string>, files: map<string, seq<string>>,
                   logFile: string, date: string, jobId: Option<string>, written0: seq<UsageRecord>, saves0: seq<string>)
      returns (written: seq<UsageRecord>, saves: seq<string>, error: Option<Exception>)
      modifies this
      ensures cfg == old(cfg)
      ensures Torque.Run(written, saves, missing_user_mappings, state_job_id, state_log_file, error) ==
        DayRun(mode, MauiRecorder(ctx, serverHost), ctx.users, files, logFile, date, jobId,
          Torque.Run(written0, saves0, old(missing_user_mappings), old(state_job_id), old(state_log_file), None))
    {
      var mlp := new MauiLogParser(logFile);
      if jobId.Some? {
        var sp := mlp.SpoolToEntry(files, jobId.value);
        if sp.Failure? {
          return written0, saves0, Some(sp.error);
        }
      }
      written, saves, error := ReadDay(mode, ctx, serverHost, files, mlp, date, written0, saves0);
    }

    /** `generateUsageRecords`: the traces are read day by day from the
        saved date up to today, resuming after the saved job id; `now` is
        the clock and `files` the spool directory's files. */
    method GenerateUsageRecords(mode: Mode, ctx: Torque.Context, files: map<string, seq<string>>, now: int)
      returns (written: seq<UsageRecord>, saves: seq<string>, error: Option<Exception>)
      requires state_log_file.Some?
      modifies this
      ensures cfg == old(cfg)
      ensures var dir := MauiSpoolDir(cfg);
        var today := Torque.DateText(now);
        if today.Failure? then
          written == [] && saves == [] && error == Some(today.error) && missing_user_mappings == old(missing_user_mappings)
          && state_job_id == old(state_job_id) && state_log_file == old(state_log_file)
        else
          var run := Drive(mode, MauiRecorder(ctx, ServerHostOf(files, dir)), ctx.users, files, dir, today.value,
            old(state_log_file).value, old(state_job_id), Torque.Run([], [], {}, old(state_job_id), old(state_log_file), None));
          && written == run.written && saves == run.saves && error == run.error && missing_user_mappings == run.missing
          && state_job_id == run.stateJob && state_log_file == run.stateDate
    {
      var dir := MauiSpoolDir(cfg);
      var serverHost := GetMauiServer(files, dir);
      var t := Torque.DateText(now);
      if t.Failure? {
        return [], [], Some(t.error);
      }
      var today := t.value;
      var jobId := state_job_id;
      var date := state_log_file.value;
      missing_user_mappings := {};
      written, saves := [], [];
      ghost var rec := MauiRecorder(ctx, serverHost);
      ghost var goal := Drive(mode, rec, ctx.users, files, dir, today, date, jobId,
        Torque.Run([], [], {}, state_job_id, state_log_file, None));
      while true
        invariant goal == Drive(mode, rec, ctx.users, files, dir, today, date, jobId,
          Torque.Run(written, saves, missing_user_mappings, state_job_id, state_log_file, None))
        invariant cfg == old(cfg)
        decreases Torque.DateRank(date)
      {
        var e;
        written, saves, e := ReadLog(mode, ctx, serverHost, files, LogPath(dir, date), date, jobId, written, saves);
        if e.Some? {
          return written, saves, e;
        }
        if date == today {
          return written, saves, None;
        }
        var next := Common.GetIncrementalDate(date, MauiDateFormat);
        if next.Failure? {
          return written, saves, Some(next.error);
        }
        Torque.NextDateRank(date, next.value);
        date := next.value;
        jobId := None;
      }
    }
  }
}
