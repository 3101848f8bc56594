/** The example backend: a dummy generator that makes five records per run,
    numbered by a counter kept as the resume state. */
module Example {
  import opened Wrappers
  import opened Numerals
  import opened Calendar
  import opened UsageRecords
  import opened Common
  import opened Config
  import Slurm

  const Section := "example"
  const StateFileOption := "statefile"
  const DefaultStateFile := Section + ".state"
  const StateFileStartOption := "statefile_start"
  const DefaultStateFileStart := 1
  const IdTimestampOption := "idtimestamp"
  const DefaultIdTimestamp := "false"

  /** `CONFIG`, whose types are stored under the builtin `type` as written. */
  function Declared(mode: Mode): Declared {
    var intType := if mode == AsWritten then None else Some("int");
    var boolType := if mode == AsWritten then None else Some("bool");
    map[StateFileOption := Item(false, None),
        StateFileStartOption := Item(false, intType),
        IdTimestampOption := Item(false, boolType)]
  }

  /** The number of records a run makes, one per element of `[1,2,3,4,5]`. */
  const Passes: nat := 5

  /** The user, account and queue every record names. */
  const Default := "default"

  /** The fixed submit, start and end times of every job, as
      `datetimeFromIsoStr` reads `2012-01-01T00:00:00`, `2012-01-02T01:23:45`
      and `2012-01-02T02:34:56`. */
  const SubmitTime := Tm(2012, 1, 1, 0, 0, 0)
  const StartTime := Tm(2012, 1, 2, 1, 23, 45)
  const EndTime := Tm(2012, 1, 2, 2, 34, 56)

  /** What a run depends on: the host name, the contents of the user and
      project maps, and `time.mktime`, which reads local time in the host's
      time zone. */
  datatype Context = Context(
    hostname: string, users: map<string, Option<string>>, projects: map<string, Option<string>>,
    mktime: Tm -> int)

  /** The epochs of the fixed times. */
  function Epochs(ctx: Context): (int, int, int) {
    (ctx.mktime(SubmitTime), ctx.mktime(StartTime), ctx.mktime(EndTime))
  }

  /** The three epochs render as times of a usage record. */
  predicate Rendered(ctx: Context) {
    var e := Epochs(ctx);
    Epoch2IsoTime(e.0).Success? && Epoch2IsoTime(e.1).Success? && Epoch2IsoTime(e.2).Success?
  }

  /** The record identifier of job `n`, up to line 75. */
  function RecordIdOf(ctx: Context, idtimestamp: bool, n: int): (r: Result<string>)
    ensures r.Success? <==> (idtimestamp ==> Epoch2IsoTime(Epochs(ctx).1).Success?)
  {
    var times := Epochs(ctx);
    Slurm.RecordId(ctx.hostname + ":" + IntToString(n), times.1, idtimestamp)
  }

  /** The record of job `n`, the counter's value after the increment:
      numbered by the counter, with one processor on one node, 90 seconds of
      CPU time in 100 of wall time, and a VO block when the project map
      knows the account. */
  function RecordOf(ctx: Context, idtimestamp: bool, n: int): (r: Result<UsageRecord>)
    ensures r.Success? <==> Rendered(ctx)
    ensures r.Success? ==> var ur := r.value;
      var fqdn := ctx.hostname + ":" + IntToString(n);
      && ur.local_job_id == Some(IntToString(n)) && ur.global_job_id == Some(fqdn)
      && (!idtimestamp ==> ur.record_id == Some(fqdn))
      && (idtimestamp ==> ur.record_id == Some(fqdn + ":" + Slurm.CompactTime(Epoch2IsoTime(Epochs(ctx).1).value)))
      && ur.local_user_id == Some(Default) && ur.global_user_name == MapGet(ctx.users, Default)
      && ur.machine_name == Some(ctx.hostname) && ur.host == Some(ctx.hostname) && ur.queue == Some(Default)
      && ur.processors == Some(Int(1)) && ur.node_count == Some(Int(1))
      && ur.cpu_duration == Some(90.0) && ur.wall_duration == Some(100.0)
      && ur.project_name == Some(Default) && ur.vo_info == Slurm.ProjectVo(ctx.projects, Default)
      && ur.start_time == Some(Epoch2IsoTime(Epochs(ctx).1).value)
  {
    var times := Epochs(ctx);
    var jobId := IntToString(n);
    var fqdn := ctx.hostname + ":" + jobId;
    var recordId :- Slurm.RecordId(fqdn, times.1, idtimestamp);
    var vo := Slurm.ProjectVo(ctx.projects, Default);
    var submit :- Epoch2IsoTime(times.0);
    var start :- Epoch2IsoTime(times.1);
    var end :- Epoch2IsoTime(times.2);
    Success(NewUsageRecord().(
      record_id := Some(recordId),
      local_job_id := Some(jobId),
      global_job_id := Some(fqdn),
      local_user_id := Some(Default),
      global_user_name := MapGet(ctx.users, Default),
      machine_name := Some(ctx.hostname),
      queue := Some(Default),
      processors := Some(Int(1)),
      node_count := Some(Int(1)),
      host := Some(ctx.hostname),
      submit_time := Some(submit),
      start_time := Some(start),
      end_time := Some(end),
      cpu_duration := Some(90.0),
      wall_duration := Some(100.0),
      project_name := Some(Default),
      vo_info := vo))
  }

  /** The user noted as missing for job `n`: `default`, once the record
      identifier is made, when the user map has no key for it. */
  function UnmappedUser(ctx: Context, idtimestamp: bool, n: int): set<string> {
    if RecordIdOf(ctx, idtimestamp, n).Success? && Default !in ctx.users then {Default} else {}
  }

  /** How a run numbers its records: the record of job `n` and the user
      it notes, `RecordOf` and `UnmappedUser` for a context and setting. */
  datatype Recorder = Recorder(record: int -> Result<UsageRecord>, unmapped: int -> set<string>)

  function ExampleRecorder(ctx: Context, idtimestamp: bool): Recorder {
    Recorder(n => RecordOf(ctx, idtimestamp, n), n => UnmappedUser(ctx, idtimestamp, n))
  }

  /** What the first `k` passes of the loop have done from counter `state0`:
      the records written, the users missing, the counter, and the exception
      that ended the loop, if one did. */
  datatype Run = Run(written: seq<UsageRecord>, missing: set<string>, state: int, error: Option<Exception>)

  function Generate(rec: Recorder, state0: int, k: nat): Run
    decreases k
  {
    if k == 0 then Run([], {}, state0, None)
    else
      var run := Generate(rec, state0, k - 1);
      if run.error.Some? then run else Pass(rec, run)
  }

  /** One pass: the counter moves on, and the record of the job it numbers
      is written. */
  function Pass(rec: Recorder, run: Run): Run {
    var n := run.state + 1;
    var missing := run.missing + rec.unmapped(n);
    match rec.record(n)
    case Failure(e) => Run(run.written, missing, n, Some(e))
    case Success(ur) => Run(run.written + [ur], missing, n, None)
  }

  /** When every job has a record and notes the same users, `k` passes
      make the records of jobs `state0 + 1` to `state0 + k`, in order, note
      those users, and advance the counter by `k`. */
  lemma {:induction false} GenerateAdvances(rec: Recorder, state0: int, k: nat, users: set<string>)
    requires forall n :: rec.record(n).Success? && rec.unmapped(n) == users
    ensures var run := Generate(rec, state0, k);
      && run.error.None? && run.state == state0 + k && |run.written| == k
      && (forall i :: 0 <= i < k ==> run.written[i] == rec.record(state0 + 1 + i).value)
      && run.missing == if k > 0 then users else {}
    decreases k
  {
    if k > 0 {
      GenerateAdvances(rec, state0, k - 1, users);
      var prev := Generate(rec, state0, k - 1);
      var ur := rec.record(state0 + k).value;
      forall i | 0 <= i < k
        ensures (prev.written + [ur])[i] == rec.record(state0 + 1 + i).value
      {
        if i < k - 1 {
          assert (prev.written + [ur])[i] == prev.written[i];
        }
      }
    }
  }

  /** When the first job has no record, the first pass raises after the
      counter's increment and nothing is written. */
  lemma {:induction false} GenerateFails(rec: Recorder, state0: int, k: nat)
    requires rec.record(state0 + 1).Failure? && k > 0
    ensures Generate(rec, state0, k) == Run([], rec.unmapped(state0 + 1), state0 + 1, Some(rec.record(state0 + 1).error))
    decreases k
  {
    if k > 1 {
      GenerateFails(rec, state0, k - 1);
    }
  }

  /** Every job has a record exactly when the fixed times render, whatever
      its number. */
  lemma ExampleRecords(ctx: Context, idtimestamp: bool)
    ensures Rendered(ctx) <==> forall n :: ExampleRecorder(ctx, idtimestamp).record(n).Success?
  {
    if !Rendered(ctx) {
      assert ExampleRecorder(ctx, idtimestamp).record(0).Failure?;
    }
  }

  /** When they render, every job's record carries its own number as the
      local job id, and the job notes `default` when the user map has no key
      for it, and only then. */
  lemma ExampleNumbered(ctx: Context, idtimestamp: bool)
    requires Rendered(ctx)
    ensures Numbered(ExampleRecorder(ctx, idtimestamp), if Default in ctx.users then {} else {Default})
  {
  }

  /** Every job has a record numbered after the job, noting `users`. */
  ghost predicate Numbered(rec: Recorder, users: set<string>)
  {
    forall n :: rec.record(n).Success? && rec.unmapped(n) == users
      && rec.record(n).value.local_job_id == Some(IntToString(n))
  }

  /** With numbered records, `k` passes number the jobs after the counter. */
  lemma GenerateNumbers(rec: Recorder, state0: int, k: nat, users: set<string>)
    requires Numbered(rec, users)
    ensures var run := Generate(rec, state0, k);
      && run.error.None? && run.state == state0 + k && |run.written| == k
      && (forall i :: 0 <= i < k ==> run.written[i].local_job_id == Some(IntToString(state0 + 1 + i)))
      && run.missing == if k > 0 then users else {}
  {
    GenerateAdvances(rec, state0, k, users);
    var run := Generate(rec, state0, k);
    forall i | 0 <= i < k ensures run.written[i].local_job_id == Some(IntToString(state0 + 1 + i)) {
      assert run.written[i] == rec.record(state0 + 1 + i).value;
    }
  }

  /** A run numbers its five jobs after the counter, moves it on by five and
      notes `default` when the user map has no key for it. */
  lemma FiveJobs(ctx: Context, idtimestamp: bool, state0: int)
    requires Rendered(ctx)
    ensures var run := Generate(ExampleRecorder(ctx, idtimestamp), state0, Passes);
      && run.error.None? && run.state == state0 + 5 && |run.written| == 5
      && (forall i :: 0 <= i < 5 ==> run.written[i].local_job_id == Some(IntToString(state0 + 1 + i)))
      && run.missing == if Default in ctx.users then {} else {Default}
  {
    ExampleNumbered(ctx, idtimestamp);
    GenerateNumbers(ExampleRecorder(ctx, idtimestamp), state0, Passes, if Default in ctx.users then {} else {Default});
  }

  /** One pass of the loop: the record identifier is made first, and when
      that raises so does the record. */
  lemma PassOf(ctx: Context, idtimestamp: bool, n: int)
    ensures ExampleRecorder(ctx, idtimestamp).record(n) == RecordOf(ctx, idtimestamp, n)
    ensures ExampleRecorder(ctx, idtimestamp).unmapped(n) == UnmappedUser(ctx, idtimestamp, n)
    ensures RecordIdOf(ctx, idtimestamp, n).Failure? ==>
      RecordOf(ctx, idtimestamp, n) == Failure(RecordIdOf(ctx, idtimestamp, n).error)
  {
  }

  /** The counter `parseGeneratorState` starts from: the state as an
      integer, or, for an empty or missing state, `statefile_start`, the
      integer 1 when that is not set. `int()` raises ValueError. */
  function StartState(cfg: Ini, state: Option<string>): (r: Result<int>)
    ensures state.Some? && state.value != "" ==>
      (r.Success? <==> ParseInt(state.value).Some?) && (r.Success? ==> r.value == ParseInt(state.value).value)
    ensures r.Failure? ==> r.error == ValueError
  {
    var text := if state.None? || state.value == "" then GetConfigValue(cfg, Section, StateFileStartOption, None) else state;
    if text.None? then Success(DefaultStateFileStart)
    else if ParseInt(text.value).None? then Failure(ValueError)
    else Success(ParseInt(text.value).value)
  }

  /** Without a state or `statefile_start`, counting starts at 1. */
  lemma StartStateDefault(cfg: Ini, state: Option<string>)
    requires state.None? || state.value == ""
    requires Section !in cfg || StateFileStartOption !in cfg[Section]
    ensures StartState(cfg, state) == Success(1)
  {
  }

  /** The `Example` generator. */
  class ExampleGenerator {
    var cfg: Ini
    var state: Option<int>
    var idtimestamp: bool
    var missing_user_mappings: set<string>

    /** `__init__`: `idtimestamp` is read as a boolean, `false` by default. */
    constructor (mode: Mode, cfg: Ini)
      requires GetConfigValueBool(mode, cfg, Section, IdTimestampOption, Some(DefaultIdTimestamp)).Success?
      ensures this.cfg == cfg && state.None? && missing_user_mappings == {}
      ensures idtimestamp == GetConfigValueBool(mode, cfg, Section, IdTimestampOption, Some(DefaultIdTimestamp)).value
    {
      this.cfg := cfg;
      state := None;
      missing_user_mappings := {};
      idtimestamp := GetConfigValueBool(mode, cfg, Section, IdTimestampOption, Some(DefaultIdTimestamp)).value;
    }

    /** `getStateFile`: the `statefile` option, `example.state` by default. */
    function GetStateFile(): (f: string)
      reads this
      ensures Section !in cfg || StateFileOption !in cfg[Section] ==> f == "example.state"
      ensures Section in cfg && StateFileOption in cfg[Section] ==> f == cfg[Section][StateFileOption]
    {
      GetConfigValue(cfg, Section, StateFileOption, Some(DefaultStateFile)).value
    }

    /** `generateUsageRecords`: five passes, each moving the counter on by one
        and writing the record of the job it numbers. */
    method GenerateUsageRecords(ctx: Context) returns (written: seq<UsageRecord>, error: Option<Exception>)
      requires state.Some?
      modifies this
      ensures cfg == old(cfg) && idtimestamp == old(idtimestamp) && state.Some?
      ensures Run(written, missing_user_mappings, state.value, error) == Generate(ExampleRecorder(ctx, idtimestamp), old(state).value, Passes)
    {
      ghost var state0 := state.value;
      missing_user_mappings := {};
      written := [];
      for count := 1 to Passes + 1
        invariant state.Some? && cfg == old(cfg) && idtimestamp == old(idtimestamp)
        invariant Run(written, missing_user_mappings, state.value, None) == Generate(ExampleRecorder(ctx, idtimestamp), state0, count - 1)
      {
        written, error := RunPass(ctx, written);
        if error.Some? {
          return written, error;
        }
      }
      return written, None;
    }

    /** The body of `generateUsageRecords`' loop. */
    method RunPass(ctx: Context, written0: seq<UsageRecord>) returns (written: seq<UsageRecord>, error: Option<Exception>)
      requires state.Some?
      modifies this
      ensures cfg == old(cfg) && idtimestamp == old(idtimestamp) && state.Some?
      ensures Run(written, missing_user_mappings, state.value, error) ==
        Pass(ExampleRecorder(ctx, idtimestamp), Run(written0, old(missing_user_mappings), old(state).value, None))
    {
      written := written0;
      state := Some(state.value + 1);
      PassOf(ctx, idtimestamp, state.value);
      var recordId := RecordIdOf(ctx, idtimestamp, state.value);
      if recordId.Failure? {
        assert missing_user_mappings + {} == missing_user_mappings;
        return written, Some(recordId.error);
      }
      if Default !in ctx.users {
        missing_user_mappings := missing_user_mappings + {Default};
      } else {
        assert missing_user_mappings + {} == missing_user_mappings;
      }
      var ur := RecordOf(ctx, idtimestamp, state.value);
      if ur.Failure? {
        return written, Some(ur.error);
      }
      written := written + [ur.value];
      error := None;
    }

    /** `parseGeneratorState` */
    method ParseGeneratorState(stateIn: Option<string>) returns (r: Result<()>)
      modifies this
      ensures var s := StartState(cfg, stateIn);
        if s.Success? then r == Success(()) && state == Some(s.value) else r == Failure(s.error) && state == old(state)
      ensures cfg == old(cfg) && idtimestamp == old(idtimestamp) && missing_user_mappings == old(missing_user_mappings)
    {
      var s := StartState(cfg, stateIn);
      if s.Failure? {
        return Failure(s.error);
      }
      state := Some(s.value);
      return Success(());
    }

    /** `createGeneratorState`: `str` of the counter, which `int()` reads
        back as the counter. */
    function CreateGeneratorState(): (r: string)
      reads this
      requires state.Some?
      ensures ParseInt(r) == Some(state.value)
    {
      ParseIntToString(state.value);
      IntToString(state.value)
    }
  }

  /** The state written is read back as the counter it was made from. */
  lemma StateRoundTrip(cfg: Ini, n: int)
    ensures StartState(cfg, Some(IntToString(n))) == Success(n)
  {
    ParseIntToString(n);
  }
}
