# BaRT usage-record generation, modelled in Dafny

BaRT (the Batch system Reporting Tool of SGAS) reads the accounting logs of a batch
system and turns each finished job into an OGF Usage Record:

- Backends exist for Torque, Maui, Slurm, SGE, and an example backend that makes up
  jobs.
- Each record is encoded as an XML tree.
- A decoder (`xmlToDict`) and a verifier read such trees back.
- A resume state file records how far each backend has read.

This project is a model of that core, one Dafny module per source file:

| module | models |
|---|---|
| `Common` | `bart/common.py` |
| `Config` | `bart/config.py` |
| `UsageRecords` | `bart/usagerecord/usagerecord.py` |
| `UrElements` | `bart/usagerecord/urelements.py` |
| `UrParser` | `bart/usagerecord/urparser.py` |
| `UrVerify` | `bart/usagerecord/verify.py` |
| `IsoDuration` | `bart/ext/isodate/isoduration.py` |
| `Slurm` | `bart/slurm.py` |
| `Torque` | `bart/torque.py` |
| `Maui` | `bart/maui.py` |
| `Example` | `bart/example.py` |
| `Sge` | `sge.py` |

The modules `Wrappers`, `Text`, `Numerals` and `Calendar` model the parts of Python and its
standard library that the core relies on:

- `Result` for exceptions;
- `str.split`, `strip`, `replace`, `lower`;
- `int()`, `float()`, `str()`;
- `time.gmtime`, `strftime`, `strptime`, and date arithmetic.

`RoundTrip` connects the encoder to the decoder and the verifier.

The model's main choices:

- **Exceptions.** A Python exception is a `Failure(kind)` of `Wrappers.Result`. In the `AsWritten` mode, code paths that crash in the source crash in the model too. The `Intended` mode repairs the defects listed under "## Findings", and those paths then go on as the source evidently meant.
- **Stateful objects are classes.** The log parsers, the generators and `BartMapFile` are classes whose methods update their fields: cursor, open file, state, missing user mappings. Their loops are `while` loops, each proved against a function that states the run's result: `DayLoop`, `DayRun`, `Drive`, `RunRows`, `Jobs`, `NormaliseKeys`.
- **Records are values.** A usage record is a datatype, because the backends fill it once and the encoder only reads it.
- **Source defects.** Where the source has a defect, the function involved takes a `Mode`:
  - `AsWritten` is the code as it stands.
  - `Intended` is the evident intention.

  Both are proved about; see "## Findings".

## Model

| member | source | states |
|---|---|---|
| Wrappers.ConcatMapSnoc | bart/slurm.py:119-134 | an element whose result succeeds extends a successful concatenation of results |
| Wrappers.ConcatMapFails | bart/slurm.py:119-134 | the first failing element decides the result of the whole loop |
| Wrappers.ConcatMapAppend | bart/slurm.py:119-134 | successful results concatenate over an append of the inputs |
| Wrappers.ConcatMapError | bart/slurm.py:119-134 | when every failure of the loop body is one exception, so is every failure of the loop |
| Wrappers.FirstPast | bart/torque.py:83-87 | the position just past the first element that passes the test, with no earlier element passing it, or the length when none does (used by both `spoolToEntry` loops) |
| Text.TrimLeft | bart/config.py:119 | `lstrip` removes exactly the leading whitespace |
| Text.TrimRight | bart/config.py:119 | `rstrip` removes exactly the trailing whitespace |
| Text.StripUnchanged | bart/common.py:31-42 | a string without surrounding whitespace is its own `strip()` |
| Text.RStripChar | bart/slurm.py:124 | `rstrip(']')` removes every trailing `]` and nothing else |
| Text.RemoveChar | bart/slurm.py:160-166 | no `c` remains, every character left comes from the text, and text without `c` is unchanged |
| Text.ReplaceChar | bart/slurm.py:160-166 | `replace(a, b)` changes every `a` to `b` and nothing else |
| Text.Lower | bart/config.py:62-75 | `lower()` maps ASCII upper case to lower case, character by character |
| Text.SplitOn | bart/slurm.py:115 | `split(sep)` always yields at least one piece |
| Text.JoinSplitOn | sge.py:26 | joining the pieces of a split with the separator gives back the string |
| Text.SplitOnAbsent | bart/slurm.py:114-117 | without the separator, a split yields the whole string |
| Text.SplitPiecesFree | sge.py:26 | no piece of a one-character split holds the separator |
| Text.SplitJoin | sge.py:26 | splitting a join of separator-free pieces gives back the pieces |
| Text.RemoveCharAppend | bart/slurm.py:160-166 | `replace(c, '')` works piece by piece over a concatenation |
| Text.SplitFirstPrefix | bart/common.py:65 | the first piece of a split is a prefix of the string |
| Numerals.DigitsValueAppend | bart/torque.py:132 | reading a concatenation of digit strings shifts the left part by the right part's length |
| Numerals.DigitsValueLeadingZeros | bart/slurm.py:129-130 | leading zeros do not change the value of a numeral |
| Numerals.NatToString | bart/usagerecord/usagerecord.py:98-99 | `str(n)` is a digit string whose value is n; it starts with `0` only for n = 0 and has one digit exactly when n < 10 |
| Numerals.IntToStringNumeral | bart/example.py:70-75 | `str(i)` starts with `-` exactly when i is negative; the rest is a numeral of the magnitude of i that has no leading zero unless it is `0` |
| Numerals.ParseIntToString | bart/example.py:111-125 | `int(str(i)) == i` for every integer i |
| Numerals.ParseIntNegative | bart/example.py:111-125 | `int()` of a `-` before a digit string is the negated value |
| Numerals.ParseIntDigits | bart/torque.py:132 | `int(s)` of a digit string is its value |
| Numerals.ZeroPad | bart/slurm.py:130 | the text preceded by as many zeros as bring it to width `w`, none when it is already as wide |
| Numerals.ZeroPadValue | bart/slurm.py:130 | a zero-padded numeral still denotes its number |
| Numerals.DecimalValueWhole | bart/maui.py:123-133 | a decimal without fraction digits is its whole part |
| Numerals.IndexOf | bart/common.py:65 | the position of the first `c` in `s`, or the length of `s` when `c` is missing |
| Numerals.ParseFloatUnsigned | bart/maui.py:123-133 | text that starts with a digit and has no surrounding space has no sign |
| Numerals.ParseFloatDigits | sge.py:40 | `float(s)` of a digit string is its value |
| Numerals.IndexOfAfter | bart/common.py:65 | the first `c` of `a + b` lies in `b` when `a` holds none |
| Numerals.ParseFloatDecimal | sge.py:40 | `float(w + "." + f)` of two digit strings is the decimal they spell |
| Calendar.NextDay | bart/common.py:19-29 | the next calendar day, with none after 9999-12-31, where Python raises OverflowError |
| Calendar.YearOf | bart/common.py:19-29 | a year from y on and an offset within it whose day number is that of y plus n |
| Calendar.MonthOf | bart/common.py:19-29 | a month from m on whose days contain the offset |
| Calendar.DateOfDayNumber | bart/common.py:19-29 | the date with a given day number is a valid date with that number |
| Calendar.DateOfDayNumberOf | bart/common.py:19-29 | day numbers and dates are in one-to-one correspondence |
| Calendar.DayNumberInjective | bart/common.py:19-29 | distinct valid dates have distinct day numbers |
| Calendar.GmTime | bart/usagerecord/usagerecord.py:188-190 | a time `gmtime` gives is a valid time without a leap second |
| Calendar.GmTimeInverse | bart/usagerecord/usagerecord.py:188-190 | the epoch of `gmtime(t)` is t |
| Calendar.TimeGmInverse | bart/torque.py:289 | `gmtime` of the epoch of a valid time gives back that time |
| Calendar.FieldAlts | bart/common.py:72-78 | each alternative's value lies in the directive's range |
| Calendar.FieldAltsConsume | bart/common.py:72-78 | every alternative reads a non-empty prefix without a `:` |
| Calendar.MatchFormat | bart/common.py:72-78 | every value a match reads lies in its directive's range and belongs to a directive of the format |
| Calendar.MatchFormatColons | bart/common.py:72-78 | a match needs at least as many `:` in the input as the format has |
| Calendar.Strptime | bart/common.py:72-78 | a success is a valid time; every failure is ValueError |
| Calendar.Pad2IsZeroPad | bart/usagerecord/usagerecord.py:184-185 | `%02d` is the numeral zero-padded to width two |
| Calendar.Strftime | bart/usagerecord/usagerecord.py:184-185 | succeeds exactly for years from 1900 on |
| Calendar.FormatItemsChars | bart/usagerecord/usagerecord.py:184-185 | `strftime` writes only digits and the format's own literal characters |
| Calendar.FieldAltsFirst | bart/common.py:85-91 | every zero-padded directive text is read back by the first alternative of its pattern |
| Calendar.StrptimeStrftime | bart/common.py:85-91 | what `strftime` writes, `strptime` reads back, when the omitted directives are at their defaults |
| Common.GetSeconds | bart/common.py:59-83 | a failure is ValueError and needs a `-` in the text before the `.`; without `-` the result is a number of seconds or -1 |
| Common.GetSecondsDropsFraction | bart/common.py:65 | a fraction after the first `.` does not change the result |
| Common.ClockFormatFields | bart/common.py:72-78 | `%H:%M:%S` and `%M:%S` have distinct directives and only `:` literals |
| Common.GetSecondsHms | bart/common.py:72-74 | `H:M:S` gives H·3600 + M·60 + S |
| Common.GetSecondsMs | bart/common.py:76-78 | `M:S` gives M·60 + S |
| Common.GetSecondsFallback | bart/common.py:79-81 | a text `%H:%M:%S` refuses but `%M:%S` reads as M:S gives M·60 + S |
| Common.GetSecondsDays | bart/common.py:67-70 | `d-H:M:S` gives d·86400 + H·3600 + M·60 + S |
| Common.GetIncrementalDateNext | bart/common.py:19-29 | for a `%Y%m%d`-like format the next date string is that of the next calendar day; OverflowError after 9999-12-31 |
| Common.GetIncrementalDate | bart/common.py:19-29 | a date `strptime` refuses raises its error; a next date exists only for a readable date whose next day exists |
| Common.DatetimeFromIsoStr | bart/common.py:85-91 | a success is a valid time without a leap second; every failure is ValueError |
| Common.DatetimeFromIsoStrFormat | bart/common.py:85-91 | an ISO timestamp, with or without fraction, is read back as the time it denotes |
| Common.ReadGeneratorState | bart/common.py:31-42 | no state exactly when there is no state file |
| Common.ReadWrittenState | bart/common.py:31-57 | a state written as one unpadded line is read back unchanged |
| Config.GetConfigValueBool | bart/config.py:60-77 | a missing option without default raises AttributeError; the only other failure is NameError as written; as intended a present value always gives a boolean |
| Config.GetConfigValue | bart/config.py:49-56 | the option's value when the file has both the section and the option, the default otherwise |
| Config.BoolWords | bart/config.py:62-65 | a set option that is a boolean word, in any case, is read as that word |
| Config.BoolDefault | bart/config.py:61 | a missing option is read as its default |
| Config.BoolInvalid | bart/config.py:66-77 | an option that is no boolean word raises NameError as written, and gives the default as intended |
| Config.CheckDeclared | bart/config.py:83-101 | the first loop of `validate` passes exactly when every declared option is acceptable |
| Config.CheckOptions | bart/config.py:104-107 | the second loop passes exactly when every option of the section is declared |
| Config.Validate | bart/config.py:80-109 | the result of both loops is `ValidSection`, stated over the declared options and the section's options |
| Config.LastIndex | bart/config.py:122-125 | the position of the last `c`, so no `c` follows it |
| Config.MapLineGroupsOf | bart/config.py:122-125 | a line `k"v"tail`, its value and tail free of `"`, yields `k` and `v` |
| Config.MapLineMatches | bart/config.py:122-125 | a line matches the map-file pattern exactly when it holds at least two `"` |
| Config.LoadLinesLast | bart/config.py:115-133 | a key is mapped exactly when some line names it, to the value of the last such line |
| Config.BartMapFile.constructor | bart/config.py:112-113 | a new map file is empty |
| Config.BartMapFile.Load | bart/config.py:115-133 | `load` clears the map, then reads the lines in order |
| Config.MapGet | bart/config.py:138-142 | `get` gives None for a key that is absent or mapped to `-`, and the mapped value otherwise |
| Config.BartMapFile.GetMapping | bart/config.py:135-136 | the whole map: a key has a name in it exactly when `get` gives that name |
| Config.BartMapFile.Get | bart/config.py:138-142 | None for a key the file does not name and for one mapped to `-`, else the mapped name |
| Config.GetAfterLoad | bart/config.py:115-142 | after `load`, `get` answers the last line's value for the key, or None |
| Config.SuppressedLine | bart/config.py:128-129 | a `key "-"` line keeps the key in the mapping, mapped to None |
| UsageRecords.NewVOInformation | bart/usagerecord/usagerecord.py:46-52 | a VO block holds the given name, type and issuer and no attributes |
| UsageRecords.NewUsageRecord | bart/usagerecord/usagerecord.py:58-88 | a new record has every field unset and no VO blocks or runtime environments |
| UsageRecords.Epoch2IsoTime | bart/usagerecord/usagerecord.py:188-190 | succeeds exactly when `gmtime` gives a time from 1900 on, and is that time's ISO text with `Z` |
| UsageRecords.Gm2IsoTime | bart/usagerecord/usagerecord.py:184-185 | succeeds exactly for years from 1900 on |
| UsageRecords.RoundHalfEven | bart/usagerecord/usagerecord.py:156-160 | an integer within one half of the value |
| UsageRecords.Fixed6Parts | bart/usagerecord/usagerecord.py:156-160 | `%f` text is the integer digits, a `.` and six digits: the rounded fraction in millionths |
| UsageRecords.MicrosExact | bart/usagerecord/usagerecord.py:156-160 | a whole number of millionths is read back exactly |
| UsageRecords.EncodeRecord | bart/usagerecord/usagerecord.py:91-172 | AssertionError exactly without a record id; otherwise a `JobUsageRecord` tree whose first child is the record identity and whose last is the logger name |
| UsageRecords.GenerateTree | bart/usagerecord/usagerecord.py:91-172 | the tree built child by child is `EncodeRecord`'s |
| UsageRecords.BuildUserIdentity | bart/usagerecord/usagerecord.py:117-141 | the `UserIdentity` part `UserIdentityPart` describes, its VO blocks appended in a loop |
| UsageRecords.BuildRuntimeEnvironments | bart/usagerecord/usagerecord.py:164-165 | one `RuntimeEnvironment` element per entry, in order |
| UsageRecords.BuildVo | bart/usagerecord/usagerecord.py:125-141 | one `VO` block, its attributes appended in a loop |
| IsoDuration.DigitRun | bart/ext/isodate/isoduration.py:37-44 | the length of the run of digits that starts the text |
| IsoDuration.MatchTime | bart/ext/isodate/isoduration.py:37-44 | one group per clock designator, all absent when there is no `T` |
| IsoDuration.MatchPeriod | bart/ext/isodate/isoduration.py:37-44 | a match has four date groups and three clock groups |
| IsoDuration.TakeComponentText | bart/ext/isodate/isoduration.py:37-44 | a component is read back whole, and only with its own designator |
| IsoDuration.CompsTextNoTake | bart/ext/isodate/isoduration.py:37-44 | no later component can be taken with an earlier designator |
| IsoDuration.MatchPeriodText | bart/ext/isodate/isoduration.py:37-44 | every text of the grammar is matched as the period it spells, with or without a final newline |
| IsoDuration.MatchPeriodSound | bart/ext/isodate/isoduration.py:37-44 | whatever the matcher accepts is a text of the grammar |
| IsoDuration.NormaliseKeys | bart/ext/isodate/isoduration.py:80-85 | a failure of the loop over the groups is ValueError |
| IsoDuration.NormaliseGroups | bart/ext/isodate/isoduration.py:80-85 | the loop, updating the dictionary in place, is what `NormaliseKeys` states |
| IsoDuration.ComponentReplaced | bart/ext/isodate/isoduration.py:80-85 | `float` reads a component text with its designator cut off and a `,` turned into `.` |
| IsoDuration.ComponentFloat | bart/ext/isodate/isoduration.py:80-85 | `,` and `.` both separate the fraction, and `float` reads every group as its value |
| IsoDuration.NormaliseKeysValues | bart/ext/isodate/isoduration.py:80-85 | when every text is a float, the loop converts exactly the visited keys |
| IsoDuration.GroupDictFloats | bart/ext/isodate/isoduration.py:76-85 | every numeric group of a match reads as a float |
| IsoDuration.NormaliseGroupDict | bart/ext/isodate/isoduration.py:76-85 | after the loop every numeric group holds its value; `sign` and `separator` keep their text |
| IsoDuration.FromMicros | bart/ext/isodate/isoduration.py:88-90 | a normalised timedelta of that many microseconds; OverflowError beyond 999999999 days |
| IsoDuration.FromMicrosTotal | bart/ext/isodate/isoduration.py:88-90 | a normal timedelta is determined by its length |
| IsoDuration.WholeSecondsOf | bart/ext/isodate/isoduration.py:88-90 | the days and seconds of a timedelta are its length in whole seconds, rounded down |
| IsoDuration.RoundHalfAway | bart/ext/isodate/isoduration.py:88-90 | the nearest integer, with halfway values going away from zero |
| IsoDuration.DurationOfGroups | bart/ext/isodate/isoduration.py:87-92 | a success is a normal timedelta; failures are ValueError or OverflowError |
| IsoDuration.ParseDuration | bart/ext/isodate/isoduration.py:47-97 | ValueError when the text does not match; a success is a normal timedelta; failures are ValueError or OverflowError |
| IsoDuration.ParseDurationText | bart/ext/isodate/isoduration.py:47-97 | ValueError exactly when years or months are non-zero; otherwise, within range, a timedelta of the period's length |
| IsoDuration.SameTotal | bart/ext/isodate/isoduration.py:88-90 | two normal timedeltas of the same length are equal |
| IsoDuration.ParseDurationPlus | bart/ext/isodate/isoduration.py:91-92 | a `+` sign changes nothing |
| IsoDuration.ParseDurationMinus | bart/ext/isodate/isoduration.py:91-92 | a `-` sign negates the duration whenever both parse |
| IsoDuration.ParseDurationEmpty | bart/ext/isodate/isoduration.py:47-97 | `P` and `PT` are the zero duration |
| UrParser.Logged | bart/usagerecord/urparser.py:28 | a logging call raises TypeError as written, and returns the fallback as intended |
| UrParser.TextValue | bart/usagerecord/urparser.py:124-147 | None exactly when the element has no text |
| UrParser.ParseBoolean | bart/usagerecord/urparser.py:22-29 | `1` or `true` (any case) is True, `0` or `false` False; other text is reported; a missing text fails on `.lower()` |
| UrParser.ParseIntValue | bart/usagerecord/urparser.py:32-37 | `int(None)` raises TypeError; text that is no integer is reported; a value is the integer the text spells |
| UrParser.ParseFloatValue | bart/usagerecord/urparser.py:40-45 | `float(None)` raises TypeError; text that is no number is reported; a value is the number the text spells |
| UrParser.ParseIsoDurationValue | bart/usagerecord/urparser.py:48-54 | the duration's whole seconds; ValueError is reported, OverflowError passes on, a missing text raises TypeError |
| UrParser.ParseDateTime | bart/usagerecord/urparser.py:59 | a success is a valid time without a leap second; every failure is ValueError |
| UrParser.ParseDateTimeIso | bart/usagerecord/urparser.py:59 | a timestamp the encoder writes is read back as that time |
| UrParser.ParseIsoDateTime | bart/usagerecord/urparser.py:57-66 | a missing text raises AttributeError; a time from 1900 on becomes its `YYYY MM DD HH:MM:SS` text; any other text is reported |
| UrParser.ParseIsoDateTimeIso | bart/usagerecord/urparser.py:57-66 | an encoded timestamp decodes to the same time in the dictionary's format |
| UrParser.Append | bart/usagerecord/urparser.py:147 | `setdefault(k, []).append(v)` adds v at the end of k's list and leaves the other keys alone |
| UrParser.IdentityStep | bart/usagerecord/urparser.py:89-91 | a `RecordIdentity` whose time decodes sets `record_id` and `create_time` and nothing else |
| UrParser.FoldNodeCount | bart/usagerecord/urparser.py:197-199 | when only `node_count` is present it moves to `processors` |
| UrParser.InsertKeys | bart/usagerecord/urparser.py:81-86 | the `insert_*` keys are set for exactly the arguments that are not None; ValueError for an insert time `strftime` refuses |
| UrParser.XmlToDict | bart/usagerecord/urparser.py:69-201 | AssertionError unless the root is a `JobUsageRecord` |
| UrParser.TransferFoldFails | bart/usagerecord/urparser.py:157-170 | a failure part-way through a transfer loop is the failure of the loop |
| UrParser.DecodeJobIdentity | bart/usagerecord/urparser.py:92-96 | the loop over `JobIdentity` children is what the spec fold states |
| UrParser.DecodeVoAttribute | bart/usagerecord/urparser.py:110-117 | the loop over an `Attribute`'s children fills a fresh dictionary as the spec fold states |
| UrParser.DecodeVo | bart/usagerecord/urparser.py:102-121 | one `VO` element decoded as the spec fold states |
| UrParser.DecodeUserIdentity | bart/usagerecord/urparser.py:98-122 | the loop over `UserIdentity` children is what the spec fold states |
| UrParser.DecodeTransfer | bart/usagerecord/urparser.py:155-187 | the loop over a download's or upload's children is what the spec fold states |
| UrParser.DecodeFileTransfers | bart/usagerecord/urparser.py:153-187 | the loop over `FileTransfers` children is what the spec fold states |
| UrParser.DecodeElement | bart/usagerecord/urparser.py:88-190 | one child of the record decoded as the spec step states |
| UrParser.XmlToDictLoop | bart/usagerecord/urparser.py:69-201 | the dictionary filled child by child is `XmlToDict`'s |
| UrParser.StepFrame | bart/usagerecord/urparser.py:88-190 | each recognised element writes only its own keys |
| UrParser.LastOf | bart/usagerecord/urparser.py:89-90 | a child with the tag, and none exactly when no child has it |
| UrParser.ChildrenRecordIdValue | bart/usagerecord/urparser.py:88-91 | `record_id` is the `recordId` of the last `RecordIdentity` child |
| UrParser.XmlToDictRecordIdValue | bart/usagerecord/urparser.py:69-201 | the decoded `record_id` is that of the last `RecordIdentity`; there is none without one |
| UrParser.XmlToDictInserts | bart/usagerecord/urparser.py:81-86 | no element writes the `insert_*` keys |
| UrParser.StepRuntime | bart/usagerecord/urparser.py:147 | what one child adds to `runtime_environments` |
| UrParser.ChildrenRuntime | bart/usagerecord/urparser.py:147 | `runtime_environments` gets the `RuntimeEnvironment` texts in document order |
| UrParser.FileTransferFoldItems | bart/usagerecord/urparser.py:153-187 | downloads and uploads keep those collected and gain one per `FileDownload` or `FileUpload` child |
| UrParser.VoFoldValues | bart/usagerecord/urparser.py:105-119 | `vo_name` and `vo_issuer` hold the last such child's text; one dictionary per `Attribute` |
| UrParser.VoBlockValues | bart/usagerecord/urparser.py:102-121 | `vo_type` is set from the attribute; `vo_attrs` only when an `Attribute` exists |
| UrParser.XmlToDictAgrees | bart/usagerecord/urparser.py:69-201 | whatever the as-written decoder decodes, the intended one decodes to the same dictionary |
| UrVerify.Verify | bart/usagerecord/verify.py:12-19 | acceptance needs a `JobUsageRecord` root and a `RecordIdentity` child |
| UrVerify.VerifyAccepts | bart/usagerecord/verify.py:12-19 | accepted exactly when the record decodes and its last `RecordIdentity` has a `recordId` |
| UrVerify.VerifyNoRecordIdentity | bart/usagerecord/verify.py:12-19 | without `RecordIdentity` the lookup raises KeyError and the record is rejected |
| UrVerify.VerifyWrongRoot | bart/usagerecord/verify.py:12-19 | a root other than `JobUsageRecord` is rejected |
| UrVerify.VerifyWellFormed | bart/usagerecord/verify.py:12-19 | a decodable record whose every `RecordIdentity` has a `recordId` is accepted |
| UrVerify.VerifyModes | bart/usagerecord/verify.py:12-19 | what the as-written verifier accepts, the intended one accepts too |
| UrVerify.MinimalRecordAccepted | bart/usagerecord/verify.py:12-19 | a record holding only an identity with a valid creation time is accepted in both modes |
| UrVerify.WarnedAfterIdentity | bart/usagerecord/urparser.py:141-142 | an identity followed by a `KSI2K` element is rejected as written and accepted as intended |
| UrVerify.Ksi2kRejectedAsWritten | bart/usagerecord/urparser.py:141-142 | the as-written decoder turns its `KSI2K` warning into TypeError and rejects the record |
| RoundTrip.DurationTextPeriod | bart/usagerecord/usagerecord.py:156-160 | the `PT%fS` text is the text of a seconds-only period naming exactly the printed microseconds |
| RoundTrip.DurationDecodes | bart/usagerecord/urparser.py:48-54 | an encoded non-negative duration decodes to the whole seconds of the printed value |
| RoundTrip.IntDecodes | bart/usagerecord/urparser.py:32-37 | an encoded integer decodes to itself |
| RoundTrip.ChildrenAppend | bart/usagerecord/urparser.py:88 | the loop over `a + b` is the loop over `b` after the loop over `a` |
| RoundTrip.LastOfAppend | bart/usagerecord/urparser.py:89-90 | children after the last one with a tag do not change which one is last |
| RoundTrip.AcceptedShape | bart/usagerecord/verify.py:12-19 | an identity with both attributes first, then decodable children: accepted |
| RoundTrip.EncodedRecordVerifies | bart/usagerecord/usagerecord.py:91-172 | every record the encoder writes, durations in range, is accepted by the verifier as intended |
| Slurm.RangeNames | bart/slurm.py:129-130 | one name per number from a to b, none when b < a |
| Slurm.RangeNamesNumbers | bart/slurm.py:127-130 | each name is the prefix and a numeral of at least the width for its number |
| Slurm.SplitTwo | bart/slurm.py:121 | text holding the separator splits into at least two pieces |
| Slurm.GetNodes | bart/slurm.py:101-136 | the loops compute `Nodes`, the declarative expansion |
| Slurm.AppendRange | bart/slurm.py:127-130 | the `range` loop appends exactly the padded names of `lo` to `hi`, in order |
| Slurm.Nodes | bart/slurm.py:101-136 | only an `int()` of a range bound can fail, and then with ValueError |
| Slurm.ExpandGroup | bart/slurm.py:118-134 | a group without `[` is its one name; a failure is ValueError |
| Slurm.ExpandItem | bart/slurm.py:122-131 | an item without `-` (after its `]` are stripped) is the prefix and the item; a failure is ValueError |
| Slurm.ExpandElement | bart/slurm.py:120-134 | the loop over one group computes `ExpandGroup` |
| Slurm.ExpandSequence | bart/slurm.py:124-132 | the loop over one bracket item computes `ExpandItem` |
| Slurm.PlainNode | bart/slurm.py:114-117 | a list without `[` and without `],` is its one node |
| Slurm.RangeItem | bart/slurm.py:125-130 | `a-b` names every number from a to b padded to the width of `a` |
| Slurm.SingleItem | bart/slurm.py:131-132 | an item without `-` is the prefix and the item, trailing `]` removed |
| Slurm.BracketGroup | bart/slurm.py:120-132 | `prefix[items` is each comma-separated item's expansion with that prefix, in order |
| Slurm.DeclaredUntyped | bart/slurm.py:37-42 | as written no declared option has a type, so `validate` only checks presence and declaration |
| Slurm.MaxDaysTypeIgnored | bart/slurm.py:41 | a `max_days` that is no integer passes `validate` as written and is refused as intended |
| Slurm.EntryFieldsJoin | bart/slurm.py:83 | as intended, the fields joined with `|` give back the row |
| Slurm.LastFieldCut | bart/slurm.py:83 | as written, the last field of a row loses its last character |
| Slurm.SlurmBackend.constructor | bart/slurm.py:50-76 | the window end, and the output lines less the header line |
| Slurm.SlurmBackend.GetNextLogEntry | bart/slurm.py:79-85 | the fields of the first remaining row, which is removed; None when none is left |
| Slurm.QueryEnd | bart/slurm.py:52-58 | the window end is a valid time without a leap second |
| Slurm.CappedEnd | bart/slurm.py:56-58 | the capped end is never after now and at most `max_days` days after the state |
| Slurm.QueryEndBounds | bart/slurm.py:52-58 | the window never ends after now and spans at most `max_days` days when that is positive |
| Slurm.QueryEndUncapped | bart/slurm.py:52-55 | without a positive `max_days` the window ends now |
| Slurm.CompactTimeDigits | bart/slurm.py:160-166 | only the digits remain of a time `epoch2isoTime` writes |
| Slurm.JobOf | bart/slurm.py:138-169 | no job exactly when the row has an empty UID or partition |
| Slurm.RecordId | bart/slurm.py:160-166 | the qualified job id, with `:` and the compact start time when `idtimestamp` is set |
| Slurm.ProjectVo | bart/slurm.py:171-178 | one block exactly when the project map names a VO for the account; its type is set only on a field the encoder does not read |
| Slurm.JobFields | bart/slurm.py:147-157 | a row that yields a job has its fields where the `sacct` format puts them |
| Slurm.JobRecordFields | bart/slurm.py:181-198 | node count and hosts from the expanded node list; processors and the user name as given |
| Slurm.ProjectVoUntyped | bart/slurm.py:171-178 | the VO block is written without a `type` attribute |
| Slurm.UnmappedUser | bart/slurm.py:168-169 | at most one user is noted |
| Slurm.UnmappedUserOf | bart/slurm.py:138-169 | a user is noted exactly when the row reads as a job whose user has no key in the user map, and that user is the `getpwuid` name of the row's uid |
| Slurm.RunRowsStops | bart/slurm.py:211-221 | after an exception, later rows change nothing |
| Slurm.RunRowsWritten | bart/slurm.py:211-221 | no exception exactly when every row's record can be made; the records are written in order |
| Slurm.SlurmGenerator.constructor | bart/slurm.py:94-96 | `idtimestamp` is read as a boolean, `true` by default |
| Slurm.SlurmGenerator.CreateUsageRecord | bart/slurm.py:138-200 | the record of a row, and the user noted when unmapped |
| Slurm.SlurmGenerator.GenerateUsageRecords | bart/slurm.py:202-227 | the rows of the window are turned into written records; the state becomes the window end |
| Slurm.SlurmGenerator.WriteRecords | bart/slurm.py:211-221 | rows are read until none is left, each row's record written and counted |
| Slurm.SlurmGenerator.ParseGeneratorState | bart/slurm.py:229-240 | the state becomes `StartState`'s result; a failure leaves it unchanged |
| Slurm.SlurmGenerator.CreateGeneratorState | bart/slurm.py:242-243 | the state written is the generator's own `state`: when that is not empty, the next `parseGeneratorState` starts from it at any clock reading |
| Slurm.StartState | bart/slurm.py:229-240 | a non-empty state is kept as given |
| Torque.StartFields | bart/torque.py:47-53 | the start fields are exactly `entrytype`, `jobid` and `user` |
| Torque.AddTokens | bart/torque.py:55-59 | the tokens only add keys |
| Torque.LineEntry | bart/torque.py:46-61 | an entry has `entrytype`, `jobid` and `user`; a short start token raises IndexError |
| Torque.AddTokensLookup | bart/torque.py:50-59 | a key holds the value of the last token that has it, or the start fields' value |
| Torque.TokenPairKeepsValue | bart/torque.py:56-59 | `k=v` with a key free of `=` maps k to v, whatever `=` the value holds |
| Torque.StartFieldsOf | bart/torque.py:47-53 | an `E` line has its type, job id and user where `splitLineEntry` looks |
| Torque.NextLogLine | bart/torque.py:64-73 | the cursor moves forward and stays put only at the end; failures are IndexError |
| Torque.NextLogLineReads | bart/torque.py:64-73 | every line read but the last is one read past |
| Torque.NextLogEntry | bart/torque.py:76-80 | the cursor moves as `NextLogLine`'s; an entry has a `jobid`; none exactly at the end |
| Torque.SpoolTo | bart/torque.py:83-87 | the cursor moves forward within the file; failures are IndexError |
| Torque.LogEntries | bart/torque.py:76-80 | every entry has a `jobid` |
| Torque.NoEntryAtEnd | bart/torque.py:64-73 | in a file without empty lines, none is left once the search comes back empty |
| Torque.SpoolLeavesRest | bart/torque.py:83-87 | spooling leaves exactly the entries after the first with the id, or none |
| Torque.TorqueLogParser.constructor | bart/torque.py:37-39 | a parser of the file, not yet opened |
| Torque.TorqueLogParser.OpenFile | bart/torque.py:42-43 | the file is opened at its first line; IOError when it is missing |
| Torque.TorqueLogParser.ReadLine | bart/torque.py:69-71 | the next line, or the empty string at the end |
| Torque.TorqueLogParser.EnsureOpen | bart/torque.py:65-66 | the file is opened when not open yet |
| Torque.TorqueLogParser.GetNextLogLine | bart/torque.py:64-73 | the line and position `NextLogLine` states |
| Torque.TorqueLogParser.GetNextLogEntry | bart/torque.py:76-80 | the entry and position `NextLogEntry` states |
| Torque.TorqueLogParser.SpoolToEntry | bart/torque.py:83-87 | the position `SpoolTo` states |
| Torque.GetSeconds | bart/torque.py:127-132 | failures are ValueError; a success needs exactly three `:`-parts |
| Torque.GetSecondsOf | bart/torque.py:127-132 | three numerals give H·3600 + M·60 + S, hours unbounded |
| Torque.SplitThree | bart/torque.py:131 | `H:M:S` of three numerals has those three parts |
| Torque.GetSecondsTwoParts | bart/torque.py:131 | a time with one `:` does not unpack |
| Torque.PpnIndex | bart/torque.py:119-124 | a position within the parts |
| Torque.PpnIndexFirst | bart/torque.py:119-124 | `PpnIndex` finds the first `ppn` part, and None means none |
| Torque.GetCoreCount | bart/torque.py:103-125 | the loop computes `CoreCount`, the sum over the requests |
| Torque.SumCoresStep | bart/torque.py:103-125 | the sum from a request on is that request's cores plus the sum after it, or that request's exception |
| Torque.RequestCores | bart/torque.py:111-124 | the scan of one request computes `SpecCores` |
| Torque.SpecCoresPpn | bart/torque.py:111-124 | `N:ppn=P` is N·P cores, `host:ppn=P` is P |
| Torque.NodesPpnParts | bart/torque.py:111 | the parts of `N:ppn=P` |
| Torque.SpecCoresPlain | bart/torque.py:111-117 | a bare N is N cores; a bare host one |
| Torque.CoreCountPlus | bart/torque.py:110 | requests joined with `+` add up, the first failing one deciding |
| Torque.IntField | bart/torque.py:144-146 | KeyError when absent, ValueError when no integer |
| Torque.DedupDistinct | bart/torque.py:150 | the same strings, none twice |
| Torque.HostsDistinct | bart/torque.py:150 | `hosts` names exactly the elements' hosts, each once |
| Torque.FloorDivBounds | bart/torque.py:172 | the quotient is rounded down for either sign |
| Torque.ProcessorCounts | bart/torque.py:152-179 | without `mppwidth` or `size`, the node count is the host count |
| Torque.NcpusFirst | bart/torque.py:155-156 | `ncpus` takes precedence |
| Torque.NodesRequest | bart/torque.py:157-158 | without `ncpus`, processors are the cores `nodes` asks for |
| Torque.MppGuess | bart/torque.py:170-172 | with `mppwidth` W and `mppnppn` P > 0 but no `mppnodect`, nodes are W / P rounded down |
| Torque.JobVo | bart/torque.py:191-198 | the VO by the account when one is named and non-empty, else by the user; one `bart-vomap` block exactly when mapped |
| Torque.JobVoTyped | bart/torque.py:191-198 | the block is written with its `type` attribute |
| Torque.JobFields | bart/torque.py:140-150 | a job needs a host name and the line's fields, and carries the line's values |
| Torque.JobNeedsHostname | bart/torque.py:182-186 | without a host name no job can be read |
| Torque.UnmappedUserOf | bart/torque.py:188-189 | the line's own user is noted exactly when the line reads as a job and `get` finds no name for the user; nothing else is noted |
| Torque.JobRecordFields | bart/torque.py:201-219 | a record carries the job's identifiers, user, queue, account, durations, hosts and counts |
| Torque.RecordFields | bart/torque.py:134-221 | a record carries the line's identifiers and values |
| Torque.RecordNeedsHostname | bart/torque.py:182-186 | without a host name no record |
| Torque.NumericJobId | bart/torque.py:182-186 | a numeric job id is qualified with the host name |
| Torque.DateText | bart/torque.py:289 | the only failure is ValueError |
| Torque.ParseState | bart/torque.py:279-296 | a non-empty state splits into two parts; a job id kept is never `-` |
| Torque.StateRoundTrip | bart/torque.py:279-302 | a saved state reads back, at any clock reading, as its job id and date, a job id `-` or empty as none |
| Torque.StateFileRoundTrip | bart/torque.py:279-302 | the same through the state file |
| Torque.PathJoin | bart/torque.py:230 | `os.path.join` of POSIX paths |
| Torque.DefaultAccountingDir | bart/torque.py:229-230 | the default directory is `/var/spool/torque/server_priv/accounting` |
| Torque.NextDateRank | bart/torque.py:276 | each next date lies closer to the last date there is, so the day loop ends |
| Torque.DayLoopWrites | bart/torque.py:250-271 | no exception exactly when every rest entry has a record; those records are written in order |
| Torque.EntryTracked | bart/torque.py:250-271 | one pass of the inner loop keeps every record followed by its saved state, and the loop either ends or goes on from a later line |
| Torque.DriveTracked | bart/torque.py:224-277 | every record written is followed by a saved state, over all days |
| Torque.DayTracked | bart/torque.py:239-277 | one pass of the outer loop keeps every record followed by its saved state, and moves on to a later date |
| Torque.DateFormatFields | bart/torque.py:31 | `%Y%m%d` names each directive once and reads a midnight back with nothing lost |
| Torque.DriveOnce | bart/torque.py:239-277 | one pass of the outer loop: the day's run ends the run on an exception or on today, an exception from `getIncrementalDate` ends it, and otherwise the run goes on from the next date without a job id |
| Torque.TrackedStep | bart/torque.py:266-277 | a run that ends with the day or fails on the next date keeps every record followed by its saved state, and one that goes on does when the rest of the run does |
| Torque.DropsMissingLog | bart/torque.py:242-248 | a job id whose log cannot be spooled is dropped and the same day read from its start |
| Torque.ResumeWrites | bart/torque.py:240-271 | resuming after job j writes exactly the records of the entries after it |
| Torque.TorqueGenerator.constructor | bart/torque.py:94-95 | the generator holds the configuration and no state |
| Torque.TorqueGenerator.GetStateFile | bart/torque.py:97-101 | `torque.state` when the option is unset |
| Torque.TorqueGenerator.CreateUsageRecord | bart/torque.py:134-221 | the record of an entry; the user noted when unmapped |
| Torque.TorqueGenerator.ParseGeneratorState | bart/torque.py:279-296 | the state becomes `ParseState`'s result; a failure changes nothing |
| Torque.TorqueGenerator.CreateGeneratorState | bart/torque.py:298-302 | the state written reads back through `parseGeneratorState` as the generator's job id and log date |
| Torque.TorqueGenerator.ReadDay | bart/torque.py:250-271 | the inner loop, as `DayLoop` states |
| Torque.TorqueGenerator.ReadLog | bart/torque.py:240-271 | one outer pass, as `DayRun` states |
| Torque.TorqueGenerator.GenerateUsageRecords | bart/torque.py:224-277 | the logs are read day by day from the saved date to today, as `Drive` states |
| Maui.Words | bart/maui.py:47-49 | at most one field per piece |
| Maui.StripNewline | bart/maui.py:47-49 | a word with its newline is stripped back to the word |
| Maui.EntryOfLine | bart/maui.py:47-49 | a line of single-spaced words reads back as those words |
| Maui.SplitLineEntry | bart/maui.py:47-49 | no more fields than space-separated pieces; a line without a space is one stripped field |
| Maui.TrailingSpaceField | bart/maui.py:47-49 | a space before the newline adds an empty last field |
| Maui.NewlineField | bart/maui.py:47-49 | the token `"\n"` is kept, stripped to the empty field |
| Maui.NextLogLine | bart/maui.py:52-67 | the cursor moves forward and stays put only at the end; a line given is neither empty nor one read past |
| Maui.NextLogLineReads | bart/maui.py:52-67 | every line read but the last is one read past |
| Maui.NextLogEntry | bart/maui.py:70-74 | the cursor moves as `NextLogLine`'s; none exactly at the end; an entry is the line's fields |
| Maui.SpoolTo | bart/maui.py:77-81 | the cursor moves forward within the file; failures are IndexError |
| Maui.LogEntries | bart/maui.py:70-74 | at most one entry per line |
| Maui.NoEntryAtEnd | bart/maui.py:52-67 | in a file without empty lines, none is left once the search comes back empty |
| Maui.SpoolLeavesRest | bart/maui.py:77-81 | spooling leaves exactly the entries after the first with the id |
| Maui.SpoolStopsAtEmptyEntry | bart/maui.py:77-81 | an entry without fields before the id makes spooling fail |
| Maui.MauiLogParser.constructor | bart/maui.py:38-40 | a parser of the file, not yet opened |
| Maui.MauiLogParser.OpenFile | bart/maui.py:43-44 | the file is opened at its first line |
| Maui.MauiLogParser.ReadLine | bart/maui.py:57 | the next line, or the empty string at the end |
| Maui.MauiLogParser.GetNextLogLine | bart/maui.py:52-67 | the line and position `NextLogLine` states |
| Maui.MauiLogParser.GetNextLogEntry | bart/maui.py:70-74 | the entry and position `NextLogEntry` states |
| Maui.MauiLogParser.SpoolToEntry | bart/maui.py:77-81 | the position `SpoolTo` states |
| Maui.ServerHostFirst | bart/maui.py:98-112 | the first line naming the server host decides it |
| Maui.ServerHost | bart/maui.py:98-112 | no host exactly when no line, once stripped, starts with `SERVERHOST` |
| Maui.ServerHostLine | bart/maui.py:106-109 | `SERVERHOST <host>` names that host |
| Maui.ShouldGenerateUR | bart/maui.py:212-228 | a record is made exactly for a completed job whose user is not mapped to no name |
| Maui.At | bart/maui.py:123-133 | `entry[k]`, IndexError past the end |
| Maui.IntAt | bart/maui.py:123-133 | `int(entry[k])` |
| Maui.FloatAt | bart/maui.py:123-133 | `float(entry[k])` |
| Maui.JobOf | bart/maui.py:123-144 | fields in source order; failures are IndexError, ValueError or, without a host name, TypeError; cores are the per-task count times the tasks |
| Maui.CleanQueueOf | bart/maui.py:146-148 | the queue holds no bracket and no `:` |
| Maui.CleanQueueClass | bart/maui.py:146-148 | `[name:count]` gives queue `name` |
| Maui.CleanAccount | bart/maui.py:150-151 | `[NONE]` is no account; any other is kept |
| Maui.MauiVo | bart/maui.py:153-162 | the account's VO, else the user's, one `bart-vomap` block |
| Maui.CorrectedCpu | bart/maui.py:176-177 | fails exactly without tasks and with CPU time above zero, with ZeroDivisionError |
| Maui.CorrectedCpuBounds | bart/maui.py:176-177 | with tasks, the corrected time is a share of the measured one |
| Maui.DurationsOf | bart/maui.py:164-177 | the wall time is end less start; the CPU time is at most the measured one |
| Maui.JobRecord | bart/maui.py:146-206 | the record carries the job's ids, user, cleaned queue, cores, hosts and durations |
| Maui.RecordOf | bart/maui.py:116-208 | the record names the job by host and id, takes user, queue and account from the line |
| Maui.RecordOfJob | bart/maui.py:146-208 | a failing read fails the record and notes nobody; otherwise the job's record, noting the user when unmapped |
| Maui.JobNeedsFields | bart/maui.py:123-141 | fewer than 38 fields, or no host name, give no job |
| Maui.UnmappedUserOf | bart/maui.py:143-144 | the entry's user is noted exactly when the map has no key for it |
| Maui.NumericJobId | bart/maui.py:137-141 | a numeric id is named `<host>:<id>.<server host>` |
| Maui.SavedStateRaises | bart/maui.py:306 | as written no saved state can be read back |
| Maui.StateRoundTrip | bart/maui.py:294-316 | as intended, a saved state reads back as its job id and date |
| Maui.DefaultLogPath | bart/maui.py:237-249 | the traces are read from `/var/spool/maui/stats` by default |
| Maui.DayLoopWrites | bart/maui.py:254-286 | as intended, no exception exactly when every rest entry has a field and every wanted one a record, then those are written |
| Maui.LogEntriesCons | bart/maui.py:70-74 | the first entry of the rest, and those after it |
| Maui.EntryRecordsWanted | bart/maui.py:274-279 | a wanted first entry with a record goes before the rest's records |
| Maui.DayLoopWritesNothing | bart/maui.py:279 | as written, no day's loop writes a record or saves a state |
| Maui.FirstRecordRaises | bart/maui.py:278-279 | as written, an entry that should give a record ends the run with NameError |
| Maui.DayLoopTracked | bart/maui.py:278-284 | every record written is followed by a saved state |
| Maui.EntryTracked | bart/maui.py:256-286 | one pass of the inner loop keeps every record followed by its saved state, and the loop either ends or goes on from a later line |
| Maui.DriveTracked | bart/maui.py:232-292 | tracking holds over all days |
| Maui.DayTracked | bart/maui.py:288-292 | one pass of the outer loop keeps every record followed by its saved state, and moves on to a later date |
| Maui.DriveWritesNothing | bart/maui.py:232-292 | as written a whole run writes nothing |
| Maui.ResumeWrites | bart/maui.py:249-286 | as intended, resuming after j writes exactly the records of the entries after it |
| Maui.JobIdUnsaved | bart/maui.py:278-284 | once `cfg` is repaired, the record is written and then `ur.job_id` raises AttributeError before any state is saved; as intended the entry's job id is saved |
| Maui.ResumeAfterSaved | bart/maui.py:282-283 | the entry after the first with the saved id is the one after the saved entry, when no earlier entry has that id |
| Maui.MauiGenerator.constructor | bart/maui.py:89-90 | the generator holds the configuration and no state |
| Maui.MauiGenerator.GetStateFile | bart/maui.py:92-96 | the `statefile` option, `maui.state` by default |
| Maui.MauiGenerator.GetMauiServer | bart/maui.py:98-112 | `maui.cfg` is read to the first line naming the server host |
| Maui.MauiGenerator.CreateUsageRecord | bart/maui.py:116-208 | the record of an entry; the user noted when unmapped |
| Maui.MauiGenerator.ParseGeneratorState | bart/maui.py:294-311 | the job id and date to resume from; an unreadable state raises |
| Maui.MauiGenerator.CreateGeneratorState | bart/maui.py:313-317 | as intended, the state written reads back through `parseGeneratorState` as the generator's job id and trace date |
| Maui.MauiGenerator.ProcessEntry | bart/maui.py:264-286 | one entry of the inner loop, as `EntryStep` states |
| Maui.MauiGenerator.ReadDay | bart/maui.py:254-286 | the inner loop, as `DayLoop` states |
| Maui.MauiGenerator.ReadLog | bart/maui.py:247-286 | one outer pass, as `DayRun` states |
| Maui.MauiGenerator.GenerateUsageRecords | bart/maui.py:232-292 | the traces are read day by day, as `Drive` states |
| Example.RecordIdOf | bart/example.py:70-75 | succeeds unless `idtimestamp` is set and the start time cannot be rendered |
| Example.RecordOf | bart/example.py:59-107 | the record of job n: numbered, one processor on one node, fixed times |
| Example.GenerateAdvances | bart/example.py:58-109 | k passes make the records of jobs state+1 to state+k in order |
| Example.GenerateFails | bart/example.py:58-75 | when the first job has no record, the first pass raises after the increment |
| Example.ExampleRecords | bart/example.py:65-75 | every job has a record exactly when the fixed times render |
| Example.ExampleNumbered | bart/example.py:70-78 | each job's record carries its number; `default` is noted when unmapped |
| Example.GenerateNumbers | bart/example.py:58-109 | k passes number the jobs after the counter |
| Example.FiveJobs | bart/example.py:51-109 | a run numbers five jobs after the counter and moves it on by five |
| Example.PassOf | bart/example.py:58-109 | one pass; when the record id raises so does the record |
| Example.StartState | bart/example.py:111-119 | a non-empty state must be an integer, else ValueError, and is read as that integer |
| Example.StartStateDefault | bart/example.py:111-119 | without a state or `statefile_start`, counting starts at 1 |
| Example.ExampleGenerator.constructor | bart/example.py:41-43 | `idtimestamp` is read as a boolean, `false` by default |
| Example.ExampleGenerator.GetStateFile | bart/example.py:45-49 | the `statefile` option, `example.state` by default |
| Example.ExampleGenerator.GenerateUsageRecords | bart/example.py:51-109 | five passes, each moving the counter on by one and writing a record |
| Example.ExampleGenerator.RunPass | bart/example.py:58-109 | one pass of the loop |
| Example.ExampleGenerator.ParseGeneratorState | bart/example.py:111-119 | the counter to start from |
| Example.ExampleGenerator.CreateGeneratorState | bart/example.py:121-125 | `str` of the counter, which `int()` reads back as the counter |
| Example.StateRoundTrip | bart/example.py:111-125 | the written state reads back as the counter |
| Sge.EpochText | sge.py:56 | succeeds exactly from 1900 on, else ValueError; the numeral reads back as the local epoch |
| Sge.TimeAt | sge.py:36-38 | IndexError past the end; a time is the zone's reading of the field's float |
| Sge.JobOfFields | sge.py:27-45 | at most 8 fields raise IndexError; a job needs at least 43 fields |
| Sge.LineJob | sge.py:24-45 | None exactly for a comment line; an empty line raises IndexError |
| Sge.AccountingJobs | sge.py:21-47 | the lines of `./acc`; IOError when it is missing |
| Sge.ParseAccountingFile | sge.py:21-47 | the generator drained to the end is `AccountingJobs` |
| Sge.JobsStop | sge.py:23-47 | once a line raises, later lines are never looked at |
| Sge.CommentsSkipped | sge.py:24-25 | comment lines add no job and raise nothing |
| Sge.JobsPrefix | sge.py:23-47 | the jobs of the first j lines begin the jobs of the file |
| Sge.LineJobOfFields | sge.py:26-45 | a line of readable fields gives a job holding those fields |
| Sge.UrFromJob | sge.py:49-75 | the record of a job; only `strftime("%s")` can raise |
| Sge.UrOfLine | sge.py:49-75 | the owner is both user ids; the job number names the job locally, globally and in the record id |
| Sge.AliceVoUntyped | sge.py:51-53 | exactly one VO block, named `alice`, written without a type |
| Sge.WallIsDifference | sge.py:71 | for UTC whole-second stamps, the wall duration is the difference |
| Sge.IsoTextReadBack | sge.py:67-69 | `isoformat()` is read back by `datetimeFromIsoStr` as the time it shows |
| Sge.IsoText | sge.py:67-69 | `isoformat()` begins with the date and time; it is longer exactly when there are microseconds |
| Sge.Seconds | sge.py:71 | the later instant is the earlier one plus the duration |

## Left out

- Logging, `print` and the text of log messages are not modelled. Where a logging call raises, the exception is modelled.
- Python's set order is not modelled: `Torque.HostsDistinct` keeps the first occurrence of each host (bart/torque.py:150), and the host list's order is not modelled.
- Reading and writing files is not modelled.
  - The file system is a map from paths to contents or lines.
  - The clock (`time.time`, `gmtime()`, `datetime.now`) is a parameter.
  - `writeUr` and `writeGeneratorState` record what they would write.
- The `sacct` subprocess and its Python-version branch (bart/slurm.py:60-73) are not modelled. Its output is a parameter.
- The password lookup `getpwuid` and the local `mktime` are parameter functions.
- SGE's `datetime.fromtimestamp` is part of the `Sge.Zone` parameter.
- `getParser` and `BartConfig`'s file reading are not modelled. A configuration is a map of sections. `ConfigParser.ConfigParser.get` (bart/config.py:46, 51) also expands `%(name)s` references in a value and falls back to the `[DEFAULT]` section; `Config.GetConfigValue` does neither, and returns the stored text as it is.
- `UrElements` holds only constants, which have no contracts.
- The Maui date format `%a_%b_%d_%Y` is replaced by `%Y%m%d`. Locale-dependent day and month names are not modelled.
- The class-level `missing_user_mappings` dictionary, shared between instances, is a field of each generator.
- `Numerals.ParseFloatDigits`: `float()` is modelled for decimal text only. Exponents, `inf` and `nan` are not modelled.
- `UsageRecords.Fixed6Parts`: durations are exact reals, so binary floating-point rounding is not modelled.
- `IsoDuration.ParseDuration`: the components of an ISO 8601 duration are exact reals (the source uses `float` and `Decimal`), so binary floating-point rounding is not modelled.
- `Calendar.GmTime`: stops at year 9999, the last year `datetime` can represent. On a 64-bit `time_t`, Python's `time.gmtime` goes on to year 10000 and beyond, from epoch 253402300800 on.
- `Calendar.Strftime`: refuses every year before 1900, the rule of `datetime.strftime`. Python 2's `time.strftime` with `accept2dyear` set reads years 69 to 99 as 1969 to 1999 and years 0 to 68 as 2000 to 2068. It also checks only the range of each field (a day from 1 to 31, say), not the calendar, while the model requires a calendar-valid time.
- `UsageRecords.Epoch2IsoTime`: inherits both limits. An instant from year 10000 on fails in the model where `epoch2isoTime` writes a five-digit year, and one in years 1 to 99 fails where `time.strftime` writes a two-digit-year reading.
- `UsageRecords.Gm2IsoTime`: years 0 to 99 fail in the model where `time.strftime` reads them as two-digit years, and only calendar-valid times are formatted.
- `UrParser.ParseIsoDateTime`: a time in years 0 to 99 is logged as unreadable in the model; Python 2 formats it as a two-digit-year reading.
- `UrParser.InsertKeys`: a time that is not a calendar date, such as 30 February, raises ValueError in the model; `time.strftime` (bart/usagerecord/urparser.py:86) formats it, since day 30 is in range. Years 0 to 99 also fail in the model, and `accept2dyear` would format them.
- The Maui backend's user and VO maps are modelled as dictionaries. bart/maui.py:143 and bart/maui.py:224 apply `in` and `[]` to them. A `BartMapFile` (bart/config.py:111-142) supports neither, so if the driver passes one, these lines raise TypeError. The driver is not part of this model.
- `UrParser.ParseDateTime`: only the extended UTC form of `isodate.parse_datetime` is modelled. `isodate.parse_datetime` itself is not part of this model.
- The example backend's fixed ISO times (bart/example.py:65-67) are `Tm` constants. Their `time.mktime` is a parameter of the context.
- Python 2's `%s` directive for SGE start times goes through the local epoch of `Sge.Zone`.
- The command-line part of sge.py (sge.py:80-84) prints records and is not modelled.
- `Slurm.SlurmGenerator.constructor` requires the `idtimestamp` option to parse as a boolean. The as-written NameError path is proved separately by `Config.BoolInvalid`.
- `Example.ExampleGenerator.constructor` requires the `idtimestamp` option to parse as a boolean, for the same reason.
- `Slurm.SlurmGenerator.GenerateUsageRecords` requires a parsed state. The driver always parses the state first.
- `Torque.TorqueGenerator.GenerateUsageRecords` requires `state_log_file` to be set. The driver always parses the state first, and `parseGeneratorState` sets it.
- `Maui.MauiGenerator.GenerateUsageRecords` requires `state_log_file` to be set, for the same reason.
- `Example.ExampleGenerator.GenerateUsageRecords` requires the counter `state` to be set, for the same reason.
- `Slurm.QueryEnd`: `dateutil.parser.parse` of the state (bart/slurm.py:56-57) is modelled only for the `%Y-%m-%dT%H:%M:%S` form the generator writes, read as `datetimeFromIsoStr` reads it.
- `Slurm.QueryEnd`: the source reads the clock twice, at bart/slurm.py:52 for the window end and at bart/slurm.py:56 for the `max_days` test; the model takes one reading (`now`, `nowMicro`) for both, so a window that the second, later reading would cap but the first would not is not modelled.
- The sacct `Elapsed` and `UserCPU` texts are read by `Common.GetSeconds`, whose `strptime` model covers `%H:%M:%S` and `%M:%S` only.

## Findings

| source | as written | input that shows it | evidently intended | confidence | as-written member | corrected member |
|---|---|---|---|---|---|---|
| bart/config.py:67 | the error branch calls `logging.error`, but config.py never imports `logging`, so NameError; its message also names the undefined `idtimestamp` | option `idtimestamp = maybe` | log the error and fall back to the default | high, not executed | Config.BoolInvalid | Config.GetConfigValueBool |
| bart/maui.py:306 | `state_data` is undefined, so NameError | any saved state, e.g. `123 20240101` | split the `state` argument | high, not executed | Maui.SavedStateRaises | Maui.StateRoundTrip |
| bart/maui.py:279 | `cfg` is undefined in `generateUsageRecords`, so NameError before the first record is written | a trace with one completed, mapped job | write the record with `self.cfg`; the intended model also saves the entry's job id in place of `ur.job_id` (the bart/maui.py:282 row) | high, not executed | Maui.DriveWritesNothing | Maui.ResumeWrites |
| bart/maui.py:279 | the run stops at the first wanted entry | a trace whose first entry should give a record | write the record, save the entry's job id (the bart/maui.py:282 row) and continue | high, not executed | Maui.FirstRecordRaises | Maui.DayLoopWrites |
| bart/maui.py:282 | `ur.job_id` names no attribute of a usage record, so once `cfg` is repaired the run raises AttributeError right after the first record is written, before any state is saved | a trace with one completed, mapped job | save the entry's job id (field 0), as bart/torque.py:267 does | high, not executed | Maui.JobIdUnsaved | Maui.ResumeWrites |
| bart/usagerecord/urparser.py:141-142 | `logging.warning(..., system=...)` raises TypeError | a record holding a `KSI2K` wall-duration element | warn and skip the element | high, not executed | UrVerify.Ksi2kRejectedAsWritten | UrParser.XmlToDictAgrees |
| bart/slurm.py:39-41 | the builtin `type` is used as the key, so `validate` never checks types | `max_days = seven` | refuse a non-integer `max_days` | high, not executed | Slurm.DeclaredUntyped | Slurm.MaxDaysTypeIgnored |
| bart/slurm.py:83 | `entry[:-1]` drops the last field's last character, because lines split from `communicate()` keep no newline | row ending in node list `brother13` | split the row as it is | medium, not executed | Slurm.LastFieldCut | Slurm.EntryFieldsJoin |
