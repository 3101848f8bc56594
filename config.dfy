/** The configuration file and the identity map files: `BartConfig` answers
    option lookups and checks a section against the options a backend
    declares; `BartMapFile` reads `key "value"` lines into a dictionary. */
module Config {
  import opened Wrappers
  import opened Text
  import opened Numerals

  // ---- BartConfig ----

  /** A configuration file as `ConfigParser` holds it: section name, then
      option name, then the option's value. */
  type Ini = map<string, map<string, string>>

  /** `getConfigValue`: the option's value, or `default` when the section or
      the option is missing. */
  function GetConfigValue(cfg: Ini, section: string, option: string, default: Option<string>): (r: Option<string>)
    ensures section in cfg && option in cfg[section] ==> r == Some(cfg[section][option])
    ensures section !in cfg || option !in cfg[section] ==> r == default
  {
    if section in cfg && option in cfg[section] then Some(cfg[section][option]) else default
  }

  predicate TrueWord(s: string) {
    s == "true" || s == "yes" || s == "1"
  }

  predicate FalseWord(s: string) {
    s == "false" || s == "no" || s == "0"
  }

  /** `getConfigValueBool`. The option (or the default standing in for it)
      must be present: `None.lower()` raises AttributeError. A value that is
      no boolean word reaches a call of the unimported `logging`, which raises
      NameError as written; the evident intent is to fall back on the
      default, and on False when that is missing or no boolean word either. */
  function GetConfigValueBool(mode: Mode, cfg: Ini, section: string, option: string, default: Option<string>): (r: Result<bool>)
    ensures GetConfigValue(cfg, section, option, default).None? ==> r == Failure(AttributeError)
    ensures r.Failure? ==> r == Failure(AttributeError) || (mode == AsWritten && r == Failure(NameError))
    ensures mode == Intended && GetConfigValue(cfg, section, option, default).Some? ==> r.Success?
  {
    match GetConfigValue(cfg, section, option, default)
    case None => Failure(AttributeError)
    case Some(v) =>
      if TrueWord(Lower(v)) then Success(true)
      else if FalseWord(Lower(v)) then Success(false)
      else if mode == AsWritten then Failure(NameError)
      else if default.None? then Success(false)
      else Success(TrueWord(Lower(default.value)))
  }

  /** A set option that is a boolean word, in any case, is read as that word. */
  lemma BoolWords(mode: Mode, cfg: Ini, section: string, option: string, default: Option<string>)
    requires section in cfg && option in cfg[section]
    ensures var v := Lower(cfg[section][option]);
      && (GetConfigValueBool(mode, cfg, section, option, default) == Success(true) <==>
            (TrueWord(v) || (mode == Intended && !FalseWord(v) && default.Some? && TrueWord(Lower(default.value)))))
      && (TrueWord(v) || FalseWord(v) ==>
            GetConfigValueBool(mode, cfg, section, option, default) == Success(TrueWord(v)))
  {
  }

  /** A missing option is read as its default. */
  lemma BoolDefault(mode: Mode, cfg: Ini, section: string, option: string, d: string)
    requires !(section in cfg && option in cfg[section])
    requires TrueWord(Lower(d)) || FalseWord(Lower(d))
    ensures GetConfigValueBool(mode, cfg, section, option, Some(d)) == Success(TrueWord(Lower(d)))
  {
  }

  /** As written, a set option that is no boolean word raises NameError; as
      intended it is read as the default. */
  lemma BoolInvalid(cfg: Ini, section: string, option: string, default: Option<string>)
    requires section in cfg && option in cfg[section]
    requires !TrueWord(Lower(cfg[section][option])) && !FalseWord(Lower(cfg[section][option]))
    ensures GetConfigValueBool(AsWritten, cfg, section, option, default) == Failure(NameError)
    ensures GetConfigValueBool(Intended, cfg, section, option, default)
         == Success(default.Some? && TrueWord(Lower(default.value)))
  {
  }

  /** One entry of a backend's `CONFIG` dictionary: whether the option is
      required, and the value stored under the string key `'type'`. */
  datatype Item = Item(required: bool, typeEntry: Option<string>)

  /** `CONFIG`: the options a backend declares. */
  type Declared = map<string, Item>

  /** The spellings `validate` accepts for a `bool` option, case included. */
  predicate BoolSyntax(v: string) {
    v == "true" || v == "false" || v == "0" || v == "1" || v == "yes" || v == "no"
  }

  /** A declared option passes: present when required, and when present
      spelled as its declared type demands. */
  predicate OptionOk(cfg: Ini, section: string, key: string, item: Item) {
    match GetConfigValue(cfg, section, key, None)
    case None => !item.required
    case Some(v) =>
      (item.typeEntry == Some("bool") ==> BoolSyntax(v))
      && (item.typeEntry == Some("int") ==> ParseInt(v).Some?)
  }

  /** What `validate` answers, whatever the order of the dictionaries: False
      when a declared option fails, else NoSectionError from `cfg.items` on a
      missing section, else whether every option of the section is declared. */
  function ValidSection(cfg: Ini, section: string, declared: Declared): Result<bool> {
    if exists key :: key in declared && !OptionOk(cfg, section, key, declared[key]) then Success(false)
    else if section !in cfg then Failure(NoSectionError)
    else Success(forall option :: option in cfg[section] ==> option in declared)
  }

  /** The first loop of `validate`: False at the first declared option, in
      the order `keys` gives them, that fails. */
  method CheckDeclared(cfg: Ini, section: string, declared: Declared, keys: seq<string>) returns (ok: bool)
    requires forall key :: key in keys <==> key in declared
    ensures ok <==> forall key :: key in declared ==> OptionOk(cfg, section, key, declared[key])
  {
    for i := 0 to |keys|
      invariant forall j :: 0 <= j < i ==> OptionOk(cfg, section, keys[j], declared[keys[j]])
    {
      var item := declared[keys[i]];
      var value := GetConfigValue(cfg, section, keys[i], None);
      if value.None? {
        if item.required {
          return false;
        }
      } else {
        if item.typeEntry == Some("bool") && !BoolSyntax(value.value) {
          return false;
        }
        if item.typeEntry == Some("int") && ParseInt(value.value).None? {
          return false;
        }
      }
    }
    forall key | key in declared ensures OptionOk(cfg, section, key, declared[key]) {
      var j :| 0 <= j < |keys| && keys[j] == key;
    }
    return true;
  }

  /** The second loop of `validate`: False at the first option of the
      section, in the order `options` gives them, that is not declared. */
  method CheckOptions(declared: Declared, options: seq<string>, present: map<string, string>) returns (ok: bool)
    requires forall option :: option in options <==> option in present
    ensures ok <==> forall option :: option in present ==> option in declared
  {
    for i := 0 to |options|
      invariant forall j :: 0 <= j < i ==> options[j] in declared
    {
      if options[i] !in declared {
        return false;
      }
    }
    forall option | option in present ensures option in declared {
      var j :| 0 <= j < |options| && options[j] == option;
    }
    return true;
  }

  /** `validate(section, lrms)`: the declared options in the order `keys`
      gives them, then the section's options in the order `options` gives
      them. */
  method Validate(cfg: Ini, section: string, declared: Declared, keys: seq<string>, options: seq<string>)
    returns (r: Result<bool>)
    requires forall key :: key in keys <==> key in declared
    requires section in cfg ==> forall option :: option in options <==> option in cfg[section]
    ensures r == ValidSection(cfg, section, declared)
  {
    var declaredOk := CheckDeclared(cfg, section, declared, keys);
    if !declaredOk {
      return Success(false);
    }
    if section !in cfg {
      return Failure(NoSectionError);
    }
    var optionsOk := CheckOptions(declared, options, cfg[section]);
    return Success(optionsOk);
  }

  // ---- BartMapFile ----

  /** The position of the last `c` in `s`. */
  function LastIndex(s: string, c: char): (r: Option<nat>)
    ensures r.Some? ==> r.value < |s| && s[r.value] == c && c !in s[r.value + 1..]
    ensures r.None? ==> c !in s
    decreases |s|
  {
    if |s| == 0 then None
    else if s[|s| - 1] == c then Some(|s| - 1)
    else
      var r := LastIndex(s[..|s| - 1], c);
      assert r.Some? ==> s[r.value + 1..] == s[..|s| - 1][r.value + 1..] + [s[|s| - 1]];
      assert r.None? ==> s == s[..|s| - 1] + [s[|s| - 1]];
      r
  }

  /** The two groups of `\s*(.*)\s*"(.*)"` matched at the start of a line:
      the greedy first group runs to the last-but-one `"`, the second from
      there to the last `"`; a line with fewer than two `"` does not match. */
  function MapLineGroups(line: string): Option<(string, string)> {
    match LastIndex(line, '"')
    case None => None
    case Some(j) =>
      match LastIndex(line[..j], '"')
      case None => None
      case Some(i) => Some((line[..i], line[i + 1..j]))
  }

  /** The `c` at `i` with no `c` after it is the last one. */
  lemma {:induction false} LastIndexAt(s: string, c: char, i: nat)
    requires i < |s| && s[i] == c && c !in s[i + 1..]
    ensures LastIndex(s, c) == Some(i)
    decreases |s|
  {
    if i < |s| - 1 {
      var init := s[..|s| - 1];
      assert s[i + 1..][|s| - 1 - (i + 1)] == s[|s| - 1];
      assert init[i + 1..] == s[i + 1..][..|s| - 1 - (i + 1)];
      LastIndexAt(init, c, i);
    }
  }

  /** A line `k"v"tail` whose value and tail hold no `"` yields `k` and `v`. */
  lemma MapLineGroupsOf(k: string, v: string, tail: string)
    requires '"' !in v && '"' !in tail
    ensures MapLineGroups(k + "\"" + v + "\"" + tail) == Some((k, v))
  {
    var line := k + "\"" + v + "\"" + tail;
    var j := |k| + 1 + |v|;
    assert line[j] == '"' && line[j + 1..] == tail;
    LastIndexAt(line, '"', j);
    var pre := line[..j];
    assert pre == k + "\"" + v;
    assert pre[|k|] == '"' && pre[|k| + 1..] == v;
    LastIndexAt(pre, '"', |k|);
    assert line[..|k|] == k;
    assert line[|k| + 1..j] == v;
  }

  /** The number of `c` in `s`. */
  function Count(s: string, c: char): nat
    decreases |s|
  {
    if |s| == 0 then 0 else Count(s[..|s| - 1], c) + (if s[|s| - 1] == c then 1 else 0)
  }

  lemma {:induction false} CountNone(s: string, c: char)
    ensures Count(s, c) == 0 <==> c !in s
    decreases |s|
  {
    if |s| > 0 {
      CountNone(s[..|s| - 1], c);
      assert s == s[..|s| - 1] + [s[|s| - 1]];
    }
  }

  lemma {:induction false} CountAfterLast(s: string, c: char, i: nat)
    requires i < |s| && s[i] == c && c !in s[i + 1..]
    ensures Count(s, c) == Count(s[..i], c) + 1
    decreases |s|
  {
    if i < |s| - 1 {
      var init := s[..|s| - 1];
      assert init[i + 1..] == s[i + 1..|s| - 1];
      assert s[|s| - 1] in s[i + 1..];
      assert init[i + 1..] == s[i + 1..][..|s| - 1 - (i + 1)];
      CountAfterLast(init, c, i);
      assert init[..i] == s[..i];
    } else {
      assert s[..|s| - 1] == s[..i];
    }
  }

  /** A line matches exactly when it holds at least two `"`. */
  lemma MapLineMatches(line: string)
    ensures MapLineGroups(line).Some? <==> Count(line, '"') >= 2
  {
    match LastIndex(line, '"')
    case None =>
      CountNone(line, '"');
    case Some(j) =>
      CountAfterLast(line, '"', j);
      CountNone(line[..j], '"');
  }

  /** What one line of a map file contributes: nothing for a blank line, a
      comment or a line that does not match; otherwise the stripped key and
      the stripped value, `-` standing for None. */
  function MapLine(line: string): Option<(string, Option<string>)> {
    var l := Strip(line);
    if l == "" || StartsWith(l, "#") then None
    else
      match MapLineGroups(l)
      case None => None
      case Some((k, v)) =>
        var value := Strip(v);
        Some((Strip(k), if value == "-" then None else Some(value)))
  }

  /** `load` as a function of the file's lines: a later line for a key
      overwrites an earlier one. */
  function LoadLines(lines: seq<string>): map<string, Option<string>>
    decreases |lines|
  {
    if |lines| == 0 then map[]
    else
      var m := LoadLines(lines[..|lines| - 1]);
      match MapLine(lines[|lines| - 1])
      case None => m
      case Some((k, v)) => m[k := v]
  }

  /** The value of the last line that names `key`, if any line does. */
  function LastMapping(lines: seq<string>, key: string): Option<Option<string>>
    decreases |lines|
  {
    if |lines| == 0 then None
    else
      var e := MapLine(lines[|lines| - 1]);
      if e.Some? && e.value.0 == key then Some(e.value.1) else LastMapping(lines[..|lines| - 1], key)
  }

  /** A key is mapped exactly when some line names it, to the value of the
      last such line. */
  lemma {:induction false} LoadLinesLast(lines: seq<string>, key: string)
    ensures key in LoadLines(lines) <==> LastMapping(lines, key).Some?
    ensures key in LoadLines(lines) ==> LoadLines(lines)[key] == LastMapping(lines, key).value
    decreases |lines|
  {
    if |lines| > 0 {
      var init := lines[..|lines| - 1];
      LoadLinesLast(init, key);
      var e := MapLine(lines[|lines| - 1]);
      assert LoadLines(lines) == if e.None? then LoadLines(init) else LoadLines(init)[e.value.0 := e.value.1];
      assert LastMapping(lines, key) == if e.Some? && e.value.0 == key then Some(e.value.1) else LastMapping(init, key);
    }
  }

  class BartMapFile {
    var map_: map<string, Option<string>>

    constructor ()
      ensures map_ == map[]
    {
      map_ := map[];
    }

    /** `load`: clears the map, then reads the lines in order. */
    method Load(lines: seq<string>)
      modifies this
      ensures map_ == LoadLines(lines)
    {
      map_ := map[];
      for i := 0 to |lines|
        invariant map_ == LoadLines(lines[..i])
      {
        assert lines[..i + 1][..i] == lines[..i];
        var entry := MapLine(lines[i]);
        if entry.Some? {
          map_ := map_[entry.value.0 := entry.value.1];
        }
      }
      assert lines[..|lines|] == lines;
    }

    /** `getMapping`: the whole map; a key has a name in it exactly when
        `get` gives that name. */
    function GetMapping(): (r: map<string, Option<string>>)
      reads this
      ensures forall key :: (key in r && r[key].Some?) <==> Get(key).Some?
      ensures forall key :: Get(key).Some? ==> r[key] == Get(key)
    {
      map_
    }

    /** `get`: None for a key the file does not name and for one it maps to `-`. */
    function Get(key: string): (r: Option<string>)
      reads this
      ensures r.Some? <==> key in map_ && map_[key].Some?
      ensures r.Some? ==> r.value == map_[key].value
    {
      MapGet(map_, key)
    }
  }

  /** `get` on the map's contents: None for a key that is absent and for one
      mapped to `-`. */
  function MapGet(m: map<string, Option<string>>, key: string): (r: Option<string>)
    ensures r.Some? <==> key in m && m[key].Some?
    ensures r.Some? ==> r.value == m[key].value
  {
    if key in m then m[key] else None
  }

  /** After `load`, `get` answers the value of the last line naming the key,
      None when no line names it or that line maps it to `-`. */
  lemma GetAfterLoad(lines: seq<string>, key: string)
    ensures MapGet(LoadLines(lines), key) == if LastMapping(lines, key).Some? then LastMapping(lines, key).value else None
  {
    LoadLinesLast(lines, key);
  }

  /** A `key "-"` line suppresses the key: it is in the mapping, mapped to None. */
  lemma SuppressedLine(lines: seq<string>, k: string)
    requires |lines| > 0 && MapLine(lines[|lines| - 1]) == Some((k, None))
    ensures k in LoadLines(lines) && LoadLines(lines)[k] == None
  {
  }
}
