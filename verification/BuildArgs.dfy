/** The command line of scripts/build.ts: `parseArgs` routes each argument to the configuration, to ninja
    or to the program that was built. */
module BuildArgs {
  import opened Lists

  datatype Kind = Boolean | Number | Text

  datatype Value = Bool(on: bool) | Num(n: nat) | Str(text: string)

  /** What a key stands for. */
  datatype Key = Profile | Target | ConfigFile | Field(name: string, kind: Kind) | Unknown

  /** What an argument looks like to the tests at the head of the loop, in their order. */
  datatype Arg =
    | Tool
    | Debug
    | Passed
    | DashDash
    | ConfigureOnly
    | Quiet
    | Timings
    | Help
    | Keyed(key: Key, value: Option<string>)
    | Bare

  datatype CliArgs = CliArgs(
    profile: string, overrides: map<string, Value>, ninjaTargets: seq<string>, ninjaArgs: seq<string>,
    ninjaTool: Option<seq<string>>, execArgs: seq<string>, configureOnly: bool, quiet: bool, timings: bool,
    configFile: Option<string>)

  datatype Outcome = Parsed(args: CliArgs) | NeedsValue(arg: string) | UnknownField(arg: string)
                   | BadValue(text: string) | HelpShown

  /** The tests on strings. */
  datatype Lexer = Lexer(classify: string -> Arg, isDebugMode: string -> bool, convert: (Kind, string) -> Option<Value>)

  // ---------- routing ----------

  /** A key with its value. None stands for an error. */
  function Put(lex: Lexer, st: CliArgs, key: Key, value: string): Option<CliArgs> {
    match key
    case Target => Some(st.(ninjaTargets := st.ninjaTargets + [value]))
    case ConfigFile => Some(st.(configFile := Some(value), configureOnly := true))
    case Profile => Some(st.(profile := value))
    case Unknown => None
    case Field(name, kind) =>
      match lex.convert(kind, value)
      case None => None
      case Some(v) => Some(st.(overrides := st.overrides[name := v]))
  }

  function Continue(lex: Lexer, put: Option<CliArgs>, arg: string, key: Key, value: string, rest: seq<string>): Outcome
    decreases |rest|, 1
  {
    if put.Some? then Parse(lex, rest, put.value)
    else if key.Unknown? then UnknownField(arg)
    else BadValue(value)
  }

  /** The arguments `argv`, when `st` is what those before them gave. */
  function Parse(lex: Lexer, argv: seq<string>, st: CliArgs): Outcome
    decreases |argv|, 0
  {
    if argv == [] then Parsed(st)
    else
      var arg, rest := argv[0], argv[1..];
      match lex.classify(arg)
      case Tool => Parsed(st.(ninjaTool := Some(rest)))
      case Debug =>
        if rest != [] && lex.isDebugMode(rest[0]) then Parse(lex, rest[1..], st.(ninjaArgs := st.ninjaArgs + [arg, rest[0]]))
        else Parsed(st.(execArgs := st.execArgs + argv))
      case Passed => Parse(lex, rest, st.(ninjaArgs := st.ninjaArgs + [arg]))
      case DashDash => Parsed(st.(execArgs := st.execArgs + rest))
      case ConfigureOnly => Parse(lex, rest, st.(configureOnly := true))
      case Quiet => Parse(lex, rest, st.(quiet := true))
      case Timings => Parse(lex, rest, st.(timings := true))
      case Help => HelpShown
      case Bare => Parsed(st.(execArgs := st.execArgs + argv))
      case Keyed(key, Some(value)) => Continue(lex, Put(lex, st, key, value), arg, key, value, rest)
      case Keyed(key, None) =>
        if key.Unknown? then Parsed(st.(execArgs := st.execArgs + argv))
        else if rest == [] then NeedsValue(arg)
        else Continue(lex, Put(lex, st, key, rest[0]), arg, key, rest[0], rest[1..])
  }

  const INITIAL := CliArgs("debug", map[], [], [], None, [], false, false, false, None)

  /** Whatever follows the end of the flags goes to the program. */
  function Exec(st: CliArgs, argv: seq<string>): Outcome {
    Parsed(st.(execArgs := st.execArgs + argv))
  }

  lemma Tail(argv: seq<string>, i: nat)
    requires i < |argv|
    ensures argv[i..][0] == argv[i] && argv[i..][1..] == argv[i + 1..]
    ensures argv[i..] == [argv[i]] + argv[i + 1..]
    ensures i + 1 < |argv| ==> argv[i + 1..][1..] == argv[i + 2..]
  {}

  method ParseArgs(lex: Lexer, argv: seq<string>) returns (out: Outcome)
    ensures out == Parse(lex, argv, INITIAL)
  {
    var st := INITIAL;
    var inExec := false;
    var i := 0;
    assert argv[0..] == argv;
    while i < |argv|
      invariant 0 <= i <= |argv|
      invariant (if inExec then Exec(st, argv[i..]) else Parse(lex, argv[i..], st)) == Parse(lex, argv, INITIAL)
    {
      var arg := argv[i];
      Tail(argv, i);
      i := i + 1;
      if inExec {
        Regroup(st.execArgs, [arg], argv[i..]);
        st := st.(execArgs := st.execArgs + [arg]);
        continue;
      }
      var looks := lex.classify(arg);
      if looks.Tool? {
        st := st.(ninjaTool := Some(argv[i..]));
        return Parsed(st);
      }
      if looks.Debug? && i < |argv| && lex.isDebugMode(argv[i]) {
        st := st.(ninjaArgs := st.ninjaArgs + [arg, argv[i]]);
        i := i + 1;
      } else if looks.Passed? {
        st := st.(ninjaArgs := st.ninjaArgs + [arg]);
      } else if looks.DashDash? {
        inExec := true;
      } else if looks.ConfigureOnly? {
        st := st.(configureOnly := true);
      } else if looks.Quiet? {
        st := st.(quiet := true);
      } else if looks.Timings? {
        st := st.(timings := true);
      } else if looks.Help? {
        return HelpShown;
      } else if !looks.Keyed? || (looks.value.None? && looks.key.Unknown?) {
        Regroup(st.execArgs, [arg], argv[i..]);
        st := st.(execArgs := st.execArgs + [arg]);
        inExec := true;
      } else {
        var value := looks.value;
        if value.None? {
          if i >= |argv| {
            return NeedsValue(arg);
          }
          value := Some(argv[i]);
          i := i + 1;
        }
        var put := Put(lex, st, looks.key, value.value);
        if put.None? {
          return if looks.key.Unknown? then UnknownField(arg) else BadValue(value.value);
        }
        st := put.value;
      }
    }
    assert st.execArgs + [] == st.execArgs;
    out := Parsed(st);
  }

  // ---------- flags come back ----------

  datatype Flag =
    | SetProfile(profile: string)
    | SetConfigFile(path: string)
    | SetField(name: string, value: Value)
    | AddTarget(target: string)
    | AddNinja(arg: string)
    | AddDebug(mode: string)
    | SetConfigureOnly
    | SetQuiet
    | SetTimings

  function Apply(st: CliArgs, f: Flag): CliArgs {
    match f
    case SetProfile(value) => st.(profile := value)
    case SetConfigFile(path) => st.(configFile := Some(path), configureOnly := true)
    case SetField(name, value) => st.(overrides := st.overrides[name := value])
    case AddTarget(target) => st.(ninjaTargets := st.ninjaTargets + [target])
    case AddNinja(arg) => st.(ninjaArgs := st.ninjaArgs + [arg])
    case AddDebug(mode) => st.(ninjaArgs := st.ninjaArgs + ["-d", mode])
    case SetConfigureOnly => st.(configureOnly := true)
    case SetQuiet => st.(quiet := true)
    case SetTimings => st.(timings := true)
  }

  function ApplyAll(st: CliArgs, flags: seq<Flag>): CliArgs
    decreases |flags|
  {
    if flags == [] then st else ApplyAll(Apply(st, flags[0]), flags[1..])
  }

  function KeyOf(f: Flag, kind: Kind): Key {
    match f
    case SetProfile(_) => Profile
    case SetConfigFile(_) => ConfigFile
    case AddTarget(_) => Target
    case SetField(name, _) => Field(name, kind)
    case _ => Unknown
  }

  predicate HasKey(f: Flag) {
    f.SetProfile? || f.SetConfigFile? || f.SetField? || f.AddTarget?
  }

  /** The text of the value of a flag with a key. */
  predicate Spells(lex: Lexer, f: Flag, kind: Kind, text: string) {
    match f
    case SetProfile(value) => text == value
    case SetConfigFile(path) => text == path
    case AddTarget(target) => text == target
    case SetField(_, value) => lex.convert(kind, text) == Some(value)
    case _ => false
  }

  /** `args` is one way to write the flag. */
  ghost predicate Writes(lex: Lexer, f: Flag, args: seq<string>) {
    if HasKey(f) then
      exists kind: Kind, text: string :: Spells(lex, f, kind, text) &&
        ((|args| == 1 && lex.classify(args[0]) == Keyed(KeyOf(f, kind), Some(text))) ||
         (|args| == 2 && lex.classify(args[0]) == Keyed(KeyOf(f, kind), None) && args[1] == text))
    else match f
      case AddNinja(arg) => args == [arg] && lex.classify(arg) == Passed
      case AddDebug(mode) => args == ["-d", mode] && lex.classify("-d") == Debug && lex.isDebugMode(mode)
      case SetConfigureOnly => |args| == 1 && lex.classify(args[0]) == ConfigureOnly
      case SetQuiet => |args| == 1 && lex.classify(args[0]) == Quiet
      case SetTimings => |args| == 1 && lex.classify(args[0]) == Timings
      case _ => false
  }

  lemma ParseKeyed(lex: Lexer, f: Flag, kind: Kind, text: string, args: seq<string>, rest: seq<string>, st: CliArgs)
    requires HasKey(f) && Spells(lex, f, kind, text)
    requires (|args| == 1 && lex.classify(args[0]) == Keyed(KeyOf(f, kind), Some(text))) ||
             (|args| == 2 && lex.classify(args[0]) == Keyed(KeyOf(f, kind), None) && args[1] == text)
    ensures Parse(lex, args + rest, st) == Parse(lex, rest, Apply(st, f))
  {
    assert Put(lex, st, KeyOf(f, kind), text) == Some(Apply(st, f));
    var argv := args + rest;
    if |args| == 1 {
      assert argv[1..] == rest;
    } else {
      assert argv[1..][0] == text && argv[1..][1..] == rest;
    }
  }

  /** However a flag is written, it has its effect and nothing else. */
  lemma ParseFlag(lex: Lexer, f: Flag, args: seq<string>, rest: seq<string>, st: CliArgs)
    requires Writes(lex, f, args)
    ensures Parse(lex, args + rest, st) == Parse(lex, rest, Apply(st, f))
  {
    if HasKey(f) {
      var kind, text :| Spells(lex, f, kind, text) &&
        ((|args| == 1 && lex.classify(args[0]) == Keyed(KeyOf(f, kind), Some(text))) ||
         (|args| == 2 && lex.classify(args[0]) == Keyed(KeyOf(f, kind), None) && args[1] == text));
      ParseKeyed(lex, f, kind, text, args, rest, st);
    } else if f.AddDebug? {
      assert (args + rest)[1..][0] == f.mode && (args + rest)[1..][1..] == rest;
    } else {
      assert (args + rest)[1..] == rest;
    }
  }

  lemma {:induction false} ParseFlags(lex: Lexer, flags: seq<Flag>, written: seq<seq<string>>, rest: seq<string>, st: CliArgs)
    requires |written| == |flags| && forall i :: 0 <= i < |flags| ==> Writes(lex, flags[i], written[i])
    ensures Parse(lex, Concat(written) + rest, st) == Parse(lex, rest, ApplyAll(st, flags))
    decreases |flags|
  {
    if flags == [] {
      assert Concat(written) + rest == rest;
    } else {
      Regroup(written[0], Concat(written[1..]), rest);
      ParseFlag(lex, flags[0], written[0], Concat(written[1..]) + rest, st);
      ParseFlags(lex, flags[1..], written[1..], rest, Apply(st, flags[0]));
    }
  }

  function Concat(written: seq<seq<string>>): seq<string> {
    if written == [] then [] else written[0] + Concat(written[1..])
  }

  /** Any flags in any order, then `--`: the flags have their effect in turn, and what follows is kept
      verbatim, also where it looks like a flag. */
  lemma FlagsComeBack(lex: Lexer, flags: seq<Flag>, written: seq<seq<string>>, dashDash: string, exec: seq<string>)
    requires |written| == |flags| && forall i :: 0 <= i < |flags| ==> Writes(lex, flags[i], written[i])
    requires lex.classify(dashDash) == DashDash
    ensures Parse(lex, Concat(written) + ([dashDash] + exec), INITIAL) == Parsed(ApplyAll(INITIAL, flags).(execArgs := exec))
  {
    ParseFlags(lex, flags, written, [dashDash] + exec, INITIAL);
    assert ([dashDash] + exec)[1..] == exec;
    ExecUntouched(INITIAL, flags);
    assert [] + exec == exec;
  }

  /** The same with `-t`, for a tool of ninja. */
  lemma ToolComesBack(lex: Lexer, flags: seq<Flag>, written: seq<seq<string>>, dashT: string, tool: seq<string>)
    requires |written| == |flags| && forall i :: 0 <= i < |flags| ==> Writes(lex, flags[i], written[i])
    requires lex.classify(dashT) == Tool
    ensures Parse(lex, Concat(written) + ([dashT] + tool), INITIAL) == Parsed(ApplyAll(INITIAL, flags).(ninjaTool := Some(tool)))
  {
    ParseFlags(lex, flags, written, [dashT] + tool, INITIAL);
    assert ([dashT] + tool)[1..] == tool;
  }

  lemma {:induction false} ExecUntouched(st: CliArgs, flags: seq<Flag>)
    ensures ApplyAll(st, flags).execArgs == st.execArgs && ApplyAll(st, flags).ninjaTool == st.ninjaTool
    decreases |flags|
  {
    if flags != [] {
      ExecUntouched(Apply(st, flags[0]), flags[1..]);
    }
  }

  // ---------- what the flags amount to ----------

  /** The last override of a field wins. */
  lemma {:induction false} LastOverrideWins(st: CliArgs, flags: seq<Flag>, i: nat)
    requires i < |flags| && flags[i].SetField?
    requires forall j :: i < j < |flags| ==> !(flags[j].SetField? && flags[j].name == flags[i].name)
    ensures flags[i].name in ApplyAll(st, flags).overrides
    ensures ApplyAll(st, flags).overrides[flags[i].name] == flags[i].value
    decreases |flags|
  {
    if i == 0 {
      OverrideStays(Apply(st, flags[0]), flags[1..], flags[0].name);
    } else {
      LastOverrideWins(Apply(st, flags[0]), flags[1..], i - 1);
    }
  }

  lemma {:induction false} OverrideStays(st: CliArgs, flags: seq<Flag>, name: string)
    requires forall j :: 0 <= j < |flags| ==> !(flags[j].SetField? && flags[j].name == name)
    ensures name in ApplyAll(st, flags).overrides <==> name in st.overrides
    ensures name in st.overrides ==> ApplyAll(st, flags).overrides[name] == st.overrides[name]
    decreases |flags|
  {
    if flags != [] {
      OverrideStays(Apply(st, flags[0]), flags[1..], name);
    }
  }

  function TargetsOf(flags: seq<Flag>): seq<string> {
    if flags == [] then []
    else (if flags[0].AddTarget? then [flags[0].target] else []) + TargetsOf(flags[1..])
  }

  function NinjaArgsOf(flags: seq<Flag>): seq<string> {
    if flags == [] then []
    else
      (match flags[0]
       case AddNinja(arg) => [arg]
       case AddDebug(mode) => ["-d", mode]
       case _ => []) + NinjaArgsOf(flags[1..])
  }

  /** Each kind of list keeps its order, whatever stands between. */
  lemma {:induction false} ListsKeepOrder(st: CliArgs, flags: seq<Flag>)
    ensures ApplyAll(st, flags).ninjaTargets == st.ninjaTargets + TargetsOf(flags)
    ensures ApplyAll(st, flags).ninjaArgs == st.ninjaArgs + NinjaArgsOf(flags)
    decreases |flags|
  {
    if flags == [] {
      assert st.ninjaTargets + [] == st.ninjaTargets && st.ninjaArgs + [] == st.ninjaArgs;
    } else {
      var next := Apply(st, flags[0]);
      ListsKeepOrder(next, flags[1..]);
      var target := if flags[0].AddTarget? then [flags[0].target] else [];
      var args := match flags[0] case AddNinja(arg) => [arg] case AddDebug(mode) => ["-d", mode] case _ => [];
      Regroup(st.ninjaTargets, target, TargetsOf(flags[1..]));
      Regroup(st.ninjaArgs, args, NinjaArgsOf(flags[1..]));
      assert next.ninjaTargets == st.ninjaTargets + target;
      assert next.ninjaArgs == st.ninjaArgs + args;
    }
  }

  // ---------- the tests on strings ----------

  predicate IsLetter(c: char) {
    'a' <= c <= 'z' || 'A' <= c <= 'Z'
  }

  predicate IsKeyChar(c: char) {
    IsLetter(c) || '0' <= c <= '9' || c == '-'
  }

  /** What `.` does not match. */
  predicate EndsLine(c: char) {
    c == '\n' || c == '\r' || c == '\U{2028}' || c == '\U{2029}'
  }

  predicate OneLine(text: string) {
    forall i :: 0 <= i < |text| ==> !EndsLine(text[i])
  }

  /** How many characters `[a-zA-Z0-9-]*` takes. */
  function KeyLength(body: string): (n: nat)
    ensures n <= |body|
  {
    if body == [] || !IsKeyChar(body[0]) then 0 else 1 + KeyLength(body[1..])
  }

  predicate IsRawKey(raw: string) {
    raw != [] && IsLetter(raw[0]) && forall i :: 0 <= i < |raw| ==> IsKeyChar(raw[i])
  }

  /** `arg.match(/^--([a-zA-Z][a-zA-Z0-9-]*)(?:=(.*))?$/)`. */
  function MatchFlag(arg: string): Option<(string, Option<string>)> {
    if |arg| < 3 || arg[0] != '-' || arg[1] != '-' || !IsLetter(arg[2]) then None
    else
      var body := arg[2..];
      var n := KeyLength(body);
      if n == |body| then Some((body, None))
      else if body[n] == '=' && OneLine(body[n + 1..]) then Some((body[..n], Some(body[n + 1..])))
      else None
  }

  /** `rawKey.replace(/-([a-z])/g, (_, c) => c.toUpperCase())`. */
  function Camel(raw: string): string
    decreases |raw|
  {
    if raw == [] then []
    else if |raw| > 1 && raw[0] == '-' && 'a' <= raw[1] <= 'z' then
      [raw[1] - 'a' + 'A'] + Camel(raw[2..])
    else [raw[0]] + Camel(raw[1..])
  }

  function KeyFor(kinds: map<string, Kind>, key: string): Key {
    if key == "target" then Target
    else if key == "configFile" then ConfigFile
    else if key == "profile" then Profile
    else if key in kinds then Field(key, kinds[key])
    else Unknown
  }

  predicate IsPassed(arg: string) {
    |arg| > 1 && arg[0] == '-' && (arg[1] == 'j' || arg[1] == 'k' || arg[1] == 'l' || arg[1] == 'v' || arg[1] == 'n')
  }

  /** `kinds` is the table of configuration fields. */
  function Classify(kinds: map<string, Kind>, arg: string): Arg {
    if arg == "-t" then Tool
    else if arg == "-d" then Debug
    else if IsPassed(arg) then Passed
    else if arg == "--" then DashDash
    else if arg == "--configure-only" then ConfigureOnly
    else if arg == "--quiet" then Quiet
    else if arg == "--timings" then Timings
    else if arg == "--help" || arg == "-h" then Help
    else match MatchFlag(arg)
      case None => Bare
      case Some((raw, value)) => Keyed(KeyFor(kinds, Camel(raw)), value)
  }

  lemma {:induction false} KeyLengthIs(raw: string, tail: string)
    requires forall i :: 0 <= i < |raw| ==> IsKeyChar(raw[i])
    requires tail == [] || !IsKeyChar(tail[0])
    ensures KeyLength(raw + tail) == |raw|
  {
    if raw == [] {
      assert raw + tail == tail;
    } else {
      assert (raw + tail)[1..] == raw[1..] + tail;
      KeyLengthIs(raw[1..], tail);
    }
  }

  function Written(raw: string, text: string): string {
    "--" + raw + "=" + text
  }

  lemma MatchWritten(raw: string, text: string)
    requires IsRawKey(raw)
    ensures MatchFlag(Written(raw, text)) == if OneLine(text) then Some((raw, Some(text))) else None
  {
    var arg := Written(raw, text);
    var body := raw + ("=" + text);
    assert arg[2..] == body;
    KeyLengthIs(raw, "=" + text);
    assert body[..|raw|] == raw && body[|raw|] == '=' && body[|raw| + 1..] == text;
  }

  lemma MatchSpaced(raw: string)
    requires IsRawKey(raw)
    ensures MatchFlag("--" + raw) == Some((raw, None))
  {
    var arg := "--" + raw;
    assert arg[2..] == raw;
    KeyLengthIs(raw, []);
    assert raw + [] == raw;
  }

  predicate HasEquals(arg: string) {
    exists i :: 0 <= i < |arg| && arg[i] == '='
  }

  lemma WordsHaveNoEquals(arg: string)
    requires HasEquals(arg)
    ensures arg != "-t" && arg != "-d" && arg != "--" && arg != "-h"
    ensures arg != "--configure-only" && arg != "--quiet" && arg != "--timings" && arg != "--help"
  {
    var i :| 0 <= i < |arg| && arg[i] == '=';
  }

  /** `--raw=text` is read as the key and the whole text exactly if the text is one line; otherwise it ends
      the flags. */
  lemma WrittenIsKeyed(kinds: map<string, Kind>, raw: string, text: string)
    requires IsRawKey(raw)
    ensures Classify(kinds, Written(raw, text)) ==
            if OneLine(text) then Keyed(KeyFor(kinds, Camel(raw)), Some(text)) else Bare
  {
    var arg := Written(raw, text);
    assert arg[2 + |raw|] == '=';
    WordsHaveNoEquals(arg);
    MatchWritten(raw, text);
  }

  /** `--raw` waits for its value, unless it is a word of its own. */
  lemma SpacedIsKeyed(kinds: map<string, Kind>, raw: string)
    requires IsRawKey(raw)
    requires raw != "configure-only" && raw != "quiet" && raw != "timings" && raw != "help"
    ensures Classify(kinds, "--" + raw) == Keyed(KeyFor(kinds, Camel(raw)), None)
  {
    var arg := "--" + raw;
    assert arg[2..] == raw;
    MatchSpaced(raw);
    assert "--configure-only"[2..] == "configure-only" && "--quiet"[2..] == "quiet";
    assert "--timings"[2..] == "timings" && "--help"[2..] == "help";
  }

  // ---------- values ----------

  function LowerChar(c: char): char {
    if 'A' <= c <= 'Z' then c - 'A' + 'a' else c
  }

  function Lower(text: string): (r: string)
    ensures |r| == |text|
  {
    seq(|text|, i requires 0 <= i < |text| => LowerChar(text[i]))
  }

  function ParseBool(text: string): Option<Value> {
    var lower := Lower(text);
    if lower == "on" || lower == "true" || lower == "yes" || lower == "1" then Some(Bool(true))
    else if lower == "off" || lower == "false" || lower == "no" || lower == "0" then Some(Bool(false))
    else None
  }

  predicate IsDigit(c: char) {
    '0' <= c <= '9'
  }

  function NumberOf(digits: string): nat
    requires forall i :: 0 <= i < |digits| ==> IsDigit(digits[i])
  {
    if digits == [] then 0
    else
      var last := digits[|digits| - 1];
      assert IsDigit(last);
      10 * NumberOf(digits[..|digits| - 1]) + (last - '0') as nat
  }

  predicate IsNumber(text: string) {
    text != [] && forall i :: 0 <= i < |text| ==> IsDigit(text[i])
  }

  function Convert(kind: Kind, text: string): Option<Value> {
    match kind
    case Boolean => ParseBool(text)
    case Number => if IsNumber(text) then Some(Num(NumberOf(text))) else None
    case Text => Some(Str(text))
  }

  function Decimal(n: nat): string {
    if n < 10 then [n as char + '0'] else Decimal(n / 10) + [(n % 10) as char + '0']
  }

  lemma {:induction false} DecimalIsNumber(n: nat)
    ensures IsNumber(Decimal(n)) && NumberOf(Decimal(n)) == n
  {
    if n < 10 {
      assert Decimal(n)[..0] == [];
    } else {
      DecimalIsNumber(n / 10);
      assert Decimal(n)[..|Decimal(n)| - 1] == Decimal(n / 10);
    }
  }

  // ---------- a printer and its inverse ----------

  function Spell(value: Value): string {
    match value
    case Bool(on) => if on then "on" else "off"
    case Num(n) => Decimal(n)
    case Str(text) => text
  }

  function KindOf(value: Value): Kind {
    match value
    case Bool(_) => Boolean
    case Num(_) => Number
    case Str(_) => Text
  }

  lemma ConvertInvertsSpell(value: Value)
    ensures Convert(KindOf(value), Spell(value)) == Some(value)
  {
    match value
    case Bool(on) =>
      assert Lower("on") == "on";
      assert Lower("off") == "off";
    case Num(n) => DecimalIsNumber(n);
    case Str(_) =>
  }

  const DEBUG_MODES := {"stats", "explain", "keepdepfile", "keeprsp", "nostatcache", "list"}

  function TheLexer(kinds: map<string, Kind>): Lexer {
    Lexer((arg: string) => Classify(kinds, arg), (mode: string) => mode in DEBUG_MODES, Convert)
  }

  function NameOf(f: Flag): string
    requires HasKey(f)
  {
    match f
    case SetProfile(_) => "profile"
    case SetConfigFile(_) => "configFile"
    case AddTarget(_) => "target"
    case SetField(name, _) => name
  }

  function TextOf(f: Flag): string
    requires HasKey(f)
  {
    match f
    case SetProfile(profile) => profile
    case SetConfigFile(path) => path
    case AddTarget(target) => target
    case SetField(_, value) => Spell(value)
  }

  function Print(f: Flag): seq<string> {
    if HasKey(f) then [Written(NameOf(f), TextOf(f))]
    else match f
      case AddNinja(arg) => [arg]
      case AddDebug(mode) => ["-d", mode]
      case SetConfigureOnly => ["--configure-only"]
      case SetQuiet => ["--quiet"]
      case SetTimings => ["--timings"]
  }

  /** A flag of the table, with a value of its type. */
  predicate IsPrintable(kinds: map<string, Kind>, f: Flag) {
    match f
    case SetField(name, value) => IsRawKey(name) && KeyFor(kinds, Camel(name)) == Field(name, KindOf(value))
    case AddNinja(arg) => IsPassed(arg)
    case AddDebug(mode) => mode in DEBUG_MODES
    case _ => true
  }

  predicate OnOneLine(f: Flag) {
    HasKey(f) ==> OneLine(TextOf(f))
  }

  lemma NamesAreRead(kinds: map<string, Kind>, f: Flag, kind: Kind)
    requires HasKey(f) && IsPrintable(kinds, f) && (f.SetField? ==> kind == KindOf(f.value))
    ensures IsRawKey(NameOf(f)) && KeyFor(kinds, Camel(NameOf(f))) == KeyOf(f, kind)
  {
    match f
    case SetProfile(_) => PlainName("profile");
    case SetConfigFile(_) => PlainName("configFile");
    case AddTarget(_) => PlainName("target");
    case SetField(_, _) =>
  }

  lemma PlainName(name: string)
    requires name != [] && forall i :: 0 <= i < |name| ==> IsLetter(name[i])
    ensures IsRawKey(name) && Camel(name) == name
  {
    CamelKeeps(name);
  }

  lemma {:induction false} CamelKeeps(raw: string)
    requires forall i :: 0 <= i < |raw| ==> raw[i] != '-'
    ensures Camel(raw) == raw
    decreases |raw|
  {
    if raw != [] {
      CamelKeeps(raw[1..]);
      assert raw == [raw[0]] + raw[1..];
    }
  }

  lemma PrintWrites(kinds: map<string, Kind>, f: Flag)
    requires IsPrintable(kinds, f) && OnOneLine(f)
    ensures Writes(TheLexer(kinds), f, Print(f))
  {
    if HasKey(f) {
      var kind := if f.SetField? then KindOf(f.value) else Text;
      NamesAreRead(kinds, f, kind);
      WrittenIsKeyed(kinds, NameOf(f), TextOf(f));
      if f.SetField? {
        ConvertInvertsSpell(f.value);
      }
      assert Spells(TheLexer(kinds), f, kind, TextOf(f));
    }
  }

  lemma LongTextIsBare(kinds: map<string, Kind>, f: Flag)
    requires IsPrintable(kinds, f) && !OnOneLine(f)
    ensures Print(f) == [Written(NameOf(f), TextOf(f))] && Classify(kinds, Written(NameOf(f), TextOf(f))) == Bare
  {
    NamesAreRead(kinds, f, if f.SetField? then KindOf(f.value) else Text);
    WrittenIsKeyed(kinds, NameOf(f), TextOf(f));
  }

  lemma PrintFirst(flags: seq<Flag>, rest: seq<string>)
    requires flags != []
    ensures Concat(Map(flags, Print)) + rest == Print(flags[0]) + (Concat(Map(flags[1..], Print)) + rest)
  {
    var written := Map(flags, Print);
    assert written[1..] == Map(flags[1..], Print);
    Regroup(written[0], Concat(written[1..]), rest);
  }

  lemma ParseBare(lex: Lexer, arg: string, later: seq<string>, st: CliArgs)
    requires lex.classify(arg) == Bare
    ensures Parse(lex, [arg] + later, st) == Parsed(st.(execArgs := st.execArgs + ([arg] + later)))
  {}

  /** At a flag with a line break the arguments of the program begin. */
  lemma {:induction false} ParseStops(kinds: map<string, Kind>, flags: seq<Flag>, rest: seq<string>, st: CliArgs)
    requires forall i :: 0 <= i < |flags| ==> IsPrintable(kinds, flags[i])
    requires exists i :: 0 <= i < |flags| && !OnOneLine(flags[i])
    ensures var out := Parse(TheLexer(kinds), Concat(Map(flags, Print)) + rest, st);
            out.Parsed? && |out.args.execArgs| > |rest|
    decreases |flags|
  {
    var f, later := flags[0], Concat(Map(flags[1..], Print)) + rest;
    PrintFirst(flags, rest);
    if OnOneLine(f) {
      PrintWrites(kinds, f);
      ParseFlag(TheLexer(kinds), f, Print(f), later, st);
      ParseStops(kinds, flags[1..], rest, Apply(st, f));
    } else {
      LongTextIsBare(kinds, f);
      ParseBare(TheLexer(kinds), Written(NameOf(f), TextOf(f)), later, st);
    }
  }

  lemma PrintedIsParsed(kinds: map<string, Kind>, flags: seq<Flag>, exec: seq<string>)
    requires forall i :: 0 <= i < |flags| ==> IsPrintable(kinds, flags[i]) && OnOneLine(flags[i])
    ensures Parse(TheLexer(kinds), Concat(Map(flags, Print)) + (["--"] + exec), INITIAL) ==
            Parsed(ApplyAll(INITIAL, flags).(execArgs := exec))
  {
    var written := Map(flags, Print);
    forall i | 0 <= i < |flags| ensures Writes(TheLexer(kinds), flags[i], written[i]) {
      PrintWrites(kinds, flags[i]);
    }
    FlagsComeBack(TheLexer(kinds), flags, written, "--", exec);
  }

  /** What is printed for any flags in any order, then `--` and the arguments of the program, parses to
      the record that the flags amount to if and only if no text has a line break. */
  lemma ParseInvertsPrint(kinds: map<string, Kind>, flags: seq<Flag>, exec: seq<string>)
    requires forall i :: 0 <= i < |flags| ==> IsPrintable(kinds, flags[i])
    ensures Parse(TheLexer(kinds), Concat(Map(flags, Print)) + (["--"] + exec), INITIAL) ==
            Parsed(ApplyAll(INITIAL, flags).(execArgs := exec)) <==>
            forall i :: 0 <= i < |flags| ==> OnOneLine(flags[i])
  {
    if forall i :: 0 <= i < |flags| ==> OnOneLine(flags[i]) {
      PrintedIsParsed(kinds, flags, exec);
    } else {
      ParseStops(kinds, flags, ["--"] + exec, INITIAL);
    }
  }

  // ---------- how words are read ----------

  /** The words for a boolean, in any case of letters; nothing else is one. */
  lemma BooleansAre(text: string)
    ensures Convert(Boolean, text) ==
            if Lower(text) in ["on", "true", "yes", "1"] then Some(Bool(true))
            else if Lower(text) in ["off", "false", "no", "0"] then Some(Bool(false))
            else None
  {}

  /** A field may be spelt with a dash and the small letter for each capital. */
  function Kebab(name: string): string {
    if name == [] then []
    else (if 'A' <= name[0] <= 'Z' then ['-', name[0] - 'A' + 'a'] else [name[0]]) + Kebab(name[1..])
  }

  /** Both spellings of a field without dashes are read as the field. */
  lemma {:induction false} CamelInvertsKebab(name: string)
    requires forall i :: 0 <= i < |name| ==> name[i] != '-'
    ensures Camel(Kebab(name)) == name
  {
    if name != [] {
      var rest := Kebab(name[1..]);
      CamelInvertsKebab(name[1..]);
      assert name == [name[0]] + name[1..];
      if 'A' <= name[0] <= 'Z' {
        var c := name[0] - 'A' + 'a';
        assert (['-', c] + rest)[2..] == rest;
      } else {
        assert ([name[0]] + rest)[1..] == rest;
      }
    }
  }

  /** The words that are no `--key`. */
  lemma WordsAre(kinds: map<string, Kind>, more: string)
    ensures Classify(kinds, "-t") == Tool && Classify(kinds, "-d") == Debug && Classify(kinds, "--") == DashDash
    ensures Classify(kinds, "--configure-only") == ConfigureOnly && Classify(kinds, "--quiet") == Quiet
    ensures Classify(kinds, "--timings") == Timings
    ensures Classify(kinds, "--help") == Help && Classify(kinds, "-h") == Help
    ensures Classify(kinds, "-j" + more) == Passed && Classify(kinds, "-k" + more) == Passed
    ensures Classify(kinds, "-l" + more) == Passed && Classify(kinds, "-v" + more) == Passed
    ensures Classify(kinds, "-n" + more) == Passed
  {}

  /** Anything that does not begin with a dash ends the flags. */
  lemma PositionalIsBare(kinds: map<string, Kind>, arg: string)
    requires arg == [] || arg[0] != '-'
    ensures Classify(kinds, arg) == Bare
  {}
}
