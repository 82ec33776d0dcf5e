/** The programs compiled ahead of time, in scripts/runner.node.ts: one process compiles and runs many
    of them and prints a line for each. It may crash, fall silent, repeat itself or print anything, and
    still every program gets one result. */
module AotDriver {
  import opened Lists
  import opened TestResults

  /** Why the driver itself failed a program. */
  datatype Why = Dead(said: string) | Printed(line: string) | NoResult | NoResultAlone

  datatype AotVerdict = Pass | Skip(message: string) | Fail(stage: string, message: string)

  /** What is reported: a verdict of the driver, or the failure of stage "driver" that the runner makes up. */
  datatype Outcome = Given(verdict: AotVerdict) | FailsDriver(why: Why)

  /** A line of the driver as `JSON.parse` and the checks after it take it. */
  datatype DriverLine = Blank | Compiling(file: File) | Verdict(file: File, verdict: AotVerdict) | Other

  /** What one process does: it prints its output in chunks and ends. `said` is how its end is put into words. */
  datatype Process = Process(chunks: seq<string>, exitCode: Option<int>, said: string)

  /** What process number n does when it gets a list of files. Nothing is known about it. */
  type Driver = (nat, seq<File>) -> Process

  // ---------- reading the output ----------

  /** `text.split("\n")`. */
  function Split(text: string): (r: seq<string>)
    ensures r != []
  {
    if text == [] then [""]
    else
      var before := Split(text[..|text| - 1]);
      if text[|text| - 1] == '\n' then before + [""]
      else before[..|before| - 1] + [before[|before| - 1] + [text[|text| - 1]]]
  }

  function Complete(text: string): seq<string> {
    Split(text)[..|Split(text)| - 1]
  }

  function Unfinished(text: string): string {
    Split(text)[|Split(text)| - 1]
  }

  lemma {:induction false} SplitJoined(a: string, b: string)
    ensures Complete(a + b) == Complete(a) + Complete(Unfinished(a) + b)
    ensures Unfinished(a + b) == Unfinished(Unfinished(a) + b)
  {
    if b == [] {
      assert a + b == a && Unfinished(a) + b == Unfinished(a);
      SplitUnfinished(a);
      assert Complete(a) + [] == Complete(a);
    } else {
      var b', c := b[..|b| - 1], b[|b| - 1];
      SplitJoined(a, b');
      var whole, rest := a + b', Unfinished(a) + b';
      assert a + b == whole + [c] && Unfinished(a) + b == rest + [c];
      SplitNext(whole, c);
      SplitNext(rest, c);
      Regroup(Complete(a), Complete(rest), if c == '\n' then [Unfinished(rest)] else []);
    }
  }

  lemma SplitNext(text: string, c: char)
    ensures Complete(text + [c]) == Complete(text) + if c == '\n' then [Unfinished(text)] else []
    ensures Unfinished(text + [c]) == if c == '\n' then "" else Unfinished(text) + [c]
  {
    assert (text + [c])[..|text + [c]| - 1] == text;
    assert Split(text) == Complete(text) + [Unfinished(text)];
  }

  /** What follows the last line feed holds none. */
  lemma {:induction false} SplitUnfinished(text: string)
    ensures Split(Unfinished(text)) == [Unfinished(text)]
  {
    if text != [] {
      var init, c := text[..|text| - 1], text[|text| - 1];
      assert text == init + [c];
      SplitUnfinished(init);
      SplitNext(init, c);
      if c != '\n' {
        SplitNext(Unfinished(init), c);
        assert Split(Unfinished(text)) == Complete(Unfinished(text)) + [Unfinished(Unfinished(text))];
      }
    }
  }

  /** The lines with their ends. */
  function Unlines(lines: seq<string>): string {
    if lines == [] then [] else Unlines(lines[..|lines| - 1]) + lines[|lines| - 1] + "\n"
  }

  /** The lines and the unfinished one make up the text, and none holds a line feed. */
  lemma {:induction false} LinesMakeUpTheText(text: string)
    ensures Unlines(Complete(text)) + Unfinished(text) == text
    ensures '\n' !in Unfinished(text) && forall line :: line in Complete(text) ==> '\n' !in line
  {
    if text != [] {
      var init, c := text[..|text| - 1], text[|text| - 1];
      assert text == init + [c];
      LinesMakeUpTheText(init);
      SplitNext(init, c);
      if c == '\n' {
        UnlinesNext(Complete(init), Unfinished(init));
      } else {
        assert Complete(init) + [] == Complete(init);
        Regroup(Unlines(Complete(init)), Unfinished(init), [c]);
      }
    }
  }

  lemma UnlinesNext(lines: seq<string>, line: string)
    ensures Unlines(lines + [line]) + [] == (Unlines(lines) + line) + ['\n']
  {
    assert (lines + [line])[..|lines|] == lines;
    assert "\n" == ['\n'];
  }

  /** What the runner holds of one process. `named` is the order in which `verdicts` got its keys. */
  datatype Seen = Seen(verdicts: map<File, AotVerdict>, named: seq<File>, started: seq<File>, unexpected: Option<string>)

  const NOTHING_SEEN := Seen(map[], [], [], None)

  function Take(s: Seen, files: seq<File>, text: string, line: DriverLine): Seen {
    if line.Blank? then s
    else if line.Compiling? && line.file in files then s.(started := Add(s.started, line.file))
    else if line.Verdict? && line.file in files then
      s.(verdicts := s.verdicts[line.file := line.verdict], named := Add(s.named, line.file))
    else s.(unexpected := if s.unexpected.Some? then s.unexpected else Some(text[..if |text| < 500 then |text| else 500]))
  }

  function Read(parse: string -> DriverLine, files: seq<File>, lines: seq<string>): Seen {
    if lines == [] then NOTHING_SEEN
    else Take(Read(parse, files, lines[..|lines| - 1]), files, lines[|lines| - 1], parse(lines[|lines| - 1]))
  }

  function Join(chunks: seq<string>): string {
    Flatten(chunks)
  }

  /** The two variables that the callback for output keeps between chunks. */
  class DriverOutput {
    const files: seq<File>
    const parse: string -> DriverLine
    var unfinishedLine: string
    var seen: Seen

    constructor (files: seq<File>, parse: string -> DriverLine)
      ensures this.files == files && this.parse == parse && HasRead("")
    {
      this.files, this.parse := files, parse;
      unfinishedLine, seen := "", NOTHING_SEEN;
    }

    /** The output so far was `text`. */
    ghost predicate HasRead(text: string)
      reads this
    {
      unfinishedLine == Unfinished(text) && seen == Read(parse, files, Complete(text))
    }

    /** Where the chunks begin and end does not matter. */
    method Chunk(chunk: string, ghost text: string)
      requires HasRead(text)
      modifies this
      ensures HasRead(text + chunk)
    {
      SplitJoined(text, chunk);
      var lines := Split(unfinishedLine + chunk);
      unfinishedLine, lines := lines[|lines| - 1], lines[..|lines| - 1];
      TakeLines(lines, Complete(text));
    }

    method TakeLines(lines: seq<string>, ghost before: seq<string>)
      requires seen == Read(parse, files, before)
      modifies this`seen
      ensures seen == Read(parse, files, before + lines)
    {
      assert before + lines[..0] == before;
      for i := 0 to |lines|
        invariant seen == Read(parse, files, before + lines[..i])
      {
        assert (before + lines[..i + 1])[..|before| + i] == before + lines[..i];
        seen := Take(seen, files, lines[i], parse(lines[i]));
      }
      assert lines[..|lines|] == lines;
    }
  }

  function HasNone(verdicts: map<File, AotVerdict>): File -> bool {
    (t: File) => t !in verdicts
  }

  function NotAmong(files: seq<File>): File -> bool {
    (t: File) => t !in files
  }

  /** What `runAotDriver` gives back. */
  datatype DriverRun = DriverRun(seen: Seen, unfinished: seq<File>, died: Option<Why>)

  function Died(seen: Seen, p: Process): Option<Why> {
    if p.exitCode != Some(0) && p.exitCode != Some(1) then Some(Dead(p.said))
    else if seen.unexpected.Some? then Some(Printed(seen.unexpected.value))
    else None
  }

  function RunOf(parse: string -> DriverLine, files: seq<File>, p: Process): DriverRun {
    var seen := Read(parse, files, Complete(Join(p.chunks)));
    DriverRun(seen, Filter(seen.started, HasNone(seen.verdicts)), Died(seen, p))
  }

  method RunAotDriver(parse: string -> DriverLine, files: seq<File>, p: Process) returns (r: DriverRun)
    ensures r == RunOf(parse, files, p)
  {
    var output := new DriverOutput(files, parse);
    for i := 0 to |p.chunks|
      invariant output.files == files && output.parse == parse
      invariant output.HasRead(Join(p.chunks[..i]))
    {
      assert p.chunks[..i + 1][..i] == p.chunks[..i];
      output.Chunk(p.chunks[i], Join(p.chunks[..i]));
    }
    assert p.chunks[..|p.chunks|] == p.chunks;
    var seen := output.seen;
    r := DriverRun(seen, Filter(seen.started, HasNone(seen.verdicts)), Died(seen, p));
  }

  // ---------- what the output means ----------

  /** Line `k` is the last verdict for `t`. */
  predicate LastVerdict(parse: string -> DriverLine, lines: seq<string>, k: nat, t: File) {
    && k < |lines|
    && parse(lines[k]).Verdict? && parse(lines[k]).file == t
    && forall j :: k < j < |lines| ==> !(parse(lines[j]).Verdict? && parse(lines[j]).file == t)
  }

  predicate Expected(line: DriverLine, files: seq<File>) {
    line.Blank? || ((line.Compiling? || line.Verdict?) && line.file in files)
  }

  lemma AddMembers(s: seq<File>, x: File)
    ensures forall t :: t in Add(s, x) <==> t in s || t == x
    ensures Distinct(s) ==> Distinct(Add(s, x))
  {}

  /** The lists hold files of the input, each once. */
  lemma {:induction false} ReadIsValid(parse: string -> DriverLine, files: seq<File>, lines: seq<string>)
    ensures var s := Read(parse, files, lines);
            && Distinct(s.named) && Distinct(s.started)
            && (forall t :: t in s.named <==> t in s.verdicts)
            && (forall t :: t in s.named || t in s.started ==> t in files)
  {
    if lines != [] {
      var init, line := lines[..|lines| - 1], parse(lines[|lines| - 1]);
      ReadIsValid(parse, files, init);
      if line.Compiling? {
        AddMembers(Read(parse, files, init).started, line.file);
      } else if line.Verdict? {
        AddMembers(Read(parse, files, init).named, line.file);
      }
    }
  }

  lemma LastVerdictNext(parse: string -> DriverLine, lines: seq<string>, k: nat, t: File)
    requires lines != []
    ensures var (init, last) := (lines[..|lines| - 1], parse(lines[|lines| - 1]));
            LastVerdict(parse, lines, k, t) <==>
            if last.Verdict? && last.file == t then k == |lines| - 1 else LastVerdict(parse, init, k, t)
  {
    var init, n := lines[..|lines| - 1], |lines| - 1;
    assert forall j :: 0 <= j < n ==> init[j] == lines[j];
    if !(parse(lines[n]).Verdict? && parse(lines[n]).file == t) && LastVerdict(parse, init, k, t) {
      assert forall j :: k < j < |lines| ==> j == n || init[j] == lines[j];
    }
  }

  /** A program has a verdict exactly if a complete line gives it one; the last such line counts. */
  lemma {:induction false} VerdictsAre(parse: string -> DriverLine, files: seq<File>, lines: seq<string>, t: File)
    requires t in files
    ensures var s := Read(parse, files, lines);
            && (t in s.verdicts <==> exists k: nat :: LastVerdict(parse, lines, k, t))
            && (forall k: nat :: LastVerdict(parse, lines, k, t) ==> t in s.verdicts && s.verdicts[t] == parse(lines[k]).verdict)
  {
    if lines != [] {
      var init, last := lines[..|lines| - 1], parse(lines[|lines| - 1]);
      VerdictsAre(parse, files, init, t);
      forall k: nat ensures LastVerdict(parse, lines, k, t) <==>
          if last.Verdict? && last.file == t then k == |lines| - 1 else LastVerdict(parse, init, k, t)
      {
        LastVerdictNext(parse, lines, k, t);
      }
      if last.Verdict? && last.file == t {
        assert LastVerdict(parse, lines, |lines| - 1, t);
      } else if k: nat :| LastVerdict(parse, init, k, t) {
        assert LastVerdict(parse, lines, k, t);
      }
    }
  }

  lemma {:induction false} StartedAre(parse: string -> DriverLine, files: seq<File>, lines: seq<string>, t: File)
    ensures t in Read(parse, files, lines).started <==>
            t in files && exists k :: 0 <= k < |lines| && parse(lines[k]) == Compiling(t)
  {
    if lines != [] {
      var init, n := lines[..|lines| - 1], |lines| - 1;
      StartedAre(parse, files, init, t);
      if k :| 0 <= k < |lines| && parse(lines[k]) == Compiling(t) {
        assert k == n || init[k] == lines[k];
      }
      if k :| 0 <= k < |init| && parse(init[k]) == Compiling(t) {
        assert lines[k] == init[k];
      }
    }
  }

  lemma {:induction false} UnexpectedIs(parse: string -> DriverLine, files: seq<File>, lines: seq<string>)
    ensures Read(parse, files, lines).unexpected.None? <==> forall k :: 0 <= k < |lines| ==> Expected(parse(lines[k]), files)
  {
    if lines != [] {
      var init, n := lines[..|lines| - 1], |lines| - 1;
      UnexpectedIs(parse, files, init);
      assert forall k :: 0 <= k < n ==> init[k] == lines[k];
      if forall k :: 0 <= k < |lines| ==> Expected(parse(lines[k]), files) {
        assert forall k :: 0 <= k < n ==> Expected(parse(init[k]), files);
      }
    }
  }

  /** A run is clean exactly if the process ended with 0 or 1 and every complete line was of use. Among
      what it left unfinished are just the programs that it began and gave no verdict. */
  lemma RunMeans(parse: string -> DriverLine, files: seq<File>, p: Process)
    ensures var (r, lines) := (RunOf(parse, files, p), Complete(Join(p.chunks)));
            && (r.died.None? <==> p.exitCode in [Some(0), Some(1)] && forall k :: 0 <= k < |lines| ==> Expected(parse(lines[k]), files))
            && Distinct(r.unfinished)
            && (forall t :: t in r.unfinished <==>
                  t in files && t !in r.seen.verdicts && exists k :: 0 <= k < |lines| && parse(lines[k]) == Compiling(t))
  {
    var lines := Complete(Join(p.chunks));
    var s := Read(parse, files, lines);
    UnexpectedIs(parse, files, lines);
    ReadIsValid(parse, files, lines);
    FilterDistinct(s.started, HasNone(s.verdicts));
    forall t ensures t in RunOf(parse, files, p).unfinished <==>
        t in files && t !in s.verdicts && exists k :: 0 <= k < |lines| && parse(lines[k]) == Compiling(t)
    {
      FilterMembers(s.started, HasNone(s.verdicts), t);
      StartedAre(parse, files, lines, t);
    }
  }

  // ---------- the loop over processes ----------

  /** What process number n gives back for a list of files. */
  type Runs = (nat, seq<File>) -> DriverRun

  /** All that the loop relies on. */
  ghost predicate IsRunFor(r: DriverRun, files: seq<File>) {
    && Distinct(r.seen.named) && Distinct(r.unfinished)
    && (forall t :: t in r.seen.named <==> t in r.seen.verdicts)
    && (forall t :: t in r.seen.named ==> t in files)
    && (forall t :: t in r.unfinished ==> t in files && t !in r.seen.verdicts)
  }

  ghost predicate AreRuns(run: Runs) {
    forall n: nat, files: seq<File> {:trigger IsRunFor(run(n, files), files)} :: IsRunFor(run(n, files), files)
  }

  ghost predicate Follows(run: Runs, parse: string -> DriverLine, driver: Driver) {
    forall n: nat, files: seq<File> {:trigger RunOf(parse, files, driver(n, files))} ::
      run(n, files) == RunOf(parse, files, driver(n, files))
  }

  function RunsOf(parse: string -> DriverLine, driver: Driver): Runs {
    (n: nat, files: seq<File>) => RunOf(parse, files, driver(n, files))
  }

  lemma RunIsRun(parse: string -> DriverLine, files: seq<File>, p: Process)
    ensures IsRunFor(RunOf(parse, files, p), files)
  {
    RunMeans(parse, files, p);
    ReadIsValid(parse, files, Complete(Join(p.chunks)));
  }

  /** Whatever the driver does. */
  lemma DriversGiveRuns(parse: string -> DriverLine, driver: Driver)
    ensures AreRuns(RunsOf(parse, driver)) && Follows(RunsOf(parse, driver), parse, driver)
  {
    forall n: nat, files: seq<File> ensures IsRunFor(RunsOf(parse, driver)(n, files), files) {
      RunIsRun(parse, files, driver(n, files));
    }
  }

  datatype Report = Report(file: File, outcome: Outcome)

  function OutcomeFor(s: Seen, t: File, otherwise: Why): Outcome {
    if t in s.verdicts then Given(s.verdicts[t]) else FailsDriver(otherwise)
  }

  function ReportEach(files: seq<File>, outcomeOf: File -> Outcome): seq<Report> {
    if files == [] then []
    else ReportEach(files[..|files| - 1], outcomeOf) + [Report(files[|files| - 1], outcomeOf(files[|files| - 1]))]
  }

  function VerdictReports(s: Seen): seq<Report> {
    ReportEach(s.named, t => OutcomeFor(s, t, NoResult))
  }

  function BlameAll(left: seq<File>, r: DriverRun): seq<Report> {
    ReportEach(left, t => FailsDriver(if r.died.Some? then r.died.value else NoResult))
  }

  function AloneReport(run: Runs, n: nat, t: File): Report {
    var r := run(n, [t]);
    Report(t, OutcomeFor(r.seen, t, if r.died.Some? then r.died.value else NoResultAlone))
  }

  function AloneReports(run: Runs, n: nat, files: seq<File>): seq<Report> {
    seq(|files|, i requires 0 <= i < |files| => AloneReport(run, n + i, files[i]))
  }

  function WithoutVerdict(left: seq<File>, r: DriverRun): seq<File> {
    Filter(left, HasNone(r.seen.verdicts))
  }

  function Next(left: seq<File>, r: DriverRun): seq<File> {
    Filter(WithoutVerdict(left, r), NotAmong(r.unfinished))
  }

  /** No other process follows. */
  predicate IsLast(r: DriverRun) {
    r.died.None? || r.unfinished == []
  }

  lemma NextIsShorter(left: seq<File>, r: DriverRun)
    requires IsRunFor(r, left)
    ensures |Next(left, r)| + |r.unfinished| <= |left|
  {
    FilterShortens(left, HasNone(r.seen.verdicts), []);
    forall t | t in r.unfinished ensures t in WithoutVerdict(left, r) {
      FilterMembers(left, HasNone(r.seen.verdicts), t);
    }
    FilterShortens(WithoutVerdict(left, r), NotAmong(r.unfinished), r.unfinished);
  }

  /** What one round of the loop reports. */
  function Round(run: Runs, n: nat, left: seq<File>): seq<Report> {
    var r := run(n, left);
    if IsLast(r) then VerdictReports(r.seen) + BlameAll(WithoutVerdict(left, r), r)
    else VerdictReports(r.seen) + AloneReports(run, n + 1, r.unfinished)
  }

  type Rounds = (nat, seq<File>) -> seq<Report>

  function RoundsOf(run: Runs): Rounds {
    (n: nat, left: seq<File>) => Round(run, n, left)
  }

  ghost predicate AreRounds(round: Rounds, run: Runs) {
    forall n: nat, left: seq<File> {:trigger Round(run, n, left)} :: round(n, left) == Round(run, n, left)
  }

  /** The number of the process after the round and what is left for it. */
  function After(run: Runs, n: nat, left: seq<File>): (nat, seq<File>) {
    var r := run(n, left);
    if IsLast(r) then (n + 1, []) else (n + 1 + |r.unfinished|, Next(left, r))
  }

  /** The lists that the processes of one round are started on. */
  function RoundFiles(run: Runs, n: nat, left: seq<File>): (r: seq<seq<File>>)
    ensures n + |r| == After(run, n, left).0
  {
    var r := run(n, left);
    [left] + if IsLast(r) then [] else Singles(r.unfinished)
  }

  function Singles(files: seq<File>): seq<seq<File>> {
    Map(files, t => [t])
  }

  lemma AfterIsLess(run: Runs, n: nat, left: seq<File>)
    requires AreRuns(run) && left != []
    ensures |After(run, n, left).1| < |left|
    ensures After(run, n, left).0 + 2 * |After(run, n, left).1| <= n + 2 * |left|
  {
    assert IsRunFor(run(n, left), left);
    NextIsShorter(left, run(n, left));
  }

  /** The rounds for `left`, one after another, when process number `n` is the next. */
  ghost function Chain(run: Runs, round: Rounds, n: nat, left: seq<File>): seq<Report>
    requires AreRuns(run)
    decreases |left|
  {
    if left == [] then []
    else
      AfterIsLess(run, n, left);
      round(n, left) + Chain(run, round, After(run, n, left).0, After(run, n, left).1)
  }

  /** The lists that all processes for `left` are started on, process number `n` first. */
  ghost function Started(run: Runs, n: nat, left: seq<File>): seq<seq<File>>
    requires AreRuns(run)
    decreases |left|
  {
    if left == [] then []
    else
      AfterIsLess(run, n, left);
      RoundFiles(run, n, left) + Started(run, After(run, n, left).0, After(run, n, left).1)
  }

  /** What is reported for `files`, in order. */
  ghost function Reports(run: Runs, files: seq<File>): seq<Report>
    requires AreRuns(run)
  {
    Chain(run, RoundsOf(run), 0, files)
  }

  /** `words` is how the runner puts it. */
  function ResultsOfReport(words: Why -> string, r: Report): Results {
    match r.outcome
    case Given(Fail(stage, message)) => Results([], [], [Entry(r.file, TestResult(false, stage + ": " + message))])
    case FailsDriver(why) => Results([], [], [Entry(r.file, TestResult(false, words(why)))])
    case _ => Results([Entry(r.file, TestResult(true, ""))], [], [])
  }

  function LedgerOf(words: Why -> string, reports: seq<Report>): Results {
    if reports == [] then NOTHING
    else LedgerOf(words, reports[..|reports| - 1]).Then(ResultsOfReport(words, reports[|reports| - 1]))
  }

  lemma LedgerNext(words: Why -> string, reports: seq<Report>, r: Report)
    ensures LedgerOf(words, reports + [r]) == LedgerOf(words, reports).Then(ResultsOfReport(words, r))
  {
    assert (reports + [r])[..|reports|] == reports;
  }

  lemma {:induction false} LedgerOfJoined(words: Why -> string, a: seq<Report>, b: seq<Report>)
    ensures LedgerOf(words, a + b) == LedgerOf(words, a).Then(LedgerOf(words, b))
  {
    if b == [] {
      assert a + b == a;
      ThenNothing(LedgerOf(words, a));
    } else {
      var init, last := b[..|b| - 1], b[|b| - 1];
      assert a + b == (a + init) + [last];
      LedgerOfJoined(words, a, init);
      LedgerNext(words, a + init, last);
      ThenIsAssociative(LedgerOf(words, a), LedgerOf(words, init), ResultsOfReport(words, last));
    }
  }

  /** `ledger` holds what it held at first and what was reported since. */
  ghost predicate Holds(words: Why -> string, ledger: Ledger, before: Results, reports: seq<Report>)
    reads ledger
  {
    ledger.Lists() == before.Then(LedgerOf(words, reports))
  }

  method ReportAotProgram(words: Why -> string, ledger: Ledger, r: Report, ghost before: Results, ghost reports: seq<Report>)
    requires Holds(words, ledger, before, reports)
    modifies ledger
    ensures Holds(words, ledger, before, reports + [r])
  {
    LedgerNext(words, reports, r);
    ThenIsAssociative(before, LedgerOf(words, reports), ResultsOfReport(words, r));
    if r.outcome.FailsDriver? || r.outcome.verdict.Fail? {
      var error :=
        if r.outcome.FailsDriver? then words(r.outcome.why) else r.outcome.verdict.stage + ": " + r.outcome.verdict.message;
      var failure := TestResult(false, error);
      ledger.RunTest(r.file, Tries(_ => failure, _ => false), 1);
    } else {
      ledger.Accept(r.file);
    }
  }

  method ReportAll(words: Why -> string, ledger: Ledger, more: seq<Report>, ghost before: Results, ghost reports: seq<Report>)
    requires Holds(words, ledger, before, reports)
    modifies ledger
    ensures Holds(words, ledger, before, reports + more)
  {
    assert reports + more[..0] == reports;
    for i := 0 to |more|
      invariant Holds(words, ledger, before, reports + more[..i])
    {
      assert reports + more[..i + 1] == (reports + more[..i]) + [more[i]];
      ReportAotProgram(words, ledger, more[i], before, reports + more[..i]);
    }
    assert more[..|more|] == more;
  }

  /** Where processes are started. Each does what `driver` says for its number and its list. */
  class Machine {
    const driver: Driver
    /** The lists that processes were started on so far. */
    var started: seq<seq<File>>

    constructor (driver: Driver)
      ensures this.driver == driver && started == []
    {
      this.driver, started := driver, [];
    }

    method Spawn(ghost run: Runs, parse: string -> DriverLine, files: seq<File>) returns (r: DriverRun)
      requires Follows(run, parse, driver)
      modifies this
      ensures started == old(started) + [files] && r == run(|old(started)|, files)
    {
      r := RunAotDriver(parse, files, driver(|started|, files));
      started := started + [files];
    }
  }

  lemma AloneNext(run: Runs, n: nat, files: seq<File>, i: nat, reports: seq<Report>)
    requires i < |files|
    ensures reports + AloneReports(run, n, files[..i + 1]) ==
            (reports + AloneReports(run, n, files[..i])) + [AloneReport(run, n + i, files[i])]
  {
    assert AloneReports(run, n, files[..i + 1]) == AloneReports(run, n, files[..i]) + [AloneReport(run, n + i, files[i])];
  }

  lemma SinglesNext(before: seq<seq<File>>, files: seq<File>, i: nat)
    requires i < |files|
    ensures before + Singles(files[..i + 1]) == (before + Singles(files[..i])) + [[files[i]]]
  {
    assert Singles(files[..i + 1]) == Singles(files[..i]) + [[files[i]]];
  }

  method RunOneAlone(words: Why -> string, ledger: Ledger, machine: Machine, ghost run: Runs, parse: string -> DriverLine,
                     ghost n: nat, files: seq<File>, i: nat, ghost before: Results, ghost reports: seq<Report>)
    requires i < |files| && Follows(run, parse, machine.driver) && |machine.started| == n + i
    requires Holds(words, ledger, before, reports + AloneReports(run, n, files[..i]))
    modifies ledger, machine
    ensures Holds(words, ledger, before, reports + AloneReports(run, n, files[..i + 1]))
    ensures machine.started == old(machine.started) + [[files[i]]]
  {
    var t := files[i];
    var alone := machine.Spawn(run, parse, [t]);
    var outcome := OutcomeFor(alone.seen, t, if alone.died.Some? then alone.died.value else NoResultAlone);
    AloneNext(run, n, files, i, reports);
    ReportAotProgram(words, ledger, Report(t, outcome), before, reports + AloneReports(run, n, files[..i]));
  }

  /** A process for each of the programs that were unfinished when the driver died. */
  method RunAlone(words: Why -> string, ledger: Ledger, machine: Machine, ghost run: Runs, parse: string -> DriverLine,
                  files: seq<File>, ghost before: Results, ghost reports: seq<Report>)
    requires Follows(run, parse, machine.driver) && Holds(words, ledger, before, reports)
    modifies ledger, machine
    ensures Holds(words, ledger, before, reports + AloneReports(run, |old(machine.started)|, files))
    ensures machine.started == old(machine.started) + Singles(files)
  {
    ghost var n := |machine.started|;
    assert reports + AloneReports(run, n, files[..0]) == reports;
    assert machine.started + Singles(files[..0]) == machine.started;
    for i := 0 to |files|
      invariant Holds(words, ledger, before, reports + AloneReports(run, n, files[..i]))
      invariant machine.started == old(machine.started) + Singles(files[..i])
    {
      SinglesNext(old(machine.started), files, i);
      RunOneAlone(words, ledger, machine, run, parse, n, files, i, before, reports);
    }
    assert files[..|files|] == files;
  }

  method RunRound(words: Why -> string, ledger: Ledger, machine: Machine, ghost run: Runs, ghost round: Rounds,
                  parse: string -> DriverLine, left: seq<File>, ghost before: Results, ghost reports: seq<Report>)
    returns (rest: seq<File>)
    requires Follows(run, parse, machine.driver) && AreRounds(round, run) && Holds(words, ledger, before, reports)
    modifies ledger, machine
    ensures var n := |old(machine.started)|;
            && rest == After(run, n, left).1 && Holds(words, ledger, before, reports + round(n, left))
            && machine.started == old(machine.started) + RoundFiles(run, n, left)
  {
    ghost var n := |machine.started|;
    var r := machine.Spawn(run, parse, left);
    assert Round(run, n, left) == round(n, left);
    var told := VerdictReports(r.seen);
    ReportAll(words, ledger, told, before, reports);
    if IsLast(r) {
      var blamed := BlameAll(WithoutVerdict(left, r), r);
      ReportAll(words, ledger, blamed, before, reports + told);
      Regroup(reports, told, blamed);
      rest := [];
    } else {
      RunAlone(words, ledger, machine, run, parse, r.unfinished, before, reports + told);
      Regroup(reports, told, AloneReports(run, n + 1, r.unfinished));
      Regroup(old(machine.started), [left], Singles(r.unfinished));
      rest := Next(left, r);
    }
  }

  /** With these reports made and these processes started, the rest of `all` and of `lists` is to come for `left`. */
  ghost predicate Told(run: Runs, round: Rounds, all: seq<Report>, lists: seq<seq<File>>, started: seq<seq<File>>,
                       left: seq<File>, reports: seq<Report>)
    requires AreRuns(run)
  {
    reports + Chain(run, round, |started|, left) == all && started + Started(run, |started|, left) == lists
  }

  lemma ToldNext(run: Runs, round: Rounds, all: seq<Report>, lists: seq<seq<File>>, started: seq<seq<File>>,
                 left: seq<File>, reports: seq<Report>)
    requires AreRuns(run) && left != [] && Told(run, round, all, lists, started, left, reports)
    ensures var n := |started|;
            Told(run, round, all, lists, started + RoundFiles(run, n, left), After(run, n, left).1, reports + round(n, left))
  {
    var n := |started|;
    var (n', left') := After(run, n, left);
    Regroup(reports, round(n, left), Chain(run, round, n', left'));
    Regroup(started, RoundFiles(run, n, left), Started(run, n', left'));
  }

  lemma ToldAll(run: Runs, round: Rounds, all: seq<Report>, lists: seq<seq<File>>, started: seq<seq<File>>, reports: seq<Report>)
    requires AreRuns(run)
    ensures Told(run, round, all, lists, started, [], reports) <==> reports == all && started == lists
  {
    Regroup(reports, [], []);
    Regroup(started, [], []);
  }

  /** One turn of the loop. After the last nothing is left. */
  method Turn(words: Why -> string, ledger: Ledger, machine: Machine, parse: string -> DriverLine, left: seq<File>,
              ghost run: Runs, ghost round: Rounds, ghost all: seq<Report>, ghost lists: seq<seq<File>>,
              ghost before: Results, ghost reports: seq<Report>)
    returns (rest: seq<File>, ghost told: seq<Report>)
    requires AreRuns(run) && Follows(run, parse, machine.driver) && AreRounds(round, run)
    requires left != [] && Holds(words, ledger, before, reports)
    requires Told(run, round, all, lists, machine.started, left, reports)
    modifies ledger, machine
    ensures Holds(words, ledger, before, told) && Told(run, round, all, lists, machine.started, rest, told)
    ensures |rest| < |left|
  {
    ToldNext(run, round, all, lists, machine.started, left, reports);
    AfterIsLess(run, |machine.started|, left);
    told := reports + round(|machine.started|, left);
    rest := RunRound(words, ledger, machine, run, round, parse, left, before, reports);
  }

  /** The loop, for `run` and `round` that agree with the processes that the machine starts. */
  method RunRounds(words: Why -> string, ledger: Ledger, machine: Machine, parse: string -> DriverLine, files: seq<File>,
                   ghost run: Runs, ghost round: Rounds, ghost all: seq<Report>, ghost lists: seq<seq<File>>)
    requires AreRuns(run) && Follows(run, parse, machine.driver) && AreRounds(round, run)
    requires Told(run, round, all, lists, machine.started, files, [])
    modifies ledger, machine
    ensures Holds(words, ledger, old(ledger.Lists()), all) && machine.started == lists
  {
    var left := files;
    ghost var before, reports: seq<Report> := ledger.Lists(), [];
    ThenNothing(before);
    while left != []
      invariant Holds(words, ledger, before, reports)
      invariant Told(run, round, all, lists, machine.started, left, reports)
      decreases |left|
    {
      left, reports := Turn(words, ledger, machine, parse, left, run, round, all, lists, before, reports);
    }
    ToldAll(run, round, all, lists, machine.started, reports);
  }

  lemma {:induction false} FewAreStarted(run: Runs, n: nat, left: seq<File>)
    requires AreRuns(run)
    ensures |Started(run, n, left)| <= 2 * |left|
    decreases |left|
  {
    if left != [] {
      AfterIsLess(run, n, left);
      FewAreStarted(run, After(run, n, left).0, After(run, n, left).1);
    }
  }

  method RunAotPrograms(words: Why -> string, ledger: Ledger, parse: string -> DriverLine, driver: Driver, files: seq<File>)
    returns (machine: Machine)
    modifies ledger
    ensures AreRuns(RunsOf(parse, driver)) && fresh(machine) && machine.driver == driver
    ensures Holds(words, ledger, old(ledger.Lists()), Reports(RunsOf(parse, driver), files))
    ensures machine.started == Started(RunsOf(parse, driver), 0, files)
    ensures |machine.started| <= 2 * |files|
  {
    DriversGiveRuns(parse, driver);
    ghost var run := RunsOf(parse, driver);
    ghost var all, lists := Reports(run, files), Started(run, 0, files);
    assert [] + all == all && [] + lists == lists;
    machine := new Machine(driver);
    RunRounds(words, ledger, machine, parse, files, run, RoundsOf(run), all, lists);
    FewAreStarted(run, 0, files);
  }

  // ---------- one result per program ----------

  /** How often `t` is reported. */
  function Times(reports: seq<Report>, t: File): nat {
    if reports == [] then 0
    else Times(reports[..|reports| - 1], t) + if reports[|reports| - 1].file == t then 1 else 0
  }

  lemma {:induction false} TimesJoined(a: seq<Report>, b: seq<Report>, t: File)
    ensures Times(a + b, t) == Times(a, t) + Times(b, t)
  {
    if b == [] {
      assert a + b == a;
    } else {
      assert (a + b)[..|a + b| - 1] == a + b[..|b| - 1];
      TimesJoined(a, b[..|b| - 1], t);
    }
  }

  /** A list of reports that names `files` in order. */
  lemma {:induction false} TimesOfFiles(reports: seq<Report>, files: seq<File>, t: File)
    requires |reports| == |files| && forall i :: 0 <= i < |files| ==> reports[i].file == files[i]
    ensures Times(reports, t) == multiset(files)[t]
  {
    if files != [] {
      TimesOfFiles(reports[..|files| - 1], files[..|files| - 1], t);
      assert files == files[..|files| - 1] + [files[|files| - 1]];
    }
  }

  lemma {:induction false} ReportEachIs(files: seq<File>, outcomeOf: File -> Outcome)
    ensures var reports := ReportEach(files, outcomeOf);
            |reports| == |files| && forall i :: 0 <= i < |files| ==> reports[i] == Report(files[i], outcomeOf(files[i]))
  {
    if files != [] {
      ReportEachIs(files[..|files| - 1], outcomeOf);
    }
  }

  lemma TimesOfEach(files: seq<File>, outcomeOf: File -> Outcome, t: File)
    ensures Times(ReportEach(files, outcomeOf), t) == multiset(files)[t]
  {
    ReportEachIs(files, outcomeOf);
    TimesOfFiles(ReportEach(files, outcomeOf), files, t);
  }

  lemma DistinctFilterCount(files: seq<File>, keep: File -> bool, t: File)
    requires Distinct(files)
    ensures multiset(Filter(files, keep))[t] == if t in files && keep(t) then 1 else 0
  {
    FilterDistinct(files, keep);
    DistinctCount(Filter(files, keep), t);
    FilterMembers(files, keep, t);
  }

  /** A round reports what it does not leave. */
  ghost predicate ReportsItsShare(run: Runs, round: Rounds, n: nat, left: seq<File>, t: File) {
    var r := run(n, left);
    Times(round(n, left), t) == if t in left && (IsLast(r) || t in r.seen.verdicts || t in r.unfinished) then 1 else 0
  }

  lemma TimesOfVerdicts(left: seq<File>, r: DriverRun, t: File)
    requires IsRunFor(r, left)
    ensures Times(VerdictReports(r.seen), t) == if t in r.seen.verdicts then 1 else 0
  {
    TimesOfEach(r.seen.named, t => OutcomeFor(r.seen, t, NoResult), t);
    DistinctCount(r.seen.named, t);
  }

  lemma TimesOfBlame(left: seq<File>, r: DriverRun, t: File)
    requires Distinct(left)
    ensures Times(BlameAll(WithoutVerdict(left, r), r), t) == if t in left && t !in r.seen.verdicts then 1 else 0
  {
    TimesOfEach(WithoutVerdict(left, r), t => FailsDriver(if r.died.Some? then r.died.value else NoResult), t);
    DistinctFilterCount(left, HasNone(r.seen.verdicts), t);
  }

  lemma TimesOfAlone(run: Runs, n: nat, files: seq<File>, t: File)
    requires Distinct(files)
    ensures Times(AloneReports(run, n, files), t) == if t in files then 1 else 0
  {
    TimesOfFiles(AloneReports(run, n, files), files, t);
    DistinctCount(files, t);
  }

  lemma TimesInRound(run: Runs, n: nat, left: seq<File>, t: File)
    requires IsRunFor(run(n, left), left) && Distinct(left)
    ensures ReportsItsShare(run, RoundsOf(run), n, left, t)
  {
    var r := run(n, left);
    TimesOfVerdicts(left, r, t);
    if IsLast(r) {
      TimesOfBlame(left, r, t);
      TimesJoined(VerdictReports(r.seen), BlameAll(WithoutVerdict(left, r), r), t);
    } else {
      TimesOfAlone(run, n + 1, r.unfinished, t);
      TimesJoined(VerdictReports(r.seen), AloneReports(run, n + 1, r.unfinished), t);
    }
  }

  lemma AfterIs(run: Runs, n: nat, left: seq<File>, t: File)
    ensures var r := run(n, left);
            t in After(run, n, left).1 <==> t in left && !IsLast(r) && t !in r.seen.verdicts && t !in r.unfinished
    ensures Distinct(left) ==> Distinct(After(run, n, left).1)
  {
    var r := run(n, left);
    FilterMembers(left, HasNone(r.seen.verdicts), t);
    FilterMembers(WithoutVerdict(left, r), NotAmong(r.unfinished), t);
    if Distinct(left) {
      FilterDistinct(left, HasNone(r.seen.verdicts));
      FilterDistinct(WithoutVerdict(left, r), NotAmong(r.unfinished));
    }
  }

  lemma OneReportNext(run: Runs, round: Rounds, n: nat, left: seq<File>, rest: seq<Report>, t: File)
    requires ReportsItsShare(run, round, n, left, t)
    requires Times(rest, t) == if t in After(run, n, left).1 then 1 else 0
    ensures Times(round(n, left) + rest, t) == if t in left then 1 else 0
  {
    AfterIs(run, n, left, t);
    TimesJoined(round(n, left), rest, t);
  }

  ghost predicate AllReportTheirShare(run: Runs, round: Rounds, t: File) {
    forall n: nat, files: seq<File> {:trigger ReportsItsShare(run, round, n, files, t)} ::
      Distinct(files) ==> ReportsItsShare(run, round, n, files, t)
  }

  lemma {:induction false} OneReportFrom(run: Runs, round: Rounds, n: nat, left: seq<File>, t: File)
    requires AreRuns(run) && Distinct(left) && AllReportTheirShare(run, round, t)
    ensures Times(Chain(run, round, n, left), t) == if t in left then 1 else 0
    decreases |left|
  {
    if left != [] {
      AfterIsLess(run, n, left);
      AfterIs(run, n, left, t);
      OneReportFrom(run, round, After(run, n, left).0, After(run, n, left).1, t);
      OneReportNext(run, round, n, left, Chain(run, round, After(run, n, left).0, After(run, n, left).1), t);
    }
  }

  lemma CountOfReport(words: Why -> string, r: Report, t: File)
    ensures ResultsOfReport(words, r).CountOf(t) == if r.file == t then 1 else 0
  {
    forall e: Entry ensures Count([e], t) == if e.file == t then 1 else 0 {
      CountOne(e, t);
    }
  }

  lemma {:induction false} CountOfReports(words: Why -> string, reports: seq<Report>, t: File)
    ensures LedgerOf(words, reports).CountOf(t) == Times(reports, t)
  {
    if reports != [] {
      var init, last := reports[..|reports| - 1], reports[|reports| - 1];
      CountOfReports(words, init, t);
      CountThen(LedgerOf(words, init), ResultsOfReport(words, last), t);
      CountOfReport(words, last, t);
    }
  }

  /** Every program gets exactly one entry, and no other file gets one, whatever the driver does. */
  lemma OneEntryPerProgram(words: Why -> string, parse: string -> DriverLine, driver: Driver, files: seq<File>, t: File)
    requires Distinct(files)
    ensures AreRuns(RunsOf(parse, driver))
    ensures LedgerOf(words, Reports(RunsOf(parse, driver), files)).CountOf(t) == if t in files then 1 else 0
  {
    var run := RunsOf(parse, driver);
    DriversGiveRuns(parse, driver);
    CountOfReports(words, Reports(run, files), t);
    forall m: nat, left: seq<File> | Distinct(left) ensures ReportsItsShare(run, RoundsOf(run), m, left, t) {
      assert IsRunFor(run(m, left), left);
      TimesInRound(run, m, left, t);
    }
    OneReportFrom(run, RoundsOf(run), 0, files, t);
  }

  // ---------- each result is earned ----------

  lemma VerdictReportIs(s: Seen, report: Report)
    requires report in VerdictReports(s)
    ensures report.file in s.named && report.outcome == OutcomeFor(s, report.file, NoResult)
  {
    ReportEachIs(s.named, t => OutcomeFor(s, t, NoResult));
  }

  lemma BlameIs(left: seq<File>, r: DriverRun, report: Report)
    requires report in BlameAll(WithoutVerdict(left, r), r)
    ensures report.file in left && report.file !in r.seen.verdicts
    ensures report.outcome == FailsDriver(if r.died.Some? then r.died.value else NoResult)
  {
    ReportEachIs(WithoutVerdict(left, r), t => FailsDriver(if r.died.Some? then r.died.value else NoResult));
    FilterMembers(left, HasNone(r.seen.verdicts), report.file);
  }

  lemma AloneReportIs(run: Runs, n: nat, files: seq<File>, report: Report) returns (i: nat)
    requires report in AloneReports(run, n, files)
    ensures i < |files| && files[i] == report.file && report == AloneReport(run, n + i, report.file)
  {
    i :| 0 <= i < |files| && AloneReports(run, n, files)[i] == report;
  }

  /** The report is what process number `m`, started on `files`, says about the program, or blames the
      driver for saying nothing: then it began nothing else that could be to blame, or ran this alone. */
  ghost predicate Earned(run: Runs, m: nat, files: seq<File>, report: Report) {
    var r := run(m, files);
    && report.file in files
    && if report.file in r.seen.verdicts then report.outcome == Given(r.seen.verdicts[report.file])
       else
         && report.outcome.FailsDriver?
         && (if r.died.Some? then report.outcome.why == r.died.value else report.outcome.why in [NoResult, NoResultAlone])
         && (files == [report.file] || IsLast(r))
  }

  /** One of the processes from number `n` on, which were started on `lists`, earned the report. */
  ghost predicate EarnedIn(run: Runs, n: nat, lists: seq<seq<File>>, report: Report) {
    exists i: nat :: i < |lists| && Earned(run, n + i, lists[i], report)
  }

  lemma EarnedHere(run: Runs, n: nat, lists: seq<seq<File>>, i: nat, some: seq<File>, report: Report)
    requires i < |lists| && lists[i] == some && Earned(run, n + i, some, report)
    ensures EarnedIn(run, n, lists, report)
  {}

  lemma AloneIsEarned(run: Runs, n: nat, left: seq<File>, report: Report)
    requires !IsLast(run(n, left)) && report in AloneReports(run, n + 1, run(n, left).unfinished)
    ensures EarnedIn(run, n, RoundFiles(run, n, left), report)
  {
    var unfinished := run(n, left).unfinished;
    var j := AloneReportIs(run, n + 1, unfinished, report);
    EarnedHere(run, n, RoundFiles(run, n, left), j + 1, [report.file], report);
  }

  /** The report of the process for the whole list. */
  predicate InWhole(r: DriverRun, left: seq<File>, report: Report) {
    report in VerdictReports(r.seen) || (IsLast(r) && report in BlameAll(WithoutVerdict(left, r), r))
  }

  lemma WholeIsEarned(run: Runs, n: nat, left: seq<File>, report: Report)
    requires IsRunFor(run(n, left), left) && InWhole(run(n, left), left, report)
    ensures Earned(run, n, left, report)
  {
    var r := run(n, left);
    if report in VerdictReports(r.seen) {
      VerdictReportIs(r.seen, report);
    } else {
      BlameIs(left, r, report);
    }
  }

  /** The process for the whole list is the first of its round. */
  lemma WholeIsFirst(run: Runs, n: nat, left: seq<File>, report: Report)
    requires Earned(run, n, left, report)
    ensures EarnedIn(run, n, RoundFiles(run, n, left), report)
  {
    EarnedHere(run, n, RoundFiles(run, n, left), 0, left, report);
  }

  lemma InRound(run: Runs, n: nat, left: seq<File>, report: Report)
    requires report in Round(run, n, left) && !InWhole(run(n, left), left, report)
    ensures !IsLast(run(n, left)) && report in AloneReports(run, n + 1, run(n, left).unfinished)
  {}

  /** A process of the round earned the report. */
  lemma RoundIsEarned(run: Runs, n: nat, left: seq<File>, report: Report)
    requires IsRunFor(run(n, left), left) && report in Round(run, n, left)
    ensures EarnedIn(run, n, RoundFiles(run, n, left), report)
  {
    if InWhole(run(n, left), left, report) {
      WholeIsEarned(run, n, left, report);
      WholeIsFirst(run, n, left, report);
    } else {
      InRound(run, n, left, report);
      AloneIsEarned(run, n, left, report);
    }
  }

  lemma EarnedFirst(run: Runs, n: nat, first: seq<seq<File>>, later: seq<seq<File>>, report: Report)
    requires EarnedIn(run, n, first, report)
    ensures EarnedIn(run, n, first + later, report)
  {
    var i: nat :| i < |first| && Earned(run, n + i, first[i], report);
    assert (first + later)[i] == first[i];
  }

  lemma EarnedLater(run: Runs, n: nat, first: seq<seq<File>>, later: seq<seq<File>>, report: Report)
    requires EarnedIn(run, n + |first|, later, report)
    ensures EarnedIn(run, n, first + later, report)
  {
    var i: nat :| i < |later| && Earned(run, n + |first| + i, later[i], report);
    var k := |first| + i;
    assert (first + later)[k] == later[i] && n + k == n + |first| + i;
  }

  /** The processes of each round earn its reports. */
  ghost predicate RoundsEarn(run: Runs, round: Rounds) {
    forall n: nat, left: seq<File>, report: Report :: report in round(n, left) ==> EarnedIn(run, n, RoundFiles(run, n, left), report)
  }

  lemma AllRoundsEarn(run: Runs)
    requires AreRuns(run)
    ensures RoundsEarn(run, RoundsOf(run))
  {
    forall n: nat, left: seq<File>, report: Report | report in RoundsOf(run)(n, left)
      ensures EarnedIn(run, n, RoundFiles(run, n, left), report)
    {
      assert IsRunFor(run(n, left), left);
      RoundIsEarned(run, n, left, report);
    }
  }

  lemma {:induction false} ChainIsEarned(run: Runs, round: Rounds, n: nat, left: seq<File>, report: Report)
    requires AreRuns(run) && RoundsEarn(run, round) && report in Chain(run, round, n, left)
    ensures EarnedIn(run, n, Started(run, n, left), report)
    decreases |left|
  {
    AfterIsLess(run, n, left);
    var (next, rest) := After(run, n, left);
    if report in round(n, left) {
      EarnedFirst(run, n, RoundFiles(run, n, left), Started(run, next, rest), report);
    } else {
      ChainIsEarned(run, round, next, rest, report);
      EarnedLater(run, n, RoundFiles(run, n, left), Started(run, next, rest), report);
    }
  }

  /** Every report is what a process that the loop started said of the program, or names why that process
      said nothing. */
  lemma ReportsAreEarned(run: Runs, files: seq<File>, report: Report)
    requires AreRuns(run) && report in Reports(run, files)
    ensures exists k: nat :: k < |Started(run, 0, files)| && Earned(run, k, Started(run, 0, files)[k], report)
  {
    AllRoundsEarn(run);
    ChainIsEarned(run, RoundsOf(run), 0, files, report);
    var k: nat :| k < |Started(run, 0, files)| && Earned(run, 0 + k, Started(run, 0, files)[k], report);
  }

  // ---------- a crash costs only its cause ----------

  /** `killers` make the driver die with something in its hands. Without them every program gets a verdict. */
  ghost predicate OnlyTheseKill(run: Runs, killers: set<File>) {
    forall n: nat, files: seq<File> {:trigger IsRunFor(run(n, files), files)} ::
      if exists k :: k in files && k in killers then !IsLast(run(n, files))
      else forall t :: t in files ==> t in run(n, files).seen.verdicts
  }

  /** Process number `m`, started on `files`, gave this verdict. */
  ghost predicate Said(run: Runs, m: nat, files: seq<File>, report: Report) {
    && report.file in files && report.file in run(m, files).seen.verdicts
    && report.outcome == Given(run(m, files).seen.verdicts[report.file])
  }

  /** Then every other program gets a verdict of a process that the loop started, and none is blamed for a crash. */
  lemma OnlyKillersAreBlamed(run: Runs, killers: set<File>, files: seq<File>, report: Report)
    requires AreRuns(run) && OnlyTheseKill(run, killers)
    requires report in Reports(run, files) && report.file !in killers
    ensures exists k: nat :: k < |Started(run, 0, files)| && Said(run, k, Started(run, 0, files)[k], report)
  {
    ReportsAreEarned(run, files, report);
    var k: nat :| k < |Started(run, 0, files)| && Earned(run, k, Started(run, 0, files)[k], report);
    var some := Started(run, 0, files)[k];
    assert IsRunFor(run(k, some), some);
    assert Said(run, k, some, report);
  }
}
