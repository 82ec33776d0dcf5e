/** In which list each ahead-of-time program ends up, and with which error: what the last process that was
    started with it said, or that process is to blame. */
module AotResults {
  import opened Lists
  import opened TestResults
  import opened AotDriver

  // ---------- the process that counts ----------

  /** Process number `k` is the last one that was started with `t`. */
  ghost predicate IsLastWith(lists: seq<seq<File>>, k: nat, t: File) {
    k < |lists| && t in lists[k] && forall j :: k < j < |lists| ==> t !in lists[j]
  }

  /** An earlier process left `t` unfinished. The first process of `lists` is number `n`. */
  ghost predicate BegunBefore(run: Runs, n: nat, lists: seq<seq<File>>, k: nat, t: File)
    requires k <= |lists|
  {
    exists j: nat :: j < k && LeavesUnfinished(run, n, lists, j, t)
  }

  ghost predicate LeavesUnfinished(run: Runs, n: nat, lists: seq<seq<File>>, j: nat, t: File)
    requires j < |lists|
  {
    t in lists[j] && t in run(n + j, lists[j]).unfinished
  }

  ghost function OutcomeIn(run: Runs, n: nat, lists: seq<seq<File>>, k: nat, t: File): Outcome
    requires k < |lists|
  {
    var r := run(n + k, lists[k]);
    OutcomeFor(r.seen, t,
               if r.died.Some? then r.died.value else if BegunBefore(run, n, lists, k, t) then NoResultAlone else NoResult)
  }

  lemma EachIsReported(files: seq<File>, outcomeOf: File -> Outcome, t: File)
    requires t in files
    ensures Report(t, outcomeOf(t)) in ReportEach(files, outcomeOf)
  {
    ReportEachIs(files, outcomeOf);
    var i :| 0 <= i < |files| && files[i] == t;
    assert ReportEach(files, outcomeOf)[i] == Report(t, outcomeOf(t));
  }

  /** A round reports what it settles. */
  ghost predicate RoundTells(run: Runs, round: Rounds, n: nat, left: seq<File>, t: File) {
    var r := run(n, left);
    && (t in left && (IsLast(r) || t in r.seen.verdicts) ==>
          Report(t, OutcomeFor(r.seen, t, if r.died.Some? then r.died.value else NoResult)) in round(n, left))
    && (!IsLast(r) ==> forall i: nat :: i < |r.unfinished| ==> AloneReport(run, n + 1 + i, r.unfinished[i]) in round(n, left))
  }

  lemma VerdictIsTold(r: DriverRun, left: seq<File>, t: File, why: Why)
    requires IsRunFor(r, left) && t in r.seen.verdicts
    ensures Report(t, OutcomeFor(r.seen, t, why)) in VerdictReports(r.seen)
  {
    EachIsReported(r.seen.named, t => OutcomeFor(r.seen, t, NoResult), t);
  }

  lemma BlameIsTold(r: DriverRun, left: seq<File>, t: File, why: Why)
    requires t in left && t !in r.seen.verdicts && why == if r.died.Some? then r.died.value else NoResult
    ensures Report(t, FailsDriver(why)) in BlameAll(WithoutVerdict(left, r), r)
  {
    FilterMembers(left, HasNone(r.seen.verdicts), t);
    EachIsReported(WithoutVerdict(left, r), t => FailsDriver(if r.died.Some? then r.died.value else NoResult), t);
  }

  lemma AloneIsTold(run: Runs, n: nat, files: seq<File>, i: nat)
    requires i < |files|
    ensures AloneReport(run, n + i, files[i]) in AloneReports(run, n, files)
  {
    assert AloneReports(run, n, files)[i] == AloneReport(run, n + i, files[i]);
  }

  lemma SettledIsTold(run: Runs, n: nat, left: seq<File>, t: File)
    requires IsRunFor(run(n, left), left) && t in left && (IsLast(run(n, left)) || t in run(n, left).seen.verdicts)
    ensures var r := run(n, left);
            Report(t, OutcomeFor(r.seen, t, if r.died.Some? then r.died.value else NoResult)) in Round(run, n, left)
  {
    var r := run(n, left);
    var why := if r.died.Some? then r.died.value else NoResult;
    if t in r.seen.verdicts {
      VerdictIsTold(r, left, t, why);
    } else {
      BlameIsTold(r, left, t, why);
    }
  }

  lemma TellsInRound(run: Runs, n: nat, left: seq<File>, t: File)
    requires IsRunFor(run(n, left), left)
    ensures RoundTells(run, RoundsOf(run), n, left, t)
  {
    var r := run(n, left);
    if t in left && (IsLast(r) || t in r.seen.verdicts) {
      SettledIsTold(run, n, left, t);
    }
    if !IsLast(r) {
      forall i: nat | i < |r.unfinished| ensures AloneReport(run, n + 1 + i, r.unfinished[i]) in Round(run, n, left) {
        AloneIsTold(run, n + 1, r.unfinished, i);
      }
    }
  }

  // ---------- which lists hold a program ----------

  /** The lists of one round. */
  ghost predicate IsRoundOf(first: seq<seq<File>>, left: seq<File>, last: bool, unfinished: seq<File>) {
    first == [left] + if last then [] else Singles(unfinished)
  }

  ghost predicate AllInside(lists: seq<seq<File>>, left: seq<File>) {
    forall j, t :: 0 <= j < |lists| && t in lists[j] ==> t in left
  }

  lemma RoundHolds(first: seq<seq<File>>, left: seq<File>, last: bool, unfinished: seq<File>, j: nat)
    requires IsRoundOf(first, left, last, unfinished) && j < |first|
    ensures if j == 0 then first[j] == left else !last && j - 1 < |unfinished| && first[j] == [unfinished[j - 1]]
  {}

  lemma Joined<T>(first: seq<T>, later: seq<T>, k: nat)
    requires k < |first + later|
    ensures (first + later)[k] == if k < |first| then first[k] else later[k - |first|]
  {}

  lemma AllInsideNext(first: seq<seq<File>>, later: seq<seq<File>>, left: seq<File>, last: bool, unfinished: seq<File>, rest: seq<File>)
    requires IsRoundOf(first, left, last, unfinished) && AllInside(later, rest)
    requires (forall t :: t in unfinished ==> t in left) && (forall t :: t in rest ==> t in left)
    ensures AllInside(first + later, left)
  {
    forall j, t | 0 <= j < |first + later| && t in (first + later)[j] ensures t in left {
      Joined(first, later, j);
      if j < |first| {
        RoundHolds(first, left, last, unfinished, j);
      }
    }
  }

  /** What is neither started alone nor left for later is only in the first list. */
  lemma OnlyInFirst(first: seq<seq<File>>, later: seq<seq<File>>, left: seq<File>, last: bool, unfinished: seq<File>,
                    rest: seq<File>, k: nat, t: File)
    requires IsRoundOf(first, left, last, unfinished) && AllInside(later, rest)
    requires (last || t !in unfinished) && t !in rest && k < |first + later| && t in (first + later)[k]
    ensures k == 0
  {
    Joined(first, later, k);
    if k < |first| {
      RoundHolds(first, left, last, unfinished, k);
    }
  }

  lemma LastAlone(first: seq<seq<File>>, later: seq<seq<File>>, left: seq<File>, unfinished: seq<File>,
                  rest: seq<File>, k: nat, t: File, i: nat)
    requires IsRoundOf(first, left, false, unfinished) && AllInside(later, rest) && Distinct(unfinished)
    requires i < |unfinished| && unfinished[i] == t && t !in rest && IsLastWith(first + later, k, t)
    ensures k == i + 1 && (first + later)[k] == [t]
  {
    RoundHolds(first, left, false, unfinished, i + 1);
    Joined(first, later, i + 1);
    Joined(first, later, k);
    if k < |first| {
      RoundHolds(first, left, false, unfinished, k);
    }
  }

  lemma LastIsLater(first: seq<seq<File>>, later: seq<seq<File>>, left: seq<File>, unfinished: seq<File>,
                    rest: seq<File>, k: nat, t: File)
    requires IsRoundOf(first, left, false, unfinished) && t !in unfinished
    requires later != [] && later[0] == rest && t in rest && IsLastWith(first + later, k, t)
    ensures k >= |first| && IsLastWith(later, k - |first|, t)
  {
    Joined(first, later, |first|);
    Joined(first, later, k);
    if k < |first| {
      RoundHolds(first, left, false, unfinished, k);
    }
    LastOfLater(first, later, k, t);
  }

  lemma LastOfLater(first: seq<seq<File>>, later: seq<seq<File>>, k: nat, t: File)
    requires IsLastWith(first + later, k, t) && k >= |first|
    ensures IsLastWith(later, k - |first|, t)
  {
    forall j | k - |first| < j < |later| ensures t !in later[j] {
      var i := |first| + j;
      assert (first + later)[i] == later[j];
    }
  }

  /** What one round is: its lists, what it leaves, and that all later lists are inside that. */
  ghost predicate RoundIs(run: Runs, n: nat, left: seq<File>, first: seq<seq<File>>, next: nat, rest: seq<File>) {
    var r := run(n, left);
    && IsRoundOf(first, left, IsLast(r), r.unfinished) && next == n + |first|
    && (forall t :: t in rest <==> t in left && !IsLast(r) && t !in r.seen.verdicts && t !in r.unfinished)
  }

  lemma TheRound(run: Runs, n: nat, left: seq<File>)
    ensures RoundIs(run, n, left, RoundFiles(run, n, left), After(run, n, left).0, After(run, n, left).1)
  {
    forall t ensures t in After(run, n, left).1 <==>
        t in left && !IsLast(run(n, left)) && t !in run(n, left).seen.verdicts && t !in run(n, left).unfinished
    {
      AfterIs(run, n, left, t);
    }
  }

  lemma TheRun(run: Runs, n: nat, left: seq<File>)
    requires AreRuns(run)
    ensures IsRunFor(run(n, left), left)
  {}

  /** The lists and the reports of all rounds for `left`. */
  ghost predicate History(run: Runs, round: Rounds, n: nat, left: seq<File>, lists: seq<seq<File>>, reports: seq<Report>)
    decreases |left|
  {
    if left == [] then lists == [] && reports == []
    else
      exists first, next, rest, later, more :: (
        && |rest| < |left| && IsNext(run, round, n, left, lists, reports, first, next, rest, later, more)
        && History(run, round, next, rest, later, more))
  }

  /** The first round and the others. */
  ghost predicate IsNext(run: Runs, round: Rounds, n: nat, left: seq<File>, lists: seq<seq<File>>, reports: seq<Report>,
                         first: seq<seq<File>>, next: nat, rest: seq<File>, later: seq<seq<File>>, more: seq<Report>) {
    && RoundIs(run, n, left, first, next, rest)
    && lists == first + later && reports == round(n, left) + more
  }

  lemma {:induction false} StartedIsHistory(run: Runs, round: Rounds, n: nat, left: seq<File>)
    requires AreRuns(run)
    ensures History(run, round, n, left, Started(run, n, left), Chain(run, round, n, left))
    decreases |left|
  {
    if left != [] {
      AfterIsLess(run, n, left);
      TheRound(run, n, left);
      var first, next, rest := RoundFiles(run, n, left), After(run, n, left).0, After(run, n, left).1;
      StartedIsHistory(run, round, next, rest);
      assert IsNext(run, round, n, left, Started(run, n, left), Chain(run, round, n, left),
                    first, next, rest, Started(run, next, rest), Chain(run, round, next, rest));
    }
  }

  lemma FirstIsStarted(run: Runs, round: Rounds, n: nat, left: seq<File>, lists: seq<seq<File>>, reports: seq<Report>)
    requires History(run, round, n, left, lists, reports) && left != []
    ensures lists != [] && lists[0] == left
  {
    var first, next, rest, later, more :|
      && |rest| < |left| && IsNext(run, round, n, left, lists, reports, first, next, rest, later, more)
      && History(run, round, next, rest, later, more);
    RoundHolds(first, left, IsLast(run(n, left)), run(n, left).unfinished, 0);
    Joined(first, later, 0);
  }

  lemma {:induction false} ListsAreInside(run: Runs, round: Rounds, n: nat, left: seq<File>, lists: seq<seq<File>>, reports: seq<Report>)
    requires AreRuns(run) && History(run, round, n, left, lists, reports)
    ensures AllInside(lists, left)
    decreases |left|
  {
    if left != [] {
      var first, next, rest, later, more :|
      && |rest| < |left| && IsNext(run, round, n, left, lists, reports, first, next, rest, later, more)
      && History(run, round, next, rest, later, more);
      TheRun(run, n, left);
      ListsAreInside(run, round, next, rest, later, more);
      AllInsideNext(first, later, left, IsLast(run(n, left)), run(n, left).unfinished, rest);
    }
  }

  // ---------- its report ----------

  ghost predicate AllRoundsTell(run: Runs, round: Rounds, t: File) {
    forall n: nat, left: seq<File> {:trigger RoundTells(run, round, n, left, t)} :: RoundTells(run, round, n, left, t)
  }

  /** The first round has left nothing of `t`. */
  lemma BegunLater(run: Runs, n: nat, left: seq<File>, first: seq<seq<File>>, later: seq<seq<File>>, j: nat, t: File)
    requires IsRoundOf(first, left, false, run(n, left).unfinished) && t !in run(n, left).unfinished && j < |first + later|
    ensures LeavesUnfinished(run, n, first + later, j, t) <==>
            j >= |first| && LeavesUnfinished(run, n + |first|, later, j - |first|, t)
  {
    Joined(first, later, j);
    if j < |first| {
      RoundHolds(first, left, false, run(n, left).unfinished, j);
    } else {
      assert n + j == n + |first| + (j - |first|);
    }
  }

  lemma OutcomeOfLater(run: Runs, n: nat, left: seq<File>, first: seq<seq<File>>, later: seq<seq<File>>, k: nat, t: File)
    requires IsRoundOf(first, left, false, run(n, left).unfinished) && t !in run(n, left).unfinished && k < |later|
    ensures OutcomeIn(run, n, first + later, |first| + k, t) == OutcomeIn(run, n + |first|, later, k, t)
  {
    var at := |first| + k;
    Joined(first, later, at);
    assert n + at == n + |first| + k;
    if BegunBefore(run, n, first + later, at, t) {
      var j: nat :| j < at && LeavesUnfinished(run, n, first + later, j, t);
      BegunLater(run, n, left, first, later, j, t);
    }
    if BegunBefore(run, n + |first|, later, k, t) {
      var i: nat :| i < k && LeavesUnfinished(run, n + |first|, later, i, t);
      var j := |first| + i;
      BegunLater(run, n, left, first, later, j, t);
    }
  }

  lemma SettledOutcome(run: Runs, round: Rounds, n: nat, left: seq<File>, lists: seq<seq<File>>, t: File)
    requires lists != [] && lists[0] == left && t in left && RoundTells(run, round, n, left, t)
    requires IsLast(run(n, left)) || t in run(n, left).seen.verdicts
    ensures Report(t, OutcomeIn(run, n, lists, 0, t)) in round(n, left)
  {}

  lemma AloneOutcome(run: Runs, round: Rounds, n: nat, left: seq<File>, lists: seq<seq<File>>, i: nat, t: File)
    requires i + 1 < |lists| && lists[0] == left && lists[i + 1] == [t] && t in left && RoundTells(run, round, n, left, t)
    requires !IsLast(run(n, left)) && i < |run(n, left).unfinished| && run(n, left).unfinished[i] == t
    ensures Report(t, OutcomeIn(run, n, lists, i + 1, t)) in round(n, left)
  {
    assert LeavesUnfinished(run, n, lists, 0, t);
    assert BegunBefore(run, n, lists, i + 1, t);
    assert n + (i + 1) == n + 1 + i;
  }

  /** The round settles the program, itself or by a process for it alone. */
  lemma ReportInRound(run: Runs, round: Rounds, n: nat, left: seq<File>, first: seq<seq<File>>, next: nat, rest: seq<File>,
                      later: seq<seq<File>>, k: nat, t: File)
    requires IsRunFor(run(n, left), left) && RoundIs(run, n, left, first, next, rest) && AllInside(later, rest)
    requires RoundTells(run, round, n, left, t) && t in left && t !in rest && IsLastWith(first + later, k, t)
    ensures Report(t, OutcomeIn(run, n, first + later, k, t)) in round(n, left)
  {
    var r := run(n, left);
    RoundHolds(first, left, IsLast(r), r.unfinished, 0);
    if IsLast(r) || t in r.seen.verdicts {
      OnlyInFirst(first, later, left, IsLast(r), r.unfinished, rest, k, t);
      SettledOutcome(run, round, n, left, first + later, t);
    } else {
      AloneInRound(run, round, n, left, first, rest, later, k, t);
    }
  }

  lemma AloneInRound(run: Runs, round: Rounds, n: nat, left: seq<File>, first: seq<seq<File>>, rest: seq<File>,
                     later: seq<seq<File>>, k: nat, t: File)
    requires IsRoundOf(first, left, false, run(n, left).unfinished) && AllInside(later, rest)
    requires Distinct(run(n, left).unfinished) && !IsLast(run(n, left)) && t in run(n, left).unfinished
    requires RoundTells(run, round, n, left, t) && t in left && t !in rest && IsLastWith(first + later, k, t)
    ensures Report(t, OutcomeIn(run, n, first + later, k, t)) in round(n, left)
  {
    var unfinished := run(n, left).unfinished;
    var i :| 0 <= i < |unfinished| && unfinished[i] == t;
    LastAlone(first, later, left, unfinished, rest, k, t, i);
    RoundHolds(first, left, false, unfinished, 0);
    Joined(first, later, 0);
    AloneOutcome(run, round, n, left, first + later, i, t);
  }

  /** What is left for later is reported as the later rounds do. */
  lemma ReportOfLater(run: Runs, n: nat, left: seq<File>, first: seq<seq<File>>, next: nat, rest: seq<File>,
                      later: seq<seq<File>>, k: nat, t: File)
    requires RoundIs(run, n, left, first, next, rest) && t in rest && later != [] && later[0] == rest
    requires IsLastWith(first + later, k, t)
    ensures k >= |first| && IsLastWith(later, k - |first|, t)
    ensures OutcomeIn(run, n, first + later, k, t) == OutcomeIn(run, next, later, k - |first|, t)
  {
    LastIsLater(first, later, left, run(n, left).unfinished, rest, k, t);
    OutcomeOfLater(run, n, left, first, later, k - |first|, t);
  }

  lemma ReportOfThis(run: Runs, round: Rounds, n: nat, left: seq<File>, first: seq<seq<File>>, next: nat, rest: seq<File>,
                     later: seq<seq<File>>, k: nat, t: File)
    requires AreRuns(run) && AllRoundsTell(run, round, t) && RoundIs(run, n, left, first, next, rest)
    requires AllInside(later, rest) && t in left && t !in rest && IsLastWith(first + later, k, t)
    ensures Report(t, OutcomeIn(run, n, first + later, k, t)) in round(n, left)
  {
    TheRun(run, n, left);
    assert RoundTells(run, round, n, left, t);
    ReportInRound(run, round, n, left, first, next, rest, later, k, t);
  }

  lemma {:induction false} ReportIsMade(run: Runs, round: Rounds, n: nat, left: seq<File>, lists: seq<seq<File>>,
                                        reports: seq<Report>, k: nat, t: File)
    requires AreRuns(run) && AllRoundsTell(run, round, t) && t in left
    requires History(run, round, n, left, lists, reports) && IsLastWith(lists, k, t)
    ensures Report(t, OutcomeIn(run, n, lists, k, t)) in reports
    decreases |left|
  {
    var first, next, rest, later, more :|
      && |rest| < |left| && IsNext(run, round, n, left, lists, reports, first, next, rest, later, more)
      && History(run, round, next, rest, later, more);
    if t in rest {
      FirstIsStarted(run, round, next, rest, later, more);
      ReportOfLater(run, n, left, first, next, rest, later, k, t);
      ReportIsMade(run, round, next, rest, later, more, k - |first|, t);
    } else {
      ListsAreInside(run, round, next, rest, later, more);
      ReportOfThis(run, round, n, left, first, next, rest, later, k, t);
    }
  }

  // ---------- its entry ----------

  lemma EntryOfReport(words: Why -> string, r: Report, t: File)
    ensures EntriesFor(ResultsOfReport(words, r), t) == if r.file == t then ResultsOfReport(words, r) else NOTHING
  {
    forall e: Entry ensures Filter([e], Of(t)) == if e.file == t then [e] else [] {
      FilterSingle(e, t);
    }
  }

  lemma {:induction false} EntryOfTheReport(words: Why -> string, reports: seq<Report>, report: Report)
    requires Times(reports, report.file) == if report in reports then 1 else 0
    ensures EntriesFor(LedgerOf(words, reports), report.file) ==
            if report in reports then ResultsOfReport(words, report) else NOTHING
  {
    if reports != [] {
      var init, last, t := reports[..|reports| - 1], reports[|reports| - 1], report.file;
      assert reports == init + [last];
      ReportedIsCounted(init, report);
      EntryOfTheReport(words, init, report);
      EntriesForThen(LedgerOf(words, init), ResultsOfReport(words, last), t);
      EntryOfReport(words, last, t);
      ThenNothing(EntriesFor(LedgerOf(words, init), t));
      ThenNothing(EntriesFor(ResultsOfReport(words, last), t));
    }
  }

  lemma {:induction false} ReportedIsCounted(reports: seq<Report>, report: Report)
    ensures report in reports ==> Times(reports, report.file) >= 1
  {
    if reports != [] {
      var init, last := reports[..|reports| - 1], reports[|reports| - 1];
      assert reports == init + [last];
      ReportedIsCounted(init, report);
    }
  }

  // ---------- in terms of what the driver prints ----------

  /** Line `j` is the first that is of no use. */
  ghost predicate FirstUseless(parse: string -> DriverLine, list: seq<File>, lines: seq<string>, j: nat) {
    j < |lines| && !Expected(parse(lines[j]), list) && forall i :: 0 <= i < j ==> Expected(parse(lines[i]), list)
  }

  function Cut(line: string): string {
    if |line| < 500 then line else line[..500]
  }

  lemma {:induction false} UnexpectedIsFirst(parse: string -> DriverLine, list: seq<File>, lines: seq<string>, j: nat)
    requires FirstUseless(parse, list, lines, j)
    ensures Read(parse, list, lines).unexpected == Some(Cut(lines[j]))
  {
    var init, n := lines[..|lines| - 1], |lines| - 1;
    if j == n {
      assert forall i :: 0 <= i < n ==> init[i] == lines[i];
      UnexpectedIs(parse, list, init);
      assert lines[n][..|lines[n]|] == lines[n];
    } else {
      assert init[j] == lines[j] && forall i :: 0 <= i < j ==> init[i] == lines[i];
      UnexpectedIsFirst(parse, list, init, j);
    }
  }

  lemma {:induction false} SomeFirst(parse: string -> DriverLine, list: seq<File>, lines: seq<string>) returns (j: nat)
    ensures j <= |lines| && (j < |lines| ==> FirstUseless(parse, list, lines, j))
    ensures j == |lines| ==> forall i :: 0 <= i < |lines| ==> Expected(parse(lines[i]), list)
  {
    j := 0;
    if lines != [] {
      var init := lines[..|lines| - 1];
      j := SomeFirst(parse, list, init);
      assert forall i :: 0 <= i < |init| ==> init[i] == lines[i];
      if j == |init| && Expected(parse(lines[j]), list) {
        j := |lines|;
      }
    }
  }

  /** The process begins `t`, which is in its list, and gives it no verdict. */
  ghost predicate Begins(parse: string -> DriverLine, p: Process, list: seq<File>, t: File) {
    var lines := Complete(Join(p.chunks));
    && t in list && (exists i :: 0 <= i < |lines| && parse(lines[i]) == Compiling(t))
    && !exists i: nat :: LastVerdict(parse, lines, i, t)
  }

  ghost predicate BeginsEarlier(parse: string -> DriverLine, driver: Driver, lists: seq<seq<File>>, k: nat, t: File)
    requires k <= |lists|
  {
    exists j: nat :: j < k && Begins(parse, driver(j, lists[j]), lists[j], t)
  }

  /** `entries` is what process number `k` makes of `t`: the last line that gives it a verdict decides; without one the
      program fails for the way the process ended, or else for the first line that is of no use, or else because
      there is no result. */
  ghost predicate IsDecidedBy(words: Why -> string, parse: string -> DriverLine, p: Process, list: seq<File>, alone: bool, t: File,
                          entries: Results) {
    var lines := Complete(Join(p.chunks));
    if exists j: nat :: LastVerdict(parse, lines, j, t) then
      exists j: nat :: LastVerdict(parse, lines, j, t) && IsEntryOf(t, parse(lines[j]).verdict, entries)
    else if p.exitCode != Some(0) && p.exitCode != Some(1) then IsFailure(t, words(Dead(p.said)), entries)
    else if exists j: nat :: FirstUseless(parse, list, lines, j) then
      exists j: nat :: FirstUseless(parse, list, lines, j) && IsFailure(t, words(Printed(Cut(lines[j]))), entries)
    else IsFailure(t, words(if alone then NoResultAlone else NoResult), entries)
  }

  ghost predicate IsFailure(t: File, error: string, entries: Results) {
    entries == Results([], [], [Entry(t, TestResult(false, error))])
  }

  /** A pass or a skip is one entry of `okResults`, a failure one of `failedResults`. */
  ghost predicate IsEntryOf(t: File, verdict: AotVerdict, entries: Results) {
    match verdict
    case Pass => entries == Results([Entry(t, TestResult(true, ""))], [], [])
    case Skip(_) => entries == Results([Entry(t, TestResult(true, ""))], [], [])
    case Fail(stage, message) => IsFailure(t, stage + ": " + message, entries)
  }

  lemma DiedIs(parse: string -> DriverLine, list: seq<File>, p: Process)
    ensures var (r, lines) := (RunOf(parse, list, p), Complete(Join(p.chunks)));
            if p.exitCode != Some(0) && p.exitCode != Some(1) then r.died == Some(Dead(p.said))
            else if exists j: nat :: FirstUseless(parse, list, lines, j) then
              exists j: nat :: FirstUseless(parse, list, lines, j) && r.died == Some(Printed(Cut(lines[j])))
            else r.died == None
  {
    var lines := Complete(Join(p.chunks));
    var j := SomeFirst(parse, list, lines);
    if j < |lines| {
      UnexpectedIsFirst(parse, list, lines, j);
    } else {
      UnexpectedIs(parse, list, lines);
      assert !exists j: nat :: FirstUseless(parse, list, lines, j);
    }
  }

  lemma LeavingIsBeginning(parse: string -> DriverLine, driver: Driver, lists: seq<seq<File>>, j: nat, t: File)
    requires j < |lists|
    ensures LeavesUnfinished(RunsOf(parse, driver), 0, lists, j, t) <==> Begins(parse, driver(j, lists[j]), lists[j], t)
  {
    var p := driver(j, lists[j]);
    RunMeans(parse, lists[j], p);
    if t in lists[j] {
      VerdictsAre(parse, lists[j], Complete(Join(p.chunks)), t);
    }
  }

  lemma OutcomeDecides(words: Why -> string, parse: string -> DriverLine, driver: Driver, lists: seq<seq<File>>, k: nat, t: File)
    requires k < |lists| && t in lists[k]
    ensures IsDecidedBy(words, parse, driver(k, lists[k]), lists[k], BeginsEarlier(parse, driver, lists, k, t), t,
                    ResultsOfReport(words, Report(t, OutcomeIn(RunsOf(parse, driver), 0, lists, k, t))))
  {
    var p, list := driver(k, lists[k]), lists[k];
    forall j: nat | j < k
      ensures LeavesUnfinished(RunsOf(parse, driver), 0, lists, j, t) <==> Begins(parse, driver(j, lists[j]), lists[j], t)
    {
      LeavingIsBeginning(parse, driver, lists, j, t);
    }
    assert BegunBefore(RunsOf(parse, driver), 0, lists, k, t) <==> BeginsEarlier(parse, driver, lists, k, t);
    VerdictsAre(parse, list, Complete(Join(p.chunks)), t);
    DiedIs(parse, list, p);
  }

  lemma LastWithExists(lists: seq<seq<File>>, j: nat, t: File) returns (k: nat)
    requires j < |lists| && t in lists[j]
    ensures IsLastWith(lists, k, t)
    decreases |lists| - j
  {
    k := j;
    if i :| j < i < |lists| && t in lists[i] {
      k := LastWithExists(lists, i, t);
    }
  }

  lemma EntryIsOfOutcome(words: Why -> string, parse: string -> DriverLine, driver: Driver, files: seq<File>,
                         lists: seq<seq<File>>, t: File, k: nat)
    requires Distinct(files) && t in files && AreRuns(RunsOf(parse, driver))
    requires lists == Started(RunsOf(parse, driver), 0, files) && IsLastWith(lists, k, t)
    ensures var run := RunsOf(parse, driver);
            EntriesFor(LedgerOf(words, Reports(run, files)), t) ==
            ResultsOfReport(words, Report(t, OutcomeIn(run, 0, lists, k, t)))
  {
    var run := RunsOf(parse, driver);
    var report := Report(t, OutcomeIn(run, 0, lists, k, t));
    forall n: nat, left: seq<File> ensures RoundTells(run, RoundsOf(run), n, left, t) {
      TheRun(run, n, left);
      TellsInRound(run, n, left, t);
    }
    StartedIsHistory(run, RoundsOf(run), 0, files);
    ReportIsMade(run, RoundsOf(run), 0, files, lists, Reports(run, files), k, t);
    OneEntryPerProgram(words, parse, driver, files, t);
    CountOfReports(words, Reports(run, files), t);
    EntryOfTheReport(words, Reports(run, files), report);
  }

  lemma LastStart(run: Runs, files: seq<File>, lists: seq<seq<File>>, t: File) returns (k: nat)
    requires AreRuns(run) && lists == Started(run, 0, files) && t in files
    ensures IsLastWith(lists, k, t)
  {
    StartedIsHistory(run, RoundsOf(run), 0, files);
    FirstIsStarted(run, RoundsOf(run), 0, files, lists, Reports(run, files));
    k := LastWithExists(lists, 0, t);
  }

  /** Each program is started, and the last process that was started with it decides in which of the three lists
      it is and with which error. */
  lemma ResultOfProgram(words: Why -> string, parse: string -> DriverLine, driver: Driver, files: seq<File>, t: File)
    requires Distinct(files) && t in files
    ensures AreRuns(RunsOf(parse, driver))
    ensures var lists := Started(RunsOf(parse, driver), 0, files);
            && (exists k: nat :: IsLastWith(lists, k, t))
            && forall k: nat :: IsLastWith(lists, k, t) ==>
                 IsDecidedBy(words, parse, driver(k, lists[k]), lists[k], BeginsEarlier(parse, driver, lists, k, t), t,
                         EntriesFor(LedgerOf(words, Reports(RunsOf(parse, driver), files)), t))
  {
    DriversGiveRuns(parse, driver);
    var lists := Started(RunsOf(parse, driver), 0, files);
    var last := LastStart(RunsOf(parse, driver), files, lists, t);
    forall k: nat | IsLastWith(lists, k, t)
      ensures IsDecidedBy(words, parse, driver(k, lists[k]), lists[k], BeginsEarlier(parse, driver, lists, k, t), t,
                      EntriesFor(LedgerOf(words, Reports(RunsOf(parse, driver), files)), t))
    {
      EntryIsOfOutcome(words, parse, driver, files, lists, t, k);
      OutcomeDecides(words, parse, driver, lists, k, t);
    }
  }
}
