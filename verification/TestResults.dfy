/** The accounting of test results in scripts/runner.node.ts: every test file ends up in one of the
    lists `okResults`, `flakyResults` and `failedResults`. */
module TestResults {
  import opened Lists

  type File = string

  datatype TestResult = TestResult(ok: bool, error: string)

  datatype Entry = Entry(file: File, result: TestResult)

  /** How often a file is in a list. */
  function Count(entries: seq<Entry>, file: File): nat {
    if entries == [] then 0
    else Count(entries[..|entries| - 1], file) + if entries[|entries| - 1].file == file then 1 else 0
  }

  lemma CountAppend(entries: seq<Entry>, e: Entry, file: File)
    ensures Count(entries + [e], file) == Count(entries, file) + if e.file == file then 1 else 0
  {
    assert (entries + [e])[..|entries|] == entries;
  }

  lemma CountOne(e: Entry, file: File)
    ensures Count([e], file) == if e.file == file then 1 else 0
  {
    CountAppend([], e, file);
    assert [] + [e] == [e];
  }

  // ---------- retries ----------

  /** The tries of one file: what try number a (from 1) gives, and which errors must never be retried away. */
  datatype Tries = Tries(result: nat -> TestResult, isAlwaysFailure: string -> bool)

  datatype Verdict = NoVerdict | Passed(result: TestResult) | Flaky(failure: TestResult) | Failed(failure: TestResult)

  /** No further try follows try `a`. */
  predicate Decides(t: Tries, a: nat, maxAttempts: int) {
    t.result(a).ok || t.isAlwaysFailure(t.result(a).error) || a >= maxAttempts
  }

  /** The try that decides, from try `a` on. */
  function DecidingTry(t: Tries, a: nat, maxAttempts: int): (d: nat)
    requires a <= maxAttempts
    ensures a <= d <= maxAttempts && Decides(t, d, maxAttempts)
    ensures forall b :: a <= b < d ==> !Decides(t, b, maxAttempts)
    decreases maxAttempts - a
  {
    if Decides(t, a, maxAttempts) then a else DecidingTry(t, a + 1, maxAttempts)
  }

  function VerdictOf(t: Tries, maxAttempts: int): Verdict {
    if maxAttempts < 1 then NoVerdict
    else
      var d := DecidingTry(t, 1, maxAttempts);
      if !t.result(d).ok then Failed(t.result(1))
      else if d == 1 then Passed(t.result(1))
      else Flaky(t.result(1))
  }

  /** A file is flaky exactly when its first pass follows only failures that are no always-failures. */
  lemma FlakyIff(t: Tries, maxAttempts: int)
    ensures VerdictOf(t, maxAttempts).Flaky? <==>
      exists a: nat :: 2 <= a <= maxAttempts && t.result(a).ok &&
        forall b: nat :: 1 <= b < a ==> !t.result(b).ok && !t.isAlwaysFailure(t.result(b).error)
  {
    if maxAttempts >= 1 {
      var d := DecidingTry(t, 1, maxAttempts);
      if a: nat :| 2 <= a <= maxAttempts && t.result(a).ok &&
                   forall b: nat :: 1 <= b < a ==> !t.result(b).ok && !t.isAlwaysFailure(t.result(b).error)
      {
        assert Decides(t, a, maxAttempts);
        assert forall b: nat :: 1 <= b < a ==> !Decides(t, b, maxAttempts);
        assert d == a;
      }
      if VerdictOf(t, maxAttempts).Flaky? {
        forall b: nat | 1 <= b < d ensures !t.result(b).ok && !t.isAlwaysFailure(t.result(b).error) {
          assert !Decides(t, b, maxAttempts);
        }
        assert 2 <= d <= maxAttempts && t.result(d).ok;
      }
    }
  }

  /** A failure that is always one is never made good by a later try. */
  lemma AlwaysFailureFails(t: Tries, maxAttempts: int, a: nat)
    requires 1 <= a <= maxAttempts && !t.result(a).ok && t.isAlwaysFailure(t.result(a).error)
    requires forall b: nat :: 1 <= b < a ==> !t.result(b).ok
    ensures VerdictOf(t, maxAttempts) == Failed(t.result(1))
  {
    var d := DecidingTry(t, 1, maxAttempts);
    assert Decides(t, a, maxAttempts);
    assert d <= a;
  }

  // ---------- the lists ----------

  /** What is pushed to `okResults`, `flakyResults` and `failedResults`. */
  datatype Results = Results(ok: seq<Entry>, flaky: seq<Entry>, failed: seq<Entry>) {
    function Then(next: Results): Results {
      Results(ok + next.ok, flaky + next.flaky, failed + next.failed)
    }

    function CountOf(file: File): nat {
      Count(ok, file) + Count(flaky, file) + Count(failed, file)
    }
  }

  const NOTHING := Results([], [], [])

  function ResultsOf(file: File, v: Verdict): Results {
    match v
    case NoVerdict => NOTHING
    case Passed(r) => Results([Entry(file, r)], [], [])
    case Flaky(r) => Results([], [Entry(file, r)], [])
    case Failed(r) => Results([], [], [Entry(file, r)])
  }

  lemma ThenNothing(r: Results)
    ensures r.Then(NOTHING) == r == NOTHING.Then(r)
  {
    assert r.ok + [] == r.ok && r.flaky + [] == r.flaky && r.failed + [] == r.failed;
    assert [] + r.ok == r.ok && [] + r.flaky == r.flaky && [] + r.failed == r.failed;
  }

  lemma ThenIsAssociative(a: Results, b: Results, c: Results)
    ensures a.Then(b).Then(c) == a.Then(b.Then(c))
  {
    assert (a.ok + b.ok) + c.ok == a.ok + (b.ok + c.ok);
    assert (a.flaky + b.flaky) + c.flaky == a.flaky + (b.flaky + c.flaky);
    assert (a.failed + b.failed) + c.failed == a.failed + (b.failed + c.failed);
  }

  lemma {:induction false} CountJoined(a: seq<Entry>, b: seq<Entry>, file: File)
    ensures Count(a + b, file) == Count(a, file) + Count(b, file)
  {
    if b == [] {
      assert a + b == a;
    } else {
      assert (a + b)[..|a + b| - 1] == a + b[..|b| - 1];
      CountJoined(a, b[..|b| - 1], file);
    }
  }

  lemma CountThen(a: Results, b: Results, file: File)
    ensures a.Then(b).CountOf(file) == a.CountOf(file) + b.CountOf(file)
  {
    CountJoined(a.ok, b.ok, file);
    CountJoined(a.flaky, b.flaky, file);
    CountJoined(a.failed, b.failed, file);
  }

  /** One call adds one entry, for its file, exactly if it may try at all. */
  lemma OneEntryOfOneTest(file: File, t: Tries, maxAttempts: int, other: File)
    ensures ResultsOf(file, VerdictOf(t, maxAttempts)).CountOf(other) == if other == file && maxAttempts >= 1 then 1 else 0
  {
    forall e: Entry ensures Count([e], other) == if e.file == other then 1 else 0 {
      CountOne(e, other);
    }
  }

  class Ledger {
    var okResults: seq<Entry>
    var flakyResults: seq<Entry>
    var failedResults: seq<Entry>

    constructor ()
      ensures Lists() == NOTHING
    {
      okResults, flakyResults, failedResults := [], [], [];
    }

    ghost function Lists(): Results
      reads this
    {
      Results(okResults, flakyResults, failedResults)
    }

    method RunTest(file: File, t: Tries, maxAttempts: int)
      modifies this
      ensures Lists() == old(Lists()).Then(ResultsOf(file, VerdictOf(t, maxAttempts)))
    {
      ThenNothing(Lists());
      var failure: Option<TestResult> := None;
      var attempt: nat := 1;
      while attempt <= maxAttempts
        invariant attempt >= 1
        invariant failure == if attempt == 1 then None else Some(t.result(1))
        invariant maxAttempts >= 1 ==> attempt <= maxAttempts && DecidingTry(t, 1, maxAttempts) == DecidingTry(t, attempt, maxAttempts)
        invariant Lists() == old(Lists())
        decreases maxAttempts - attempt
      {
        var result := t.result(attempt);
        if result.ok {
          if failure.Some? {
            flakyResults := flakyResults + [Entry(file, failure.value)];
          } else {
            okResults := okResults + [Entry(file, result)];
          }
          break;
        }
        if failure.None? {
          failure := Some(result);
        }
        if attempt >= maxAttempts || t.isAlwaysFailure(result.error) {
          failedResults := failedResults + [Entry(file, failure.value)];
          break;
        }
        assert !Decides(t, attempt, maxAttempts);
        attempt := attempt + 1;
      }
    }

    /** A file that needs no run of its own. */
    method Accept(file: File)
      modifies this`okResults
      ensures Lists() == old(Lists()).Then(Results([Entry(file, TestResult(true, ""))], [], []))
    {
      ThenNothing(Lists());
      okResults := okResults + [Entry(file, TestResult(true, ""))];
    }
  }

  // ---------- a parallel bucket ----------

  datatype Suite = Suite(failures: nat, caseNames: seq<string>)

  /** A line of the output, as the patterns of the runner see it: the two headings of an interrupt
      report, an indented line, the end of a file. A path that is no file of the bucket is None. */
  datatype Line = StillRunning | NotStarted | Indented(path: Option<File>) | Ended(path: Option<File>, crashed: bool) | Plain

  /** What the process that ran a bucket left: whether it exited ok, its JUnit report by file (empty
      when it could not be read), and the lines of its output. */
  datatype Batch = Batch(ok: bool, suites: map<string, Suite>, lines: seq<Line>)

  /** The heading of the list that the lines end in. */
  function ListAfter(lines: seq<Line>): Option<Line> {
    if lines == [] then None
    else match lines[|lines| - 1]
      case StillRunning => Some(StillRunning)
      case NotStarted => Some(NotStarted)
      case Indented(_) => ListAfter(lines[..|lines| - 1])
      case _ => None
  }

  /** Only indented lines follow the heading in line `j`. */
  predicate ListsFrom(lines: seq<Line>, heading: Line, j: nat) {
    j < |lines| && lines[j] == heading && forall k :: j < k < |lines| ==> lines[k].Indented?
  }

  /** A list lasts as long as the lines are indented. */
  lemma {:induction false} ListAfterIff(lines: seq<Line>, heading: Line)
    requires heading.StillRunning? || heading.NotStarted?
    ensures ListAfter(lines) == Some(heading) <==> exists j: nat :: ListsFrom(lines, heading, j)
  {
    if lines != [] {
      var n := |lines| - 1;
      var init := lines[..n];
      ListAfterIff(init, heading);
      assert lines[n] == heading ==> ListsFrom(lines, heading, n);
      forall j: nat ensures ListsFrom(lines, heading, j) <==>
          (j == n && lines[n] == heading) || (lines[n].Indented? && ListsFrom(init, heading, j))
      {
        ListsFromNext(lines, heading, j);
      }
    }
  }

  lemma ListsFromNext(lines: seq<Line>, heading: Line, j: nat)
    requires lines != [] && !heading.Indented?
    ensures var n := |lines| - 1;
            ListsFrom(lines, heading, j) <==>
            (j == n && lines[n] == heading) || (lines[n].Indented? && ListsFrom(lines[..n], heading, j))
  {
    var n := |lines| - 1;
    var init := lines[..n];
    if lines[n].Indented? && ListsFrom(init, heading, j) {
      forall k | j < k < |lines| ensures lines[k].Indented? {
        assert k == n || init[k] == lines[k];
      }
    }
  }

  /** The file that line `k` lists: true stands for failed, false for never finished. */
  function Listing(lines: seq<Line>, k: nat): seq<(File, bool)>
    requires k < |lines|
  {
    match lines[k]
    case Indented(Some(path)) =>
      (match ListAfter(lines[..k])
       case Some(heading) => [(path, heading.StillRunning?)]
       case None => [])
    case Ended(Some(path), crashed) => [(path, crashed)]
    case _ => []
  }

  function Listed(lines: seq<Line>): seq<(File, bool)> {
    if lines == [] then [] else Listed(lines[..|lines| - 1]) + Listing(lines, |lines| - 1)
  }

  /** Every case stands for what a crash in another file kept from running. */
  predicate Aborted(s: Suite) {
    s.caseNames != [] && forall c :: c in s.caseNames ==> c == "(aborted)"
  }

  predicate IsIncomplete(suites: map<string, Suite>, key: string) {
    key !in suites || Aborted(suites[key])
  }

  predicate HasFailed(suites: map<string, Suite>, key: string) {
    !IsIncomplete(suites, key) && suites[key].failures > 0
  }

  /** `set.add(x)`; a `Set` is walked in the order of insertion. */
  function Add(s: seq<File>, x: File): seq<File> {
    if x in s then s else s + [x]
  }

  /** The two sets of files that are to be run again. */
  datatype Reruns = Reruns(failed: seq<File>, incomplete: seq<File>)

  function FromReport(files: seq<File>, key: File -> string, suites: map<string, Suite>): Reruns {
    if files == [] then Reruns([], [])
    else
      var (r, t) := (FromReport(files[..|files| - 1], key, suites), files[|files| - 1]);
      if IsIncomplete(suites, key(t)) then r.(incomplete := Add(r.incomplete, t))
      else if HasFailed(suites, key(t)) then r.(failed := Add(r.failed, t))
      else r
  }

  function AddListed(r: Reruns, listed: (File, bool)): Reruns {
    if listed.1 then r.(failed := Add(r.failed, listed.0)) else r.(incomplete := Add(r.incomplete, listed.0))
  }

  function FromOutput(listed: seq<(File, bool)>): Reruns {
    if listed == [] then Reruns([], [])
    else
      AddListed(FromOutput(listed[..|listed| - 1]), listed[|listed| - 1])
  }

  function RerunsOf(files: seq<File>, key: File -> string, b: Batch): Reruns {
    if b.ok then Reruns([], [])
    else if b.suites != map[] then FromReport(files, key, b.suites)
    else FromOutput(Listed(b.lines))
  }

  /** The files that are run again one at a time. Without any evidence these are all. */
  function RerunList(files: seq<File>, key: File -> string, b: Batch): seq<File> {
    var r := RerunsOf(files, key, b);
    if !b.ok && b.suites == map[] && r.failed == [] && r.incomplete == [] then files
    else r.failed + r.incomplete
  }

  /** How many entries the bucket adds for `t`. */
  function Contribution(files: seq<File>, rerun: seq<File>, maxAttempts: int, t: File): nat {
    (if t in rerun then 0 else multiset(files)[t]) + if maxAttempts >= 1 then multiset(rerun)[t] else 0
  }

  method ReadReport(files: seq<File>, key: File -> string, suites: map<string, Suite>) returns (r: Reruns)
    ensures r == FromReport(files, key, suites)
  {
    var failed, incomplete: seq<File> := [], [];
    for i := 0 to |files|
      invariant Reruns(failed, incomplete) == FromReport(files[..i], key, suites)
    {
      assert files[..i + 1][..i] == files[..i];
      var t := files[i];
      if key(t) !in suites {
        incomplete := Add(incomplete, t);
      } else if Aborted(suites[key(t)]) {
        incomplete := Add(incomplete, t);
      } else if suites[key(t)].failures > 0 {
        failed := Add(failed, t);
      }
    }
    assert files[..|files|] == files;
    r := Reruns(failed, incomplete);
  }

  method ReadOutput(lines: seq<Line>) returns (r: Reruns)
    ensures r == FromOutput(Listed(lines))
  {
    var failed, incomplete: seq<File> := [], [];
    var list: Option<Line> := None;
    for i := 0 to |lines|
      invariant list == ListAfter(lines[..i])
      invariant Reruns(failed, incomplete) == FromOutput(Listed(lines[..i]))
    {
      OutputNext(lines, i, list, Reruns(failed, incomplete));
      var line := lines[i];
      if line.StillRunning? || line.NotStarted? {
        list := Some(line);
      } else if list.Some? && line.Indented? {
        if line.path.Some? {
          if list.value.StillRunning? {
            failed := Add(failed, line.path.value);
          } else {
            incomplete := Add(incomplete, line.path.value);
          }
        }
      } else {
        list := None;
        if line.Ended? && line.path.Some? {
          if line.crashed {
            failed := Add(failed, line.path.value);
          } else {
            incomplete := Add(incomplete, line.path.value);
          }
        }
      }
    }
    assert lines[..|lines|] == lines;
    r := Reruns(failed, incomplete);
  }

  lemma ListedNext(lines: seq<Line>, i: nat)
    requires i < |lines|
    ensures Listed(lines[..i + 1]) == Listed(lines[..i]) + Listing(lines, i)
    ensures FromOutput(Listed(lines[..i + 1])) ==
            if Listing(lines, i) == [] then FromOutput(Listed(lines[..i]))
            else AddListed(FromOutput(Listed(lines[..i])), Listing(lines, i)[0])
  {
    assert lines[..i + 1][..i] == lines[..i];
    var before, now := Listed(lines[..i]), Listing(lines, i);
    if now == [] {
      assert before + now == before;
    } else {
      assert now == [now[0]];
      assert (before + now)[..|before|] == before;
    }
  }

  /** One more line: `list` is the heading that is open before it. */
  lemma OutputNext(lines: seq<Line>, i: nat, list: Option<Line>, r: Reruns)
    requires i < |lines| && list == ListAfter(lines[..i]) && r == FromOutput(Listed(lines[..i]))
    ensures ListAfter(lines[..i + 1]) ==
            match lines[i]
            case StillRunning => Some(StillRunning)
            case NotStarted => Some(NotStarted)
            case Indented(_) => list
            case _ => None
    ensures FromOutput(Listed(lines[..i + 1])) ==
            match lines[i]
            case Indented(Some(path)) => if list.None? then r else AddListed(r, (path, list.value.StillRunning?))
            case Ended(Some(path), crashed) => AddListed(r, (path, crashed))
            case _ => r
  {
    assert lines[..i + 1][..i] == lines[..i];
    ListedNext(lines, i);
  }

  method FindReruns(files: seq<File>, key: File -> string, b: Batch) returns (rerun: seq<File>)
    ensures rerun == RerunList(files, key, b)
  {
    var r := Reruns([], []);
    var evidence := b.suites != map[];
    if !b.ok && b.suites != map[] {
      r := ReadReport(files, key, b.suites);
    } else if !b.ok {
      r := ReadOutput(b.lines);
      evidence := r.failed != [] || r.incomplete != [];
    }
    rerun := if !b.ok && !evidence then files else r.failed + r.incomplete;
  }

  /** The entries of the files that are accepted. */
  function AcceptedEntries(files: seq<File>, rerun: seq<File>): Results {
    if files == [] then NOTHING
    else
      var (before, t) := (AcceptedEntries(files[..|files| - 1], rerun), files[|files| - 1]);
      if t in rerun then before else before.Then(Results([Entry(t, TestResult(true, ""))], [], []))
  }

  /** The entries of the files that run alone, in turn. */
  function RerunEntries(rerun: seq<File>, tries: File -> Tries, maxAttempts: int): Results {
    if rerun == [] then NOTHING
    else
      var t := rerun[|rerun| - 1];
      RerunEntries(rerun[..|rerun| - 1], tries, maxAttempts).Then(ResultsOf(t, VerdictOf(tries(t), maxAttempts)))
  }

  function BucketEntries(files: seq<File>, key: File -> string, b: Batch, tries: File -> Tries, maxAttempts: int): Results {
    var rerun := RerunList(files, key, b);
    AcceptedEntries(files, rerun).Then(RerunEntries(rerun, tries, maxAttempts))
  }

  method AcceptRest(ledger: Ledger, files: seq<File>, rerun: seq<File>)
    modifies ledger
    ensures ledger.Lists() == old(ledger.Lists()).Then(AcceptedEntries(files, rerun))
  {
    ThenNothing(ledger.Lists());
    for i := 0 to |files|
      invariant ledger.Lists() == old(ledger.Lists()).Then(AcceptedEntries(files[..i], rerun))
    {
      assert files[..i + 1][..i] == files[..i];
      if files[i] !in rerun {
        ThenIsAssociative(old(ledger.Lists()), AcceptedEntries(files[..i], rerun),
                          Results([Entry(files[i], TestResult(true, ""))], [], []));
        ledger.Accept(files[i]);
      }
    }
    assert files[..|files|] == files;
  }

  method RunAgain(ledger: Ledger, rerun: seq<File>, tries: File -> Tries, maxAttempts: int)
    modifies ledger
    ensures ledger.Lists() == old(ledger.Lists()).Then(RerunEntries(rerun, tries, maxAttempts))
  {
    ThenNothing(ledger.Lists());
    for i := 0 to |rerun|
      invariant ledger.Lists() == old(ledger.Lists()).Then(RerunEntries(rerun[..i], tries, maxAttempts))
    {
      assert rerun[..i + 1][..i] == rerun[..i];
      ThenIsAssociative(old(ledger.Lists()), RerunEntries(rerun[..i], tries, maxAttempts),
                        ResultsOf(rerun[i], VerdictOf(tries(rerun[i]), maxAttempts)));
      ledger.RunTest(rerun[i], tries(rerun[i]), maxAttempts);
    }
    assert rerun[..|rerun|] == rerun;
  }

  method RunParallelBucket(ledger: Ledger, files: seq<File>, key: File -> string, b: Batch,
                           tries: File -> Tries, maxAttempts: int)
    modifies ledger
    ensures ledger.Lists() == old(ledger.Lists()).Then(BucketEntries(files, key, b, tries, maxAttempts))
  {
    var rerun := FindReruns(files, key, b);
    AcceptRest(ledger, files, rerun);
    RunAgain(ledger, rerun, tries, maxAttempts);
    ThenIsAssociative(old(ledger.Lists()), AcceptedEntries(files, rerun), RerunEntries(rerun, tries, maxAttempts));
  }

  // ---------- one entry per file ----------

  lemma {:induction false} CountAccepted(files: seq<File>, rerun: seq<File>, file: File)
    ensures AcceptedEntries(files, rerun).CountOf(file) == if file in rerun then 0 else multiset(files)[file]
  {
    if files != [] {
      var init, t := files[..|files| - 1], files[|files| - 1];
      assert files == init + [t];
      CountAccepted(init, rerun, file);
      if t !in rerun {
        var e := Results([Entry(t, TestResult(true, ""))], [], []);
        CountThen(AcceptedEntries(init, rerun), e, file);
        CountOne(Entry(t, TestResult(true, "")), file);
      }
    }
  }

  lemma {:induction false} CountRerun(rerun: seq<File>, tries: File -> Tries, maxAttempts: int, file: File)
    ensures RerunEntries(rerun, tries, maxAttempts).CountOf(file) == if maxAttempts >= 1 then multiset(rerun)[file] else 0
  {
    if rerun != [] {
      var init, t := rerun[..|rerun| - 1], rerun[|rerun| - 1];
      assert rerun == init + [t];
      CountRerun(init, tries, maxAttempts, file);
      CountThen(RerunEntries(init, tries, maxAttempts), ResultsOf(t, VerdictOf(tries(t), maxAttempts)), file);
      OneEntryOfOneTest(t, tries(t), maxAttempts, file);
    }
  }

  lemma CountBucket(files: seq<File>, key: File -> string, b: Batch, tries: File -> Tries, maxAttempts: int, file: File)
    ensures BucketEntries(files, key, b, tries, maxAttempts).CountOf(file) ==
            Contribution(files, RerunList(files, key, b), maxAttempts, file)
  {
    var rerun := RerunList(files, key, b);
    CountThen(AcceptedEntries(files, rerun), RerunEntries(rerun, tries, maxAttempts), file);
    CountAccepted(files, rerun, file);
    CountRerun(rerun, tries, maxAttempts, file);
  }

  lemma {:induction false} ReportReruns(files: seq<File>, key: File -> string, suites: map<string, Suite>)
    ensures var r := FromReport(files, key, suites);
            && Distinct(r.failed) && Distinct(r.incomplete)
            && (forall t :: t in r.failed <==> t in files && HasFailed(suites, key(t)))
            && (forall t :: t in r.incomplete <==> t in files && IsIncomplete(suites, key(t)))
  {
    if files != [] {
      assert files == files[..|files| - 1] + [files[|files| - 1]];
      ReportReruns(files[..|files| - 1], key, suites);
    }
  }

  lemma {:induction false} OutputReruns(listed: seq<(File, bool)>)
    ensures var r := FromOutput(listed);
            && Distinct(r.failed) && Distinct(r.incomplete)
            && (forall t :: t in r.failed <==> (t, true) in listed)
            && (forall t :: t in r.incomplete <==> (t, false) in listed)
  {
    if listed != [] {
      var init, last := listed[..|listed| - 1], listed[|listed| - 1];
      OutputReruns(init);
      assert forall e :: e in listed <==> e in init || e == last by {
        assert listed == init + [last];
      }
    }
  }

  lemma CopiesInReruns(r: Reruns, t: File)
    requires Distinct(r.failed) && Distinct(r.incomplete)
    ensures multiset(r.failed + r.incomplete)[t] == (if t in r.failed then 1 else 0) + if t in r.incomplete then 1 else 0
  {
    DistinctCount(r.failed, t);
    DistinctCount(r.incomplete, t);
    assert multiset(r.failed + r.incomplete) == multiset(r.failed) + multiset(r.incomplete);
  }

  /** A file is accepted without a run of its own exactly if the batch exited ok, or its suite is in
      the report, has no failure, and does not consist of aborted cases only. */
  lemma AcceptedIff(files: seq<File>, key: File -> string, b: Batch, t: File)
    requires b.suites != map[] && t in files
    ensures t !in RerunList(files, key, b) <==>
      b.ok || (key(t) in b.suites && b.suites[key(t)].failures == 0 && !Aborted(b.suites[key(t)]))
  {
    ReportReruns(files, key, b.suites);
  }

  /** With a report, or without need of one, every file of the bucket gets exactly one entry. */
  lemma OneEntryWithReport(files: seq<File>, key: File -> string, b: Batch, tries: File -> Tries, maxAttempts: int, t: File)
    requires Distinct(files) && maxAttempts >= 1 && (b.ok || b.suites != map[])
    ensures BucketEntries(files, key, b, tries, maxAttempts).CountOf(t) == if t in files then 1 else 0
  {
    CountBucket(files, key, b, tries, maxAttempts, t);
    ReportReruns(files, key, b.suites);
    CopiesInReruns(RerunsOf(files, key, b), t);
    DistinctCount(files, t);
    assert t in RerunList(files, key, b) <==> multiset(RerunList(files, key, b))[t] > 0;
  }

  /** A line that lists a file of the bucket. */
  predicate InBucket(line: Line, files: seq<File>) {
    (line.Indented? || line.Ended?) && line.path.Some? ==> line.path.value in files
  }

  lemma {:induction false} ListedInBucket(lines: seq<Line>, files: seq<File>)
    requires forall line :: line in lines ==> InBucket(line, files)
    ensures forall e :: e in Listed(lines) ==> e.0 in files
  {
    if lines != [] {
      assert lines == lines[..|lines| - 1] + [lines[|lines| - 1]];
      ListedInBucket(lines[..|lines| - 1], files);
      assert InBucket(lines[|lines| - 1], files);
    }
  }

  /** When the report could not be read, the files are taken from the output. One that it lists both
      as failed and as unfinished is run twice and gets two entries; otherwise each gets one. */
  lemma OneEntryWithoutReport(files: seq<File>, key: File -> string, b: Batch, tries: File -> Tries, maxAttempts: int)
    requires Distinct(files) && maxAttempts >= 1 && !b.ok && b.suites == map[]
    requires forall line :: line in b.lines ==> InBucket(line, files)
    ensures (forall t :: t in files ==> BucketEntries(files, key, b, tries, maxAttempts).CountOf(t) == 1) <==>
            (forall t :: t in files ==> !((t, true) in Listed(b.lines) && (t, false) in Listed(b.lines)))
  {
    var r, rerun := FromOutput(Listed(b.lines)), RerunList(files, key, b);
    OutputReruns(Listed(b.lines));
    ListedInBucket(b.lines, files);
    forall t | t in files
      ensures BucketEntries(files, key, b, tries, maxAttempts).CountOf(t) == 1 <==>
              !((t, true) in Listed(b.lines) && (t, false) in Listed(b.lines))
    {
      CountBucket(files, key, b, tries, maxAttempts, t);
      CopiesInReruns(r, t);
      DistinctCount(files, t);
      assert t in rerun <==> multiset(rerun)[t] > 0;
    }
  }

  lemma ListedTwice(t: File)
    ensures Listed([Ended(Some(t), true), Ended(Some(t), false)]) == [(t, true), (t, false)]
  {
    var lines := [Ended(Some(t), true), Ended(Some(t), false)];
    assert lines[..1] == [Ended(Some(t), true)] && lines[..1][..0] == [];
    assert Listed(lines[..1]) == [] + [(t, true)];
    assert Listed(lines) == Listed(lines[..1]) + [(t, false)];
  }

  /** An output in which a file ends once crashed and once unfinished gives it two entries. */
  lemma TwoEntriesForOneFile(t: File, key: File -> string, tries: File -> Tries)
    ensures BucketEntries([t], key, Batch(false, map[], [Ended(Some(t), true), Ended(Some(t), false)]), tries, 1).CountOf(t) == 2
  {
    var b := Batch(false, map[], [Ended(Some(t), true), Ended(Some(t), false)]);
    var r := FromOutput(Listed(b.lines));
    ListedTwice(t);
    OutputReruns(Listed(b.lines));
    CopiesInReruns(r, t);
    CountBucket([t], key, b, tries, 1, t);
    assert (t, true) in Listed(b.lines) && (t, false) in Listed(b.lines);
  }

  // ---------- which list each file ends up in ----------

  function Of(t: File): Entry -> bool {
    (e: Entry) => e.file == t
  }

  /** The entries of one file. */
  function EntriesFor(r: Results, t: File): Results {
    Results(Filter(r.ok, Of(t)), Filter(r.flaky, Of(t)), Filter(r.failed, Of(t)))
  }

  lemma EntriesForThen(a: Results, b: Results, t: File)
    ensures EntriesFor(a.Then(b), t) == EntriesFor(a, t).Then(EntriesFor(b, t))
  {
    FilterAppend(a.ok, b.ok, Of(t));
    FilterAppend(a.flaky, b.flaky, Of(t));
    FilterAppend(a.failed, b.failed, Of(t));
  }

  /** A later try passes, and those before it failed with errors that may be retried away. */
  ghost predicate PassesLater(t: Tries, maxAttempts: int) {
    exists a: nat :: 2 <= a <= maxAttempts && t.result(a).ok &&
      forall b: nat :: 1 <= b < a ==> !t.result(b).ok && !t.isAlwaysFailure(t.result(b).error)
  }

  /** What a test that runs alone adds: its first result, to the list of passes if that passed, to the flaky
      ones if a later try did, and to the failures otherwise. */
  ghost function EntryOfTest(file: File, t: Tries, maxAttempts: int): Results {
    if maxAttempts < 1 then Results([], [], [])
    else if t.result(1).ok then Results([Entry(file, t.result(1))], [], [])
    else if PassesLater(t, maxAttempts) then Results([], [Entry(file, t.result(1))], [])
    else Results([], [], [Entry(file, t.result(1))])
  }

  lemma TestEndsIn(file: File, t: Tries, maxAttempts: int)
    ensures ResultsOf(file, VerdictOf(t, maxAttempts)) == EntryOfTest(file, t, maxAttempts)
  {
    FlakyIff(t, maxAttempts);
    if maxAttempts >= 1 {
      assert t.result(1).ok ==> Decides(t, 1, maxAttempts);
    }
  }

  lemma FilterSingle(e: Entry, t: File)
    ensures Filter([e], Of(t)) == if e.file == t then [e] else []
  {
    assert [e][..0] == [] && [] + [e] == [e];
  }

  lemma EntryIsOfItsFile(file: File, t: Tries, maxAttempts: int, other: File)
    ensures var e := EntryOfTest(file, t, maxAttempts); EntriesFor(e, other) == if other == file then e else NOTHING
  {
    FilterSingle(Entry(file, t.result(1)), other);
  }

  lemma AcceptedOne(before: Results, last: File, t: File)
    ensures var e := Results([Entry(last, TestResult(true, ""))], [], []);
            EntriesFor(before.Then(e), t) == if last == t then EntriesFor(before, t).Then(e) else EntriesFor(before, t)
  {
    var e := Results([Entry(last, TestResult(true, ""))], [], []);
    EntriesForThen(before, e, t);
    FilterSingle(Entry(last, TestResult(true, "")), t);
    ThenNothing(EntriesFor(before, t));
  }

  lemma {:induction false} AcceptedFor(files: seq<File>, rerun: seq<File>, t: File)
    requires Distinct(files)
    ensures EntriesFor(AcceptedEntries(files, rerun), t) ==
            if t in files && t !in rerun then Results([Entry(t, TestResult(true, ""))], [], []) else NOTHING
  {
    if files != [] {
      var init, last := files[..|files| - 1], files[|files| - 1];
      assert files == init + [last];
      AcceptedFor(init, rerun, t);
      ThenNothing(Results([Entry(t, TestResult(true, ""))], [], []));
      if last !in rerun {
        AcceptedOne(AcceptedEntries(init, rerun), last, t);
      }
    }
  }

  lemma {:induction false} RerunFor(rerun: seq<File>, tries: File -> Tries, maxAttempts: int, t: File)
    requires Distinct(rerun)
    ensures EntriesFor(RerunEntries(rerun, tries, maxAttempts), t) ==
            if t in rerun then EntryOfTest(t, tries(t), maxAttempts) else NOTHING
  {
    if rerun != [] {
      var init, last := rerun[..|rerun| - 1], rerun[|rerun| - 1];
      assert rerun == init + [last];
      RerunFor(init, tries, maxAttempts, t);
      var e := EntryOfTest(last, tries(last), maxAttempts);
      TestEndsIn(last, tries(last), maxAttempts);
      EntriesForThen(RerunEntries(init, tries, maxAttempts), e, t);
      EntryIsOfItsFile(last, tries(last), maxAttempts, t);
      ThenNothing(e);
      ThenNothing(EntriesFor(RerunEntries(init, tries, maxAttempts), t));
    }
  }

  lemma {:induction false} RerunJoined(a: seq<File>, b: seq<File>, tries: File -> Tries, maxAttempts: int)
    ensures RerunEntries(a + b, tries, maxAttempts) == RerunEntries(a, tries, maxAttempts).Then(RerunEntries(b, tries, maxAttempts))
  {
    if b == [] {
      assert a + b == a;
      ThenNothing(RerunEntries(a, tries, maxAttempts));
    } else {
      var init, last := b[..|b| - 1], b[|b| - 1];
      assert (a + b)[..|a + b| - 1] == a + init;
      RerunJoined(a, init, tries, maxAttempts);
      ThenIsAssociative(RerunEntries(a, tries, maxAttempts), RerunEntries(init, tries, maxAttempts),
                        ResultsOf(last, VerdictOf(tries(last), maxAttempts)));
    }
  }

  function HeadingOf(failed: bool): Line {
    if failed then StillRunning else NotStarted
  }

  /** Line `k` lists the file: it tells how the file ended, or stands in a list that was opened by the heading
      for files that still run (failed) or that had not started. */
  ghost predicate ListsAt(lines: seq<Line>, k: nat, t: File, failed: bool) {
    && k < |lines|
    && (|| lines[k] == Ended(Some(t), failed)
        || (lines[k] == Indented(Some(t)) &&
            exists j: nat :: ListsFrom(lines[..k], HeadingOf(failed), j)))
  }

  ghost predicate IsListed(lines: seq<Line>, t: File, failed: bool) {
    exists k: nat :: ListsAt(lines, k, t, failed)
  }

  lemma ListingIs(lines: seq<Line>, k: nat, t: File, failed: bool)
    requires k < |lines|
    ensures (t, failed) in Listing(lines, k) <==> ListsAt(lines, k, t, failed)
  {
    ListAfterIff(lines[..k], HeadingOf(failed));
    HeadingIsOne(lines[..k]);
  }

  lemma {:induction false} HeadingIsOne(lines: seq<Line>)
    ensures ListAfter(lines) in [None, Some(StillRunning), Some(NotStarted)]
  {
    if lines != [] {
      HeadingIsOne(lines[..|lines| - 1]);
    }
  }

  lemma {:induction false} ListedIff(lines: seq<Line>, t: File, failed: bool)
    ensures (t, failed) in Listed(lines) <==> IsListed(lines, t, failed)
  {
    if lines != [] {
      var init, n := lines[..|lines| - 1], |lines| - 1;
      ListedIff(init, t, failed);
      ListingIs(lines, n, t, failed);
      forall k: nat | k < n ensures ListsAt(init, k, t, failed) <==> ListsAt(lines, k, t, failed) {
        assert init[..k] == lines[..k] && init[k] == lines[k];
      }
    }
  }

  /** The batch ran the file, and there is no doubt about it: the batch exited ok, or its report has a suite of the
      file without failures that does not consist of aborted cases only, or, without a report, the output lists
      some file and not this one. */
  ghost predicate IsAcceptable(key: File -> string, b: Batch, t: File) {
    || b.ok
    || (b.suites != map[] && key(t) in b.suites && b.suites[key(t)].failures == 0
        && !(b.suites[key(t)].caseNames != [] && forall c :: c in b.suites[key(t)].caseNames ==> c == "(aborted)"))
    || (b.suites == map[] && (exists u: File, failed: bool :: IsListed(b.lines, u, failed))
        && !IsListed(b.lines, t, true) && !IsListed(b.lines, t, false))
  }

  lemma AnyListed(lines: seq<Line>)
    ensures Listed(lines) != [] <==> exists u: File, failed: bool :: IsListed(lines, u, failed)
  {
    if Listed(lines) != [] {
      var (u, failed) := Listed(lines)[0];
      ListedIff(lines, u, failed);
    }
    if u: File, failed: bool :| IsListed(lines, u, failed) {
      ListedIff(lines, u, failed);
    }
  }

  lemma NothingToRerun(listed: seq<(File, bool)>)
    ensures var r := FromOutput(listed); r.failed == [] && r.incomplete == [] <==> listed == []
  {
    OutputReruns(listed);
    if listed != [] {
      assert listed[0] == (listed[0].0, listed[0].1) && listed[0] in listed;
    }
  }

  /** Without a report a file is accepted without a run of its own exactly if the output lists some file and not
      this one. With nothing listed every file runs alone. */
  lemma AcceptedWithoutReport(files: seq<File>, key: File -> string, b: Batch, t: File)
    requires !b.ok && b.suites == map[] && t in files
    ensures t !in RerunList(files, key, b) <==> IsAcceptable(key, b, t)
  {
    OutputReruns(Listed(b.lines));
    NothingToRerun(Listed(b.lines));
    AnyListed(b.lines);
    ListedIff(b.lines, t, true);
    ListedIff(b.lines, t, false);
  }

  lemma AcceptedExactly(files: seq<File>, key: File -> string, b: Batch, t: File)
    requires t in files
    ensures t !in RerunList(files, key, b) <==> IsAcceptable(key, b, t)
  {
    if b.suites != map[] {
      AcceptedIff(files, key, b, t);
    } else if !b.ok {
      AcceptedWithoutReport(files, key, b, t);
    }
  }

  ghost predicate RunsTwice(b: Batch, t: File) {
    !b.ok && b.suites == map[] && IsListed(b.lines, t, true) && IsListed(b.lines, t, false)
  }

  lemma RerunsAre(files: seq<File>, key: File -> string, b: Batch, t: File)
    ensures var r := RerunsOf(files, key, b);
            && Distinct(r.failed) && Distinct(r.incomplete)
            && (t in r.failed && t in r.incomplete <==> RunsTwice(b, t))
  {
    ReportReruns(files, key, b.suites);
    OutputReruns(Listed(b.lines));
    ListedIff(b.lines, t, true);
    ListedIff(b.lines, t, false);
  }

  lemma RerunEntriesFor(files: seq<File>, key: File -> string, b: Batch, tries: File -> Tries, maxAttempts: int, t: File)
    requires Distinct(files) && t in files
    ensures var (rerun, e) := (RerunList(files, key, b), EntryOfTest(t, tries(t), maxAttempts));
            EntriesFor(RerunEntries(rerun, tries, maxAttempts), t) ==
            if t !in rerun then NOTHING else if RunsTwice(b, t) then e.Then(e) else e
  {
    var r, rerun, e := RerunsOf(files, key, b), RerunList(files, key, b), EntryOfTest(t, tries(t), maxAttempts);
    RerunsAre(files, key, b, t);
    if rerun == r.failed + r.incomplete {
      RerunJoined(r.failed, r.incomplete, tries, maxAttempts);
      RerunFor(r.failed, tries, maxAttempts, t);
      RerunFor(r.incomplete, tries, maxAttempts, t);
      EntriesForThen(RerunEntries(r.failed, tries, maxAttempts), RerunEntries(r.incomplete, tries, maxAttempts), t);
      ThenNothing(e);
      ThenNothing(NOTHING);
    } else {
      RerunFor(files, tries, maxAttempts, t);
    }
  }

  /** What a bucket adds for each of its files: a plain pass if the batch is to be believed, otherwise the entry of
      its run alone, twice if the output lists it both ways. */
  lemma BucketEntriesFor(files: seq<File>, key: File -> string, b: Batch, tries: File -> Tries, maxAttempts: int, t: File)
    requires Distinct(files) && t in files
    ensures var e := EntryOfTest(t, tries(t), maxAttempts);
            EntriesFor(BucketEntries(files, key, b, tries, maxAttempts), t) ==
            if IsAcceptable(key, b, t) then Results([Entry(t, TestResult(true, ""))], [], [])
            else if RunsTwice(b, t) then e.Then(e)
            else e
  {
    var rerun := RerunList(files, key, b);
    AcceptedExactly(files, key, b, t);
    AcceptedFor(files, rerun, t);
    RerunEntriesFor(files, key, b, tries, maxAttempts, t);
    EntriesForThen(AcceptedEntries(files, rerun), RerunEntries(rerun, tries, maxAttempts), t);
    ThenNothing(EntriesFor(AcceptedEntries(files, rerun), t));
    ThenNothing(EntriesFor(RerunEntries(rerun, tries, maxAttempts), t));
  }
}
