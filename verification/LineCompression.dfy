/** How `parseTestStdout` in scripts/runner.node.ts shortens the output of a test file: of a long run
    of tests that did not fail only the ends stay. */
module LineCompression {
  import Lists

  type Line = string

  /** A line of the preview, or a line that says how many were left out. */
  datatype Shown = Kept(line: Line) | Omitted(count: nat)

  /** How a line is classified once its ANSI escapes are stripped: a workflow command (`::`), a test
      that did not fail, or anything else. */
  datatype Classifier = Classifier(isCommand: Line -> bool, isQuiet: Line -> bool)

  function Keep(s: seq<Line>): (r: seq<Shown>)
    ensures |r| == |s| && forall i :: 0 <= i < |s| ==> r[i] == Kept(s[i])
  {
    seq(|s|, i requires 0 <= i < |s| => Kept(s[i]))
  }

  /** The lines that are no commands. */
  function Visible(k: Classifier, s: seq<Line>): seq<Line> {
    if s == [] then []
    else Visible(k, s[..|s| - 1]) + if k.isCommand(s[|s| - 1]) then [] else [s[|s| - 1]]
  }

  // ---------- the reference ----------

  /** How many quiet lines `s` begins with. */
  function Run(k: Classifier, s: seq<Line>): (n: nat)
    ensures n <= |s|
    ensures forall i :: 0 <= i < n ==> k.isQuiet(s[i])
    ensures n < |s| ==> !k.isQuiet(s[n])
  {
    if s != [] && k.isQuiet(s[0]) then 1 + Run(k, s[1..]) else 0
  }

  /** Of each run of more than three quiet lines that another line follows, the first and the last stay. */
  function Group(k: Classifier, s: seq<Line>): seq<Shown>
    decreases |s|
  {
    var n := Run(k, s);
    if s == [] then []
    else if n == 0 then [Kept(s[0])] + Group(k, s[1..])
    else if n > 3 && n < |s| then [Kept(s[0]), Omitted(n - 2), Kept(s[n - 1])] + Group(k, s[n..])
    else Keep(s[..n]) + Group(k, s[n..])
  }

  // ---------- the loop ----------

  /** `lines.splice(start, count, line)` */
  function Splice(lines: seq<Shown>, start: nat, count: nat, line: Shown): seq<Shown>
    requires start + count <= |lines|
  {
    lines[..start] + [line] + lines[start + count..]
  }

  /** The lines so far end with a run of `skipCount` quiet ones; those before it are grouped for good. */
  ghost predicate SoFar(k: Classifier, visible: seq<Line>, lines: seq<Shown>, skipCount: nat) {
    && skipCount <= |visible|
    && var done, run := visible[..|visible| - skipCount], visible[|visible| - skipCount..];
       Settled(k, done) && AllQuiet(k, run) && lines == Group(k, done) + Keep(run)
  }

  method AddLine(k: Classifier, lines: seq<Shown>, skipCount: nat, chunk: Line, ghost visible: seq<Line>)
    returns (lines': seq<Shown>, skipCount': nat)
    requires SoFar(k, visible, lines, skipCount)
    ensures SoFar(k, visible + [chunk], lines', skipCount')
  {
    ghost var done, run := visible[..|visible| - skipCount], visible[|visible| - skipCount..];
    assert visible == done + run;
    lines' := lines + [Kept(chunk)];
    if k.isQuiet(chunk) {
      skipCount' := skipCount + 1;
      AddQuiet(k, visible, chunk, lines, skipCount);
    } else {
      EndRun(k, done, run, chunk, lines');
      if skipCount > 3 {
        var removeStart := |lines'| - skipCount;
        var removeCount := skipCount - 2;
        lines' := Splice(lines', removeStart, removeCount, Omitted(removeCount));
      }
      skipCount' := 0;
      NothingKept(visible + [chunk], lines');
    }
  }

  lemma AddQuiet(k: Classifier, visible: seq<Line>, line: Line, lines: seq<Shown>, skipCount: nat)
    requires SoFar(k, visible, lines, skipCount) && k.isQuiet(line)
    ensures SoFar(k, visible + [line], lines + [Kept(line)], skipCount + 1)
  {
    var cut := |visible| - skipCount;
    assert (visible + [line])[..cut] == visible[..cut];
    assert (visible + [line])[cut..] == visible[cut..] + [line];
    assert Keep(visible[cut..] + [line]) == Keep(visible[cut..]) + [Kept(line)];
    Lists.Regroup(Group(k, visible[..cut]), Keep(visible[cut..]), [Kept(line)]);
  }

  lemma NothingKept(visible: seq<Line>, lines: seq<Shown>)
    ensures visible[..|visible|] == visible && lines + Keep(visible[|visible|..]) == lines
  {}

  method Compress(k: Classifier, chunks: seq<Line>) returns (lines: seq<Shown>)
    ensures lines == Group(k, Visible(k, chunks))
  {
    lines := [];
    var skipCount := 0;
    for i := 0 to |chunks|
      invariant SoFar(k, Visible(k, chunks[..i]), lines, skipCount)
    {
      var chunk := chunks[i];
      VisibleNext(k, chunks, i);
      if !k.isCommand(chunk) {
        lines, skipCount := AddLine(k, lines, skipCount, chunk, Visible(k, chunks[..i]));
      }
    }
    assert chunks[..|chunks|] == chunks;
    AllGrouped(k, Visible(k, chunks), lines, skipCount);
  }

  lemma VisibleNext(k: Classifier, chunks: seq<Line>, i: nat)
    requires i < |chunks|
    ensures Visible(k, chunks[..i + 1]) ==
            if k.isCommand(chunks[i]) then Visible(k, chunks[..i]) else Visible(k, chunks[..i]) + [chunks[i]]
  {
    assert chunks[..i + 1][..i] == chunks[..i];
  }

  /** A run that the text ends with stays as it is. */
  lemma AllGrouped(k: Classifier, visible: seq<Line>, lines: seq<Shown>, skipCount: nat)
    requires SoFar(k, visible, lines, skipCount)
    ensures lines == Group(k, visible)
  {
    var done, run := visible[..|visible| - skipCount], visible[|visible| - skipCount..];
    GroupTail(k, done, run);
    assert visible == done + run;
  }

  lemma EndRun(k: Classifier, done: seq<Line>, run: seq<Line>, line: Line, lines: seq<Shown>)
    requires Settled(k, done) && AllQuiet(k, run) && !k.isQuiet(line)
    requires lines == Group(k, done) + Keep(run) + [Kept(line)]
    ensures Group(k, done + run + [line]) ==
            if |run| > 3 then Splice(lines, |lines| - |run|, |run| - 2, Omitted(|run| - 2)) else lines
  {
    GroupRun(k, done, run, line);
    if |run| > 3 {
      SpliceRun(Group(k, done), run, line);
    } else {
      Lists.Regroup(Group(k, done), Keep(run), [Kept(line)]);
    }
  }

  /** No run of quiet lines is open at the end. */
  ghost predicate Settled(k: Classifier, s: seq<Line>) {
    s == [] || !k.isQuiet(s[|s| - 1])
  }

  ghost predicate AllQuiet(k: Classifier, s: seq<Line>) {
    forall i :: 0 <= i < |s| ==> k.isQuiet(s[i])
  }

  lemma {:induction false} RunOfAppend(k: Classifier, s: seq<Line>, t: seq<Line>)
    requires s != [] && Settled(k, s)
    ensures Run(k, s + t) == Run(k, s) < |s|
  {
    if k.isQuiet(s[0]) {
      assert (s + t)[1..] == s[1..] + t;
      RunOfAppend(k, s[1..], t);
    }
  }

  lemma {:induction false} RunOfQuiet(k: Classifier, run: seq<Line>, t: seq<Line>)
    requires AllQuiet(k, run) && (t == [] || !k.isQuiet(t[0]))
    ensures Run(k, run + t) == |run|
  {
    if run == [] {
      assert run + t == t;
    } else {
      assert (run + t)[1..] == run[1..] + t;
      RunOfQuiet(k, run[1..], t);
    }
  }

  /** Groups do not reach over a line that failed. */
  lemma {:induction false} GroupCut(k: Classifier, s: seq<Line>, t: seq<Line>)
    requires Settled(k, s)
    ensures Group(k, s + t) == Group(k, s) + Group(k, t)
    decreases |s|
  {
    if s == [] {
      assert s + t == t;
    } else {
      RunOfAppend(k, s, t);
      var n := Run(k, s);
      if n == 0 {
        assert (s + t)[1..] == s[1..] + t;
        GroupCut(k, s[1..], t);
      } else {
        assert (s + t)[n..] == s[n..] + t && (s + t)[..n] == s[..n];
        GroupCut(k, s[n..], t);
      }
    }
  }

  lemma GroupOfRun(k: Classifier, run: seq<Line>, line: Line)
    requires AllQuiet(k, run) && !k.isQuiet(line)
    ensures Group(k, run + [line]) ==
      (if |run| > 3 then [Kept(run[0]), Omitted(|run| - 2), Kept(run[|run| - 1])] else Keep(run)) + [Kept(line)]
  {
    var s := run + [line];
    RunOfQuiet(k, run, [line]);
    assert s[|run|..] == [line] && s[..|run|] == run;
    assert [line][1..] == [] && Group(k, [line]) == [Kept(line)] + [];
    assert Keep([]) + [Kept(line)] == [Kept(line)];
  }

  lemma GroupRun(k: Classifier, done: seq<Line>, run: seq<Line>, line: Line)
    requires Settled(k, done) && AllQuiet(k, run) && !k.isQuiet(line)
    ensures Group(k, done + run + [line]) == Group(k, done) +
      ((if |run| > 3 then [Kept(run[0]), Omitted(|run| - 2), Kept(run[|run| - 1])] else Keep(run)) + [Kept(line)])
  {
    assert done + run + [line] == done + (run + [line]);
    GroupCut(k, done, run + [line]);
    GroupOfRun(k, run, line);
  }

  lemma GroupTail(k: Classifier, done: seq<Line>, run: seq<Line>)
    requires Settled(k, done) && AllQuiet(k, run)
    ensures Group(k, done + run) == Group(k, done) + Keep(run)
  {
    GroupCut(k, done, run);
    RunOfQuiet(k, run, []);
    assert run + [] == run && run[..|run|] == run && run[|run|..] == [];
    assert Keep(run) + [] == Keep(run);
  }

  /** The splice removes all of the run but its first and last line, although the line that ended
      the run has been pushed already. */
  lemma SpliceRun(before: seq<Shown>, run: seq<Line>, line: Line)
    requires |run| > 3
    ensures var lines := before + Keep(run) + [Kept(line)];
            Splice(lines, |lines| - |run|, |run| - 2, Omitted(|run| - 2)) ==
            before + ([Kept(run[0]), Omitted(|run| - 2), Kept(run[|run| - 1])] + [Kept(line)])
  {
    var lines := before + Keep(run) + [Kept(line)];
    var start := |lines| - |run|;
    assert lines[..start] == before + [Kept(run[0])];
    assert lines[start + |run| - 2..] == [Kept(run[|run| - 1]), Kept(line)];
  }

  // ---------- what the reference keeps ----------

  /** How many lines of the output the preview accounts for. */
  function Accounted(shown: seq<Shown>): nat {
    if shown == [] then 0 else (match shown[0] case Kept(_) => 1 case Omitted(n) => n) + Accounted(shown[1..])
  }

  lemma {:induction false} AccountedAppend(a: seq<Shown>, b: seq<Shown>)
    ensures Accounted(a + b) == Accounted(a) + Accounted(b)
  {
    if a == [] {
      assert a + b == b;
    } else {
      assert (a + b)[1..] == a[1..] + b;
      AccountedAppend(a[1..], b);
    }
  }

  lemma {:induction false} AccountedKeep(s: seq<Line>)
    ensures Accounted(Keep(s)) == |s|
  {
    if s != [] {
      assert Keep(s)[1..] == Keep(s[1..]);
      AccountedKeep(s[1..]);
    }
  }

  lemma AccountedEnds(first: Line, n: nat, last: Line)
    ensures Accounted([Kept(first), Omitted(n), Kept(last)]) == n + 2
  {
    assert [Kept(first), Omitted(n), Kept(last)] == [Kept(first)] + ([Omitted(n)] + [Kept(last)]);
    AccountedAppend([Kept(first)], [Omitted(n)] + [Kept(last)]);
    AccountedAppend([Omitted(n)], [Kept(last)]);
  }

  /** Kept and omitted lines add up to the visible ones. */
  lemma {:induction false} NothingIsLost(k: Classifier, s: seq<Line>)
    ensures Accounted(Group(k, s)) == |s|
    decreases |s|
  {
    if s != [] {
      var n := Run(k, s);
      if n == 0 {
        NothingIsLost(k, s[1..]);
      } else {
        NothingIsLost(k, s[n..]);
        if n > 3 && n < |s| {
          var ends := [Kept(s[0]), Omitted(n - 2), Kept(s[n - 1])];
          AccountedAppend(ends, Group(k, s[n..]));
          AccountedEnds(s[0], n - 2, s[n - 1]);
        } else {
          AccountedAppend(Keep(s[..n]), Group(k, s[n..]));
          AccountedKeep(s[..n]);
        }
      }
    }
  }

  /** The lines of the preview that are not quiet. */
  function Loud(k: Classifier, shown: seq<Shown>): seq<Line> {
    if shown == [] then []
    else (if shown[0].Kept? && !k.isQuiet(shown[0].line) then [shown[0].line] else []) + Loud(k, shown[1..])
  }

  lemma {:induction false} LoudAppend(k: Classifier, a: seq<Shown>, b: seq<Shown>)
    ensures Loud(k, a + b) == Loud(k, a) + Loud(k, b)
  {
    if a == [] {
      assert a + b == b;
    } else {
      assert (a + b)[1..] == a[1..] + b;
      LoudAppend(k, a[1..], b);
    }
  }

  ghost predicate NoneLoud(k: Classifier, a: seq<Shown>) {
    forall i :: 0 <= i < |a| && a[i].Kept? ==> k.isQuiet(a[i].line)
  }

  lemma {:induction false} LoudOfQuiet(k: Classifier, a: seq<Shown>)
    requires NoneLoud(k, a)
    ensures Loud(k, a) == []
  {
    if a != [] {
      LoudOfQuiet(k, a[1..]);
    }
  }

  lemma LoudAfterQuiet(k: Classifier, a: seq<Shown>, b: seq<Shown>)
    requires NoneLoud(k, a)
    ensures Loud(k, a + b) == Loud(k, b)
  {
    LoudAppend(k, a, b);
    LoudOfQuiet(k, a);
  }

  lemma RunIsLost(k: Classifier, s: seq<Line>, n: nat)
    requires n <= |s| && NoneLoud(k, Keep(s[..n]))
    ensures Loud(k, Keep(s)) == Loud(k, Keep(s[n..]))
  {
    assert Keep(s) == Keep(s[..n]) + Keep(s[n..]);
    LoudAfterQuiet(k, Keep(s[..n]), Keep(s[n..]));
  }

  lemma GroupLosesRun(k: Classifier, s: seq<Line>, n: nat)
    requires 0 < n == Run(k, s)
    ensures NoneLoud(k, Keep(s[..n]))
    ensures Loud(k, Group(k, s)) == Loud(k, Group(k, s[n..]))
  {
    if n > 3 && n < |s| {
      LoudAfterQuiet(k, [Kept(s[0]), Omitted(n - 2), Kept(s[n - 1])], Group(k, s[n..]));
    } else {
      LoudAfterQuiet(k, Keep(s[..n]), Group(k, s[n..]));
    }
  }

  lemma OneLoud(k: Classifier, line: Line, rest: seq<Shown>)
    ensures Loud(k, [Kept(line)] + rest) == (if k.isQuiet(line) then [] else [line]) + Loud(k, rest)
  {
    assert ([Kept(line)] + rest)[1..] == rest;
  }

  /** Every line that is not quiet stays, in order. */
  lemma {:induction false} FailuresStay(k: Classifier, s: seq<Line>)
    ensures Loud(k, Group(k, s)) == Loud(k, Keep(s))
    decreases |s|
  {
    if s != [] {
      var n := Run(k, s);
      if n == 0 {
        FailuresStay(k, s[1..]);
        assert Keep(s) == [Kept(s[0])] + Keep(s[1..]);
        OneLoud(k, s[0], Keep(s[1..]));
        OneLoud(k, s[0], Group(k, s[1..]));
      } else {
        FailuresStay(k, s[n..]);
        GroupLosesRun(k, s, n);
        RunIsLost(k, s, n);
      }
    }
  }

  // ---------- which lines are shown, and when a run is long ----------

  /** The lines that are no commands, in order. */
  lemma {:induction false} VisibleIs(k: Classifier, s: seq<Line>)
    ensures Visible(k, s) == Lists.Filter(s, line => !k.isCommand(line))
  {
    if s != [] {
      VisibleIs(k, s[..|s| - 1]);
    }
  }

  /** A run of quiet lines that another line ends, and what follows: four or more lose their inside, three or
      fewer stay. */
  lemma RunBecomes(k: Classifier, run: seq<Line>, line: Line, rest: seq<Line>)
    requires run != [] && AllQuiet(k, run) && !k.isQuiet(line)
    ensures Group(k, run + ([line] + rest)) ==
            (if |run| >= 4 then [Kept(run[0]), Omitted(|run| - 2), Kept(run[|run| - 1])] else Keep(run)) + Group(k, [line] + rest)
  {
    var s := run + ([line] + rest);
    RunOfQuiet(k, run, [line] + rest);
    assert s[|run|..] == [line] + rest && s[..|run|] == run;
  }

  /** A run that nothing ends stays whole. */
  lemma OpenRunStays(k: Classifier, run: seq<Line>)
    requires run != [] && AllQuiet(k, run)
    ensures Group(k, run) == Keep(run)
  {
    RunOfQuiet(k, run, []);
    assert run + [] == run && run[..|run|] == run && run[|run|..] == [];
    assert Keep(run) + [] == Keep(run);
  }
}
