/** How scripts/ci-slowest-tests.ts takes the time of each test file from the log of a job. A header
    opens the span of its file; the next header, summary or phase closes it. */
module CiTimes {
  import opened Lists

  type Name = string

  /** A line as the patterns of `parseLog` see it. `Timed` is a summary of a parallel bucket with the
      time inline. A `Header` whose title is no path names nothing. */
  datatype Line =
    | Unstamped
    | Timed(ts: int, name: Name, ms: int)
    | Header(ts: int, path: Option<Name>, concurrent: bool)
    | Phase(ts: int)
    | Plain(ts: int)

  /** Closes what is open. */
  predicate Delimits(line: Line) {
    line.Timed? || line.Header? || line.Phase?
  }

  // ---------- what the times are ----------

  /** The last timestamp of the log. */
  function LastStamp(log: seq<Line>): int {
    if log == [] then 0
    else if log[|log| - 1].Unstamped? then LastStamp(log[..|log| - 1])
    else log[|log| - 1].ts
  }

  /** When a span that is open before line `k` ends: at the next delimiter, or with the log. */
  function EndOf(log: seq<Line>, k: nat): int
    requires k <= |log|
    decreases |log| - k
  {
    if k == |log| then LastStamp(log)
    else if Delimits(log[k]) then log[k].ts
    else EndOf(log, k + 1)
  }

  /** What counts of a span. */
  function Clamp(span: int, concurrent: bool): int {
    if concurrent && span > 500 then 500 else span
  }

  predicate Opens(line: Line) {
    line.Header? && line.path.Some?
  }

  /** What line `k` is worth, for the file that it names. */
  function Worth(log: seq<Line>, k: nat): int
    requires k < |log|
  {
    if log[k].Timed? then log[k].ms
    else if Opens(log[k]) then Clamp(EndOf(log, k + 1) - log[k].ts, log[k].concurrent)
    else 0
  }

  predicate Names(line: Line, name: Name) {
    (line.Timed? && line.name == name) || (line.Header? && line.path == Some(name))
  }

  /** What the first `k` lines are worth for a file. */
  function Total(log: seq<Line>, k: nat, name: Name): int
    requires k <= |log|
  {
    if k == 0 then 0
    else Total(log, k - 1, name) + if Names(log[k - 1], name) then Worth(log, k - 1) else 0
  }

  /** The times of the files that the first `k` lines name. */
  ghost predicate Holds(out: map<Name, int>, log: seq<Line>, k: nat)
    requires k <= |log|
  {
    forall name: Name ::
      && (name in out <==> exists i :: 0 <= i < k && Names(log[i], name))
      && (if name in out then out[name] else 0) == Total(log, k, name)
  }

  // ---------- the parser ----------

  function Charge(out: map<Name, int>, name: Name, ms: int): map<Name, int> {
    out[name := (if name in out then out[name] else 0) + ms]
  }

  /** `close(ts)`. */
  function Close(out: map<Name, int>, curName: Option<Name>, curStart: int, concurrent: bool, ts: int): map<Name, int> {
    if curName.None? then out else Charge(out, curName.value, Clamp(ts - curStart, concurrent))
  }

  /** Lines that name nothing are worth nothing. */
  lemma {:induction false} HoldsOver(out: map<Name, int>, log: seq<Line>, k: nat, n: nat)
    requires k <= n <= |log| && Holds(out, log, k)
    requires forall i :: k <= i < n ==> !log[i].Timed? && !Opens(log[i])
    ensures Holds(out, log, n)
    decreases n - k
  {
    if k < n {
      forall name: Name
        ensures (name in out <==> exists i :: 0 <= i < k + 1 && Names(log[i], name)) && Total(log, k + 1, name) == Total(log, k, name)
      {
        assert !Names(log[k], name);
      }
      HoldsOver(out, log, k + 1, n);
    }
  }

  /** One line that names a file. */
  lemma HoldsNext(out: map<Name, int>, log: seq<Line>, k: nat, name: Name)
    requires k < |log| && Holds(out, log, k) && Names(log[k], name)
    ensures Holds(Charge(out, name, Worth(log, k)), log, k + 1)
  {
    var out' := Charge(out, name, Worth(log, k));
    forall other: Name
      ensures other in out' <==> exists i :: 0 <= i < k + 1 && Names(log[i], other)
      ensures (if other in out' then out'[other] else 0) == Total(log, k + 1, other)
    {
      assert Names(log[k], other) <==> other == name;
    }
  }

  lemma {:induction false} EndSkips(log: seq<Line>, k: nat, n: nat)
    requires k <= n <= |log| && forall i :: k <= i < n ==> !Delimits(log[i])
    ensures EndOf(log, k) == EndOf(log, n)
    decreases n - k
  {
    if k < n {
      EndSkips(log, k + 1, n);
    }
  }

  /** The variables of the loop before line `n`: `h` is the header that is open, if one is. */
  ghost predicate IsOpen(log: seq<Line>, n: nat, h: nat, curName: Option<Name>, curStart: int, concurrent: bool) {
    && n <= |log|
    && (curName.None? ==> h == n)
    && (curName.Some? ==> h < n && log[h] == Header(curStart, curName, concurrent) && forall i :: h < i < n ==> !Delimits(log[i]))
  }

  /** Closing accounts for every line so far. */
  lemma Closes(out: map<Name, int>, log: seq<Line>, n: nat, h: nat, curName: Option<Name>, curStart: int, concurrent: bool)
    requires IsOpen(log, n, h, curName, curStart, concurrent) && Holds(out, log, h)
    ensures Holds(Close(out, curName, curStart, concurrent, EndOf(log, n)), log, n)
  {
    if curName.Some? {
      EndSkips(log, h + 1, n);
      HoldsNext(out, log, h, curName.value);
      HoldsOver(Charge(out, curName.value, Worth(log, h)), log, h + 1, n);
    }
  }

  /** The state of the loop before line `n`. */
  ghost predicate State(log: seq<Line>, n: nat, h: nat, out: map<Name, int>, curName: Option<Name>, curStart: int, concurrent: bool) {
    IsOpen(log, n, h, curName, curStart, concurrent) && Holds(out, log, h)
  }

  lemma AfterTimed(log: seq<Line>, n: nat, out: map<Name, int>, curStart: int)
    requires n < |log| && log[n].Timed? && Holds(out, log, n)
    ensures State(log, n + 1, n + 1, Charge(out, log[n].name, log[n].ms), None, curStart, false)
  {
    HoldsNext(out, log, n, log[n].name);
  }

  lemma AfterHeader(log: seq<Line>, n: nat, out: map<Name, int>)
    requires n < |log| && log[n].Header? && Holds(out, log, n)
    ensures State(log, n + 1, if log[n].path.None? then n + 1 else n, out, log[n].path, log[n].ts, log[n].concurrent)
  {
    if log[n].path.None? {
      HoldsOver(out, log, n, n + 1);
    }
  }

  lemma AfterPhase(log: seq<Line>, n: nat, out: map<Name, int>, curStart: int)
    requires n < |log| && log[n].Phase? && Holds(out, log, n)
    ensures State(log, n + 1, n + 1, out, None, curStart, false)
  {
    HoldsOver(out, log, n, n + 1);
  }

  lemma AfterOther(log: seq<Line>, n: nat, h: nat, out: map<Name, int>, curName: Option<Name>, curStart: int, concurrent: bool)
    requires State(log, n, h, out, curName, curStart, concurrent) && n < |log| && !Delimits(log[n])
    ensures State(log, n + 1, if curName.None? then n + 1 else h, out, curName, curStart, concurrent)
  {
    if curName.None? {
      HoldsOver(out, log, n, n + 1);
    }
  }

  lemma StampNext(log: seq<Line>, n: nat)
    requires n < |log|
    ensures LastStamp(log[..n + 1]) == if log[n].Unstamped? then LastStamp(log[..n]) else log[n].ts
  {
    assert log[..n + 1][..n] == log[..n];
  }

  /** `close` at a line that delimits. */
  lemma ClosesAt(out: map<Name, int>, log: seq<Line>, n: nat, h: nat, curName: Option<Name>, curStart: int, concurrent: bool)
    requires State(log, n, h, out, curName, curStart, concurrent) && n < |log| && Delimits(log[n])
    ensures Holds(Close(out, curName, curStart, concurrent, log[n].ts), log, n)
  {
    Closes(out, log, n, h, curName, curStart, concurrent);
  }

  lemma ClosesLast(out: map<Name, int>, log: seq<Line>, h: nat, curName: Option<Name>, curStart: int, concurrent: bool)
    requires State(log, |log|, h, out, curName, curStart, concurrent)
    ensures Holds(Close(out, curName, curStart, concurrent, LastStamp(log[..|log|])), log, |log|)
  {
    assert log[..|log|] == log;
    Closes(out, log, |log|, h, curName, curStart, concurrent);
  }

  method ParseLog(log: seq<Line>) returns (out: map<Name, int>)
    ensures Holds(out, log, |log|)
  {
    out := map[];
    var curName: Option<Name> := None;
    var curStart, concurrent, lastTs := 0, false, 0;
    ghost var h := 0;
    for n := 0 to |log|
      invariant State(log, n, h, out, curName, curStart, concurrent)
      invariant lastTs == LastStamp(log[..n])
    {
      StampNext(log, n);
      var line := log[n];
      if !line.Unstamped? {
        lastTs := line.ts;
      }
      if line.Timed? {
        ClosesAt(out, log, n, h, curName, curStart, concurrent);
        out := Close(out, curName, curStart, concurrent, line.ts);
        AfterTimed(log, n, out, curStart);
        out := Charge(out, line.name, line.ms);
        curName, concurrent, h := None, false, n + 1;
      } else if line.Header? {
        ClosesAt(out, log, n, h, curName, curStart, concurrent);
        out := Close(out, curName, curStart, concurrent, line.ts);
        AfterHeader(log, n, out);
        curName, curStart, concurrent := line.path, line.ts, line.concurrent;
        h := if curName.None? then n + 1 else n;
      } else if line.Phase? {
        ClosesAt(out, log, n, h, curName, curStart, concurrent);
        out := Close(out, curName, curStart, concurrent, line.ts);
        AfterPhase(log, n, out, curStart);
        curName, concurrent, h := None, false, n + 1;
      } else {
        AfterOther(log, n, h, out, curName, curStart, concurrent);
        h := if curName.None? then n + 1 else h;
      }
    }
    ClosesLast(out, log, h, curName, curStart, concurrent);
    out := Close(out, curName, curStart, concurrent, lastTs);
  }

  // ---------- logs whose clock does not run backwards ----------

  ghost predicate IsMonotone(log: seq<Line>) {
    forall i, j :: 0 <= i < j < |log| && !log[i].Unstamped? && !log[j].Unstamped? ==> log[i].ts <= log[j].ts
  }

  lemma {:induction false} LastIsLast(log: seq<Line>, i: nat)
    requires IsMonotone(log) && i < |log| && !log[i].Unstamped?
    ensures log[i].ts <= LastStamp(log)
  {
    if log[|log| - 1].Unstamped? {
      LastIsLast(log[..|log| - 1], i);
    }
  }

  /** A span ends no earlier than any line before its end begins, and no later than any delimiter after it. */
  lemma {:induction false} EndIsBetween(log: seq<Line>, i: nat, k: nat)
    requires IsMonotone(log) && i < k <= |log| && !log[i].Unstamped?
    ensures log[i].ts <= EndOf(log, k) <= LastStamp(log)
    ensures forall j :: k <= j < |log| && Delimits(log[j]) ==> EndOf(log, k) <= log[j].ts
    decreases |log| - k
  {
    if k == |log| {
      LastIsLast(log, i);
    } else if Delimits(log[k]) {
      LastIsLast(log, k);
    } else {
      EndIsBetween(log, i, k + 1);
    }
  }

  /** Spans are no shorter than nothing, and each ends before the next begins. */
  lemma SpansAreDisjoint(log: seq<Line>, i: nat, j: nat)
    requires IsMonotone(log) && i < j < |log| && Opens(log[i]) && Opens(log[j])
    ensures log[i].ts <= EndOf(log, i + 1) <= log[j].ts <= EndOf(log, j + 1) <= LastStamp(log)
  {
    EndIsBetween(log, i, i + 1);
    EndIsBetween(log, j, j + 1);
  }

  function SpanWorth(log: seq<Line>, k: nat, names: seq<Name>): int
    requires k < |log|
  {
    if Opens(log[k]) && log[k].path.value in names then Worth(log, k) else 0
  }

  /** The spans of `names` that the first `k` lines open. */
  function Spent(log: seq<Line>, k: nat, names: seq<Name>): int
    requires k <= |log|
  {
    if k == 0 then 0 else Spent(log, k - 1, names) + SpanWorth(log, k - 1, names)
  }

  /** All spans together fit between the first and the last timestamp. */
  lemma {:induction false} SpansFit(log: seq<Line>, first: nat, k: nat, names: seq<Name>)
    requires IsMonotone(log) && first < k <= |log| && !log[first].Unstamped?
    requires forall i :: 0 <= i < first ==> log[i].Unstamped?
    ensures 0 <= Spent(log, k, names) <= EndOf(log, k) - log[first].ts
    ensures Spent(log, k, names) <= LastStamp(log) - log[first].ts
  {
    EndIsBetween(log, first, k);
    if k == first + 1 {
      SpentNothing(log, first, names);
      SpanIsGap(log, first, names);
    } else {
      SpansFit(log, first, k - 1, names);
      SpanIsGap(log, k - 1, names);
    }
  }

  lemma {:induction false} SpentNothing(log: seq<Line>, k: nat, names: seq<Name>)
    requires k <= |log| && forall i :: 0 <= i < k ==> log[i].Unstamped?
    ensures Spent(log, k, names) == 0
  {
    if k > 0 {
      SpentNothing(log, k - 1, names);
    }
  }

  /** What a line is worth is at most the way from the end of the span before it to the end of its own. */
  lemma SpanIsGap(log: seq<Line>, k: nat, names: seq<Name>)
    requires IsMonotone(log) && k < |log|
    requires exists i :: 0 <= i <= k && !log[i].Unstamped?
    ensures 0 <= SpanWorth(log, k, names)
    ensures SpanWorth(log, k, names) <= EndOf(log, k + 1) - (if Delimits(log[k]) then log[k].ts else EndOf(log, k))
  {
    if Delimits(log[k]) {
      EndIsBetween(log, k, k + 1);
    }
  }

  /** The times that summaries report for a file. */
  function Reported(log: seq<Line>, k: nat, name: Name): int
    requires k <= |log|
  {
    if k == 0 then 0
    else Reported(log, k - 1, name) + if log[k - 1].Timed? && log[k - 1].name == name then log[k - 1].ms else 0
  }

  /** The time of a file is what summaries report and what its spans take. */
  lemma {:induction false} TotalSplits(log: seq<Line>, k: nat, name: Name)
    requires k <= |log|
    ensures Total(log, k, name) == Reported(log, k, name) + Spent(log, k, [name])
  {
    if k > 0 {
      TotalSplits(log, k - 1, name);
    }
  }

  /** No span counts for two files. */
  lemma {:induction false} SpentSplits(log: seq<Line>, k: nat, name: Name, others: seq<Name>)
    requires k <= |log| && name !in others
    ensures Spent(log, k, [name] + others) == Spent(log, k, [name]) + Spent(log, k, others)
  {
    if k > 0 {
      SpentSplits(log, k - 1, name, others);
    }
  }

  // ---------- what one span is worth ----------

  /** A header opens a span that the next delimiter, line `j`, closes; in the concurrent phase no more than half a
      second of it counts. A summary counts what it says. */
  lemma SpanIsWorth(log: seq<Line>, k: nat, j: nat)
    requires k < j < |log| && log[k].Header? && log[k].path.Some?
    requires (log[j].Timed? || log[j].Header? || log[j].Phase?)
    requires forall i :: k < i < j ==> !(log[i].Timed? || log[i].Header? || log[i].Phase?)
    ensures var span := log[j].ts - log[k].ts;
            Worth(log, k) == if log[k].concurrent && span > 500 then 500 else span
  {
    EndSkips(log, k + 1, j);
  }

  /** The last span ends with the last timestamp of the log. */
  lemma LastSpanIsWorth(log: seq<Line>, k: nat, j: nat)
    requires k <= j < |log| && log[k].Header? && log[k].path.Some?
    requires forall i :: k < i < |log| ==> !(log[i].Timed? || log[i].Header? || log[i].Phase?)
    requires !log[j].Unstamped? && forall i :: j < i < |log| ==> log[i].Unstamped?
    ensures var span := log[j].ts - log[k].ts;
            Worth(log, k) == if log[k].concurrent && span > 500 then 500 else span
  {
    EndSkips(log, k + 1, |log|);
    LastStampIs(log, j);
  }

  lemma {:induction false} LastStampIs(log: seq<Line>, j: nat)
    requires j < |log| && !log[j].Unstamped? && forall i :: j < i < |log| ==> log[i].Unstamped?
    ensures LastStamp(log) == log[j].ts
  {
    if j < |log| - 1 {
      LastStampIs(log[..|log| - 1], j);
    }
  }
}
