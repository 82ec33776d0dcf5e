/** The filter for the live output of a child process, `createLiveOutputFilter` in
    scripts/runner.node.ts.

    A text is a sequence of symbols. An ANSI escape is one symbol. */
module OutputFilter {
  import Lists

  datatype Symbol = Escape(code: string) | Char(c: char)

  type Text = seq<Symbol>

  datatype Mode = Mode(github: bool, buildkite: bool)

  const CR := Char('\r')
  const LF := Char('\n')

  predicate IsEol(x: Symbol) {
    x == CR || x == LF
  }

  function Chars(s: string): (t: Text)
    ensures |t| == |s| && forall i :: 0 <= i < |s| ==> t[i] == Char(s[i])
  {
    seq(|s|, i requires 0 <= i < |s| => Char(s[i]))
  }

  // ---------- the patterns ----------

  function SkipEscapes(t: Text): Text {
    if t != [] && t[0].Escape? then SkipEscapes(t[1..]) else t
  }

  function StripAnsi(t: Text): Text {
    if t == [] then [] else (if t[0].Escape? then [] else [t[0]]) + StripAnsi(t[1..])
  }

  /** A line with this text is a workflow command that the mode drops. */
  predicate IsCommand(m: Mode, t: Text) {
    var v := SkipEscapes(t);
    if m.github then Chars("::group::") <= v || Chars("::endgroup::") <= v else Chars("::") <= v
  }

  predicate StartsWithMarker(t: Text) {
    Chars("--- ") <= t || Chars("+++ ") <= t || Chars("~~~ ") <= t || Chars("^^^ ") <= t
  }

  predicate ProperPrefix(v: Text, marker: Text) {
    |v| < |marker| && v <= marker
  }

  /** `t` is an incomplete line: what follows may still make it a command or a marker. */
  predicate HoldBack(m: Mode, t: Text) {
    var v := StripAnsi(t);
    || Chars("::") <= v
    || ProperPrefix(v, Chars("::"))
    || (m.buildkite && (|| ProperPrefix(v, Chars("--- ")) || ProperPrefix(v, Chars("+++ "))
                        || ProperPrefix(v, Chars("~~~ ")) || ProperPrefix(v, Chars("^^^ "))))
  }

  predicate HasEol(t: Text) {
    t != [] && (IsEol(t[0]) || HasEol(t[1..]))
  }

  /** The length of the first line, with the \r\n, \r or \n that ends it. */
  function LineLength(t: Text): (n: nat)
    ensures n <= |t| && (t != [] ==> n > 0)
  {
    if t == [] then 0
    else if t[0] == CR then (if |t| > 1 && t[1] == LF then 2 else 1)
    else if t[0] == LF then 1
    else 1 + LineLength(t[1..])
  }

  /** `text.replace(commands, "")`: the pattern can match where a line starts and needs the end of the line. */
  function ReplaceCommands(m: Mode, t: Text, lineStart: bool): Text
    decreases |t|
  {
    if t == [] then []
    else if lineStart && IsCommand(m, t) && HasEol(t) then ReplaceCommands(m, t[LineLength(t)..], true)
    else [t[0]] + ReplaceCommands(m, t[1..], IsEol(t[0]))
  }

  /** `text.replace(groupMarkers, " ")`. */
  function ReplaceMarkers(t: Text, lineStart: bool): Text
    decreases |t|
  {
    if t == [] then []
    else if lineStart && StartsWithMarker(t) then [Char(' ')] + ReplaceMarkers(t[4..], false)
    else [t[0]] + ReplaceMarkers(t[1..], IsEol(t[0]))
  }

  /** `if (buildkite) text = text.replace(groupMarkers, " ")`. */
  function Mark(m: Mode, t: Text): Text {
    if m.buildkite then ReplaceMarkers(t, true) else t
  }

  function Replace(m: Mode, t: Text): Text {
    Mark(m, ReplaceCommands(m, t, true))
  }

  /** `text.lastIndexOf(x, from)`: a negative `from` counts as 0. */
  function LastIndexOf(t: Text, x: Symbol, from: int): (k: int)
    ensures -1 <= k < |t|
    ensures k >= 0 ==> t[k] == x && (k <= from || k == 0)
    ensures forall i :: k < i < |t| && i <= from ==> t[i] != x
    decreases if from < 0 then 0 else from
  {
    if t == [] then -1
    else if from >= |t| then LastIndexOf(t, x, |t| - 1)
    else if from <= 0 then (if t[0] == x then 0 else -1)
    else if t[from] == x then from
    else LastIndexOf(t, x, from - 1)
  }

  // ---------- the filter ----------

  datatype State = State(pending: Text, atLineStart: bool)

  const START := State([], true)

  predicate EndsWithCR(t: Text) {
    t != [] && t[|t| - 1] == CR
  }

  function LastLineStart(t: Text): (k: nat)
    ensures k <= |t|
  {
    var searchEnd := if EndsWithCR(t) then |t| - 2 else |t| - 1;
    var (lf, cr) := (LastIndexOf(t, LF, searchEnd), LastIndexOf(t, CR, searchEnd));
    (if lf < cr then cr else lf) + 1
  }

  /** What is written, and what is held back, when `chunk` arrives. */
  function Step(m: Mode, st: State, chunk: Text): (State, Text) {
    var text := st.pending + chunk;
    var start := LastLineStart(text);
    var lastLine := text[start..];
    if lastLine != [] && (start > 0 || st.atLineStart) && HoldBack(m, lastLine) then
      (State(lastLine, true), Written(m, text[..start], st.atLineStart))
    else
      (State([], if text == [] then st.atLineStart else EndsWithCR(text) || start == |text|),
       Written(m, text, st.atLineStart))
  }

  /** Replaces in `text`, but not in a first line whose beginning has been written before. */
  function Written(m: Mode, text: Text, startsLine: bool): Text {
    if startsLine then Replace(m, text)
    else text[..LineLength(text)] + Replace(m, text[LineLength(text)..])
  }

  /** What `end` writes. */
  function Rest(m: Mode, st: State): Text {
    if IsCommand(m, st.pending) && !HasEol(if EndsWithCR(st.pending) then st.pending[..|st.pending| - 1] else st.pending)
    then [] else st.pending
  }

  class LiveOutputFilter {
    const mode: Mode
    var pending: Text
    var atLineStart: bool

    constructor (mode: Mode)
      ensures this.mode == mode && State(pending, atLineStart) == START
    {
      this.mode := mode;
      pending, atLineStart := [], true;
    }

    method Filter(chunk: Text) returns (written: Text)
      modifies this
      ensures (State(pending, atLineStart), written) == Step(mode, old(State(pending, atLineStart)), chunk)
    {
      var text := pending + chunk;
      var startsLine := atLineStart;
      var endsWithCR := EndsWithCR(text);
      var lastLineStart := LastLineStart(text);
      var lastLine := text[lastLineStart..];
      if lastLine != [] && (lastLineStart > 0 || startsLine) && HoldBack(mode, lastLine) {
        pending := lastLine;
        text := text[..lastLineStart];
        atLineStart := true;
      } else {
        pending := [];
        if text != [] {
          atLineStart := endsWithCR || lastLineStart == |text|;
        }
      }
      var head := [];
      if !startsLine {
        var split := LineLength(text);
        head, text := text[..split], text[split..];
      }
      text := ReplaceCommands(mode, text, true);
      if mode.buildkite {
        text := ReplaceMarkers(text, true);
      }
      written := head + text;
      assert startsLine ==> written == text;
    }

    method End() returns (written: Text)
      modifies this
      ensures written == Rest(mode, old(State(pending, atLineStart)))
      ensures State(pending, atLineStart) == START
    {
      var text := pending;
      pending, atLineStart := [], true;
      var line := if EndsWithCR(text) then text[..|text| - 1] else text;
      if IsCommand(mode, text) && !HasEol(line) {
        written := [];
      } else {
        written := text;
      }
    }
  }

  /** Everything that is written for `chunks`, before `end`, and the state they leave. */
  function Run(m: Mode, chunks: seq<Text>): (State, Text) {
    if chunks == [] then (START, []) else
      var (st, before) := Run(m, chunks[..|chunks| - 1]);
      var (st', more) := Step(m, st, chunks[|chunks| - 1]);
      (st', before + more)
  }

  function Whole(chunks: seq<Text>): Text {
    if chunks == [] then [] else Whole(chunks[..|chunks| - 1]) + chunks[|chunks| - 1]
  }

  // ---------- the reference ----------

  /** What becomes of one line: a command goes, a group marker becomes a space. */
  function OneLine(m: Mode, line: Text): Text {
    if IsCommand(m, line) then []
    else if m.buildkite && StartsWithMarker(line) then [Char(' ')] + line[4..]
    else line
  }

  /** What becomes of a text that is known as a whole. */
  function Reference(m: Mode, t: Text): Text
    decreases |t|
  {
    if t == [] then [] else OneLine(m, t[..LineLength(t)]) + Reference(m, t[LineLength(t)..])
  }

  // ---------- lines ----------

  ghost predicate NoEol(t: Text) {
    forall i :: 0 <= i < |t| ==> !IsEol(t[i])
  }

  /** `line` is a whole line with its end. */
  ghost predicate Closed(line: Text) {
    line != [] && IsEol(line[|line| - 1])
  }

  lemma {:induction false} HasEolIffIndex(t: Text)
    ensures HasEol(t) <==> !NoEol(t)
  {
    if t != [] {
      HasEolIffIndex(t[1..]);
      assert forall i :: 1 <= i < |t| ==> t[i] == t[1..][i - 1];
    }
  }

  /** Where the first line of `t` ends. */
  lemma {:induction false} FirstLine(t: Text) returns (body: nat)
    requires t != []
    ensures body <= LineLength(t) <= body + 2 && NoEol(t[..body])
    ensures HasEol(t) ==> body < |t| && IsEol(t[body]) && body < LineLength(t) && IsEol(t[LineLength(t) - 1])
    ensures HasEol(t) ==> LineLength(t) == body + if t[body] == CR && body + 1 < |t| && t[body + 1] == LF then 2 else 1
    ensures !HasEol(t) ==> body == LineLength(t) == |t|
  {
    if IsEol(t[0]) {
      body := 0;
    } else if |t| == 1 {
      body := 1;
      HasEolIffIndex(t);
    } else {
      var b := FirstLine(t[1..]);
      body := b + 1;
      forall i | 0 <= i < body ensures !IsEol(t[i]) {
        if i > 0 { assert t[i] == t[1..][..b][i - 1]; }
      }
    }
  }

  lemma {:induction false} BodyLength(b: Text, t: Text)
    requires NoEol(b)
    ensures LineLength(b + t) == |b| + LineLength(t)
    ensures HasEol(b + t) == HasEol(t)
  {
    if b == [] {
      assert b + t == t;
    } else {
      assert (b + t)[1..] == b[1..] + t;
      BodyLength(b[1..], t);
    }
  }

  lemma PrefixStaysInLine(v: Text, t: Text)
    requires NoEol(v)
    ensures v <= t <==> v <= t[..LineLength(t)]
  {
    if v <= t && t != [] {
      var _ := FirstLine(t);
      assert t[..LineLength(t)][..|v|] == t[..|v|];
    }
  }

  lemma {:induction false} CommandIsInLine(m: Mode, t: Text)
    ensures IsCommand(m, t) == IsCommand(m, t[..LineLength(t)])
    decreases |t|
  {
    var line := t[..LineLength(t)];
    if t != [] && t[0].Escape? {
      CommandIsInLine(m, t[1..]);
      assert line[1..] == t[1..][..LineLength(t[1..])];
    } else {
      PrefixStaysInLine(Chars("::"), t);
      PrefixStaysInLine(Chars("::group::"), t);
      PrefixStaysInLine(Chars("::endgroup::"), t);
    }
  }

  // ---------- the patterns work line by line ----------

  lemma {:induction false} CommandsSkipBody(m: Mode, b: Text, u: Text)
    requires NoEol(b)
    ensures ReplaceCommands(m, b + u, false) == b + ReplaceCommands(m, u, false)
  {
    if b == [] {
      assert b + u == u;
    } else {
      assert (b + u)[1..] == b[1..] + u;
      CommandsSkipBody(m, b[1..], u);
    }
  }

  lemma {:induction false} MarkersSkipBody(b: Text, u: Text)
    requires NoEol(b)
    ensures ReplaceMarkers(b + u, false) == b + ReplaceMarkers(u, false)
  {
    if b == [] {
      assert b + u == u;
    } else {
      assert (b + u)[1..] == b[1..] + u;
      MarkersSkipBody(b[1..], u);
    }
  }

  ghost predicate AllEol(t: Text) {
    forall i :: 0 <= i < |t| ==> IsEol(t[i])
  }

  lemma {:induction false} CommandsSkipEols(m: Mode, e: Text, u: Text, lineStart: bool)
    requires AllEol(e) && (e == [] ==> lineStart)
    ensures ReplaceCommands(m, e + u, lineStart) == e + ReplaceCommands(m, u, true)
  {
    if e == [] {
      assert e + u == u;
    } else {
      assert (e + u)[1..] == e[1..] + u;
      assert SkipEscapes(e + u)[0] == e[0];
      CommandsSkipEols(m, e[1..], u, true);
    }
  }

  lemma FirstApart(t: Text, u: Text)
    requires t != []
    ensures t + u == [t[0]] + (t[1..] + u)
  {}

  lemma MarkersSkipEol(e: Symbol, u: Text, lineStart: bool)
    requires IsEol(e)
    ensures ReplaceMarkers([e] + u, lineStart) == [e] + ReplaceMarkers(u, true)
  {
    assert ([e] + u)[0] == e && ([e] + u)[1..] == u;
  }

  lemma {:induction false} MarkersSkipEols(e: Text, u: Text, lineStart: bool)
    requires AllEol(e) && (e == [] ==> lineStart)
    ensures ReplaceMarkers(e + u, lineStart) == e + ReplaceMarkers(u, true)
  {
    if e == [] {
      assert e + u == u;
    } else {
      FirstApart(e, u);
      MarkersSkipEol(e[0], e[1..] + u, lineStart);
      MarkersSkipEols(e[1..], u, true);
      FirstApart(e, ReplaceMarkers(u, true));
    }
  }

  /** The first line of `t` as its text `b` and its end `e`, and what follows. */
  lemma SplitLine(t: Text) returns (b: Text, e: Text, rest: Text)
    requires t != []
    ensures t == b + e + rest && t[..LineLength(t)] == b + e && rest == t[LineLength(t)..]
    ensures NoEol(b) && AllEol(e) && b + e != []
    ensures HasEol(t) <==> e != []
    ensures e == [] ==> rest == []
  {
    var body := FirstLine(t);
    b, e, rest := t[..body], t[body..LineLength(t)], t[LineLength(t)..];
  }

  lemma CommandsStep(m: Mode, x: Symbol, t: Text)
    requires !(IsCommand(m, [x] + t) && HasEol([x] + t))
    ensures ReplaceCommands(m, [x] + t, true) == [x] + ReplaceCommands(m, t, IsEol(x))
  {
    assert ([x] + t)[1..] == t;
  }

  lemma CommandsAfter(m: Mode, b: Text, e: Text, rest: Text)
    requires NoEol(b) && AllEol(e) && (e == [] ==> rest == [])
    ensures ReplaceCommands(m, b + (e + rest), false) == b + (e + ReplaceCommands(m, rest, true))
  {
    CommandsSkipBody(m, b, e + rest);
    if e != [] {
      CommandsSkipEols(m, e, rest, false);
    } else {
      assert e + rest == [];
    }
  }

  lemma CommandsKeepLine(m: Mode, b: Text, e: Text, rest: Text)
    requires NoEol(b) && AllEol(e) && b + e != [] && (e == [] ==> rest == [])
    requires !(IsCommand(m, b + (e + rest)) && HasEol(b + (e + rest)))
    ensures ReplaceCommands(m, b + (e + rest), true) == b + (e + ReplaceCommands(m, rest, true))
  {
    if b == [] {
      assert b + (e + rest) == e + rest;
      CommandsSkipEols(m, e, rest, true);
    } else {
      FirstApart(b, e + rest);
      CommandsStep(m, b[0], b[1..] + (e + rest));
      CommandsAfter(m, b[1..], e, rest);
      FirstApart(b, e + ReplaceCommands(m, rest, true));
    }
  }

  /** Line by line, the first replacement drops the complete command lines. */
  lemma CommandsByLine(m: Mode, t: Text)
    requires t != []
    ensures var (line, rest) := (t[..LineLength(t)], t[LineLength(t)..]);
            ReplaceCommands(m, t, true) ==
            (if IsCommand(m, line) && HasEol(t) then [] else line) + ReplaceCommands(m, rest, true)
  {
    CommandIsInLine(m, t);
    if !(IsCommand(m, t) && HasEol(t)) {
      var b, e, rest := SplitLine(t);
      Lists.Regroup(b, e, rest);
      CommandsKeepLine(m, b, e, rest);
      Lists.Regroup(b, e, ReplaceCommands(m, rest, true));
    }
  }

  /** A line whose group marker has become a space. */
  function Defused(line: Text): Text {
    if StartsWithMarker(line) then [Char(' ')] + line[4..] else line
  }

  lemma MarkersAfter(b: Text, e: Text, rest: Text)
    requires NoEol(b) && AllEol(e) && (e == [] ==> rest == [])
    ensures ReplaceMarkers(b + e + rest, false) == b + e + ReplaceMarkers(rest, true)
  {
    assert b + e + rest == b + (e + rest);
    MarkersSkipBody(b, e + rest);
    if e != [] {
      MarkersSkipEols(e, rest, false);
    } else {
      assert e + rest == [];
    }
    assert b + (e + ReplaceMarkers(rest, true)) == b + e + ReplaceMarkers(rest, true);
  }

  lemma MarkerIsInBody(b: Text, e: Text, rest: Text)
    requires AllEol(e) && (e == [] ==> rest == [])
    ensures StartsWithMarker(b + e + rest) <==> StartsWithMarker(b)
    ensures StartsWithMarker(b + e) <==> StartsWithMarker(b)
  {
    var t := b + e + rest;
    if |b| >= 4 {
      assert t[..4] == b[..4] == (b + e)[..4];
    } else if e != [] {
      assert t[|b|] == e[0] == (b + e)[|b|];
    }
  }

  lemma MarkersOfMarkedLine(b: Text, e: Text, rest: Text)
    requires NoEol(b) && AllEol(e) && (e == [] ==> rest == []) && StartsWithMarker(b)
    ensures ReplaceMarkers(b + e + rest, true) == [Char(' ')] + (b + e)[4..] + ReplaceMarkers(rest, true)
  {
    MarkerIsInBody(b, e, rest);
    MarkersAfter(b[4..], e, rest);
    assert (b + e + rest)[4..] == b[4..] + e + rest;
    assert (b + e)[4..] == b[4..] + e;
  }

  lemma MarkersOfPlainLine(b: Text, e: Text, rest: Text)
    requires NoEol(b) && AllEol(e) && (e == [] ==> rest == []) && b != [] && !StartsWithMarker(b)
    ensures ReplaceMarkers(b + e + rest, true) == Defused(b + e) + ReplaceMarkers(rest, true)
  {
    MarkerIsInBody(b, e, rest);
    MarkersAfter(b[1..], e, rest);
    PrependFirst(b, e, rest);
    PlainStep(b[0], b[1..] + e + rest);
    PrependFirst(b, e, ReplaceMarkers(rest, true));
  }

  lemma PlainStep(x: Symbol, t: Text)
    requires !StartsWithMarker([x] + t)
    ensures ReplaceMarkers([x] + t, true) == [x] + ReplaceMarkers(t, IsEol(x))
  {
    assert ([x] + t)[1..] == t;
  }

  lemma PrependFirst(b: Text, e: Text, r: Text)
    requires b != []
    ensures [b[0]] + (b[1..] + e + r) == b + e + r
  {}

  lemma MarkersOfEmptyLine(e: Text, rest: Text)
    requires AllEol(e) && e != []
    ensures ReplaceMarkers(e + rest, true) == Defused(e) + ReplaceMarkers(rest, true)
  {
    MarkersSkipEols(e, rest, true);
    EolIsNoMarker(e);
  }

  lemma EolIsNoMarker(e: Text)
    requires e != [] && IsEol(e[0])
    ensures !StartsWithMarker(e)
  {
    assert e[0] != Chars("--- ")[0] && e[0] != Chars("+++ ")[0] && e[0] != Chars("~~~ ")[0] && e[0] != Chars("^^^ ")[0];
  }

  lemma MarkersOfLine(b: Text, e: Text, rest: Text)
    requires NoEol(b) && AllEol(e) && b + e != [] && (e == [] ==> rest == [])
    ensures ReplaceMarkers(b + e + rest, true) == Defused(b + e) + ReplaceMarkers(rest, true)
  {
    if b == [] {
      assert b + e == e;
      MarkersOfEmptyLine(e, rest);
    } else if StartsWithMarker(b) {
      MarkerIsInBody(b, e, rest);
      MarkersOfMarkedLine(b, e, rest);
    } else {
      MarkersOfPlainLine(b, e, rest);
    }
  }

  /** The second replacement defuses the line at the front. */
  lemma MarkersByLine(line: Text, rest: Text)
    requires line != [] && LineLength(line) == |line| && (HasEol(line) || rest == [])
    ensures ReplaceMarkers(line + rest, true) == Defused(line) + ReplaceMarkers(rest, true)
  {
    var b, e, nothing := SplitLine(line);
    assert line == b + e;
    MarkersOfLine(b, e, rest);
  }

  // ---------- the replacements agree with the reference ----------

  /** The command without a line end that `t` ends with, if it does. The replacements keep it and the
      reference drops it. */
  function OpenCommand(m: Mode, t: Text): Text
    decreases |t|
  {
    if t == [] then []
    else if HasEol(t) then OpenCommand(m, t[LineLength(t)..])
    else if IsCommand(m, t) then t
    else []
  }

  lemma CommandIsNoMarker(m: Mode, t: Text)
    requires IsCommand(m, t)
    ensures !StartsWithMarker(t)
  {
    assert t != [];
    assert t[0] == Char(':') || t[0].Escape?;
  }

  lemma LineOfLine(t: Text)
    requires t != []
    ensures var line := t[..LineLength(t)];
            LineLength(line) == |line| && HasEol(line) == HasEol(t) && line != []
  {
    var b, e, rest := SplitLine(t);
    BodyLength(b, e);
    BodyLength(b, e + rest);
    assert t == b + (e + rest);
    HasEolIffIndex(e);
  }

  lemma MarkLine(m: Mode, line: Text, more: Text)
    requires line != [] && LineLength(line) == |line| && (HasEol(line) || more == [])
    ensures Mark(m, line + more) == (if m.buildkite then Defused(line) else line) + Mark(m, more)
  {
    if m.buildkite {
      MarkersByLine(line, more);
    }
  }

  lemma MarkKept(m: Mode, line: Text, command: bool, more: Text)
    requires line != [] && LineLength(line) == |line| && HasEol(line)
    requires command == IsCommand(m, line)
    ensures Mark(m, (if command then [] else line) + more) == OneLine(m, line) + Mark(m, more)
  {
    if command {
      assert [] + more == more && [] + Mark(m, more) == Mark(m, more);
    } else {
      MarkLine(m, line, more);
    }
  }

  lemma ReplaceLine(m: Mode, t: Text)
    requires t != [] && HasEol(t)
    ensures Replace(m, t) == OneLine(m, t[..LineLength(t)]) + Replace(m, t[LineLength(t)..])
  {
    var line, rest := t[..LineLength(t)], t[LineLength(t)..];
    CommandsByLine(m, t);
    LineOfLine(t);
    MarkKept(m, line, IsCommand(m, line), ReplaceCommands(m, rest, true));
  }

  lemma ReplaceLast(m: Mode, t: Text)
    requires t != [] && !HasEol(t)
    ensures Replace(m, t) == if IsCommand(m, t) then t else OneLine(m, t)
  {
    var b, e, rest := SplitLine(t);
    assert t[..LineLength(t)] == t && rest == [];
    CommandsByLine(m, t);
    Lists.Regroup(t, [], []);
    Lists.Regroup(Defused(t), [], []);
    MarkLine(m, t, []);
    if IsCommand(m, t) {
      CommandIsNoMarker(m, t);
    }
  }

  lemma {:induction false} ReplaceKeepsTail(m: Mode, t: Text)
    ensures Replace(m, t) == Reference(m, t) + OpenCommand(m, t)
    decreases |t|
  {
    if t == [] {
    } else if HasEol(t) {
      var line, rest := t[..LineLength(t)], t[LineLength(t)..];
      ReplaceLine(m, t);
      ReplaceKeepsTail(m, rest);
      Lists.Regroup(OneLine(m, line), Reference(m, rest), OpenCommand(m, rest));
    } else {
      var b, e, rest := SplitLine(t);
      assert t[..LineLength(t)] == t && rest == [];
      ReplaceLast(m, t);
      Lists.Regroup(OneLine(m, t), [], []);
    }
  }

  /** The replacements on a whole text agree with the reference exactly if no open command is at its end. */
  lemma ReplaceIsReference(m: Mode, t: Text)
    ensures Replace(m, t) == Reference(m, t) <==> OpenCommand(m, t) == []
  {
    ReplaceKeepsTail(m, t);
    Lists.Regroup(Reference(m, t), [], []);
  }

  // ---------- the reference can be cut where a line starts ----------

  /** A cut between `t` and `u` does not fall inside a \r\n. */
  ghost predicate NoSplit(t: Text, u: Text) {
    EndsWithCR(t) && u != [] ==> u[0] != LF
  }

  ghost predicate EndsLine(t: Text) {
    t == [] || IsEol(t[|t| - 1])
  }

  lemma {:induction false} FirstLineOfAppend(t: Text, u: Text)
    requires t != [] && EndsLine(t) && NoSplit(t, u)
    ensures LineLength(t + u) == LineLength(t) && HasEol(t)
  {
    assert |t| > 1 ==> (t + u)[1..] == t[1..] + u;
    if |t| > 1 && !IsEol(t[0]) {
      FirstLineOfAppend(t[1..], u);
    } else if |t| == 1 && u != [] {
      assert (t + u)[1] == u[0];
    }
  }

  lemma ReferenceStep(m: Mode, line: Text, rest: Text)
    requires line != [] && LineLength(line + rest) == |line|
    ensures Reference(m, line + rest) == OneLine(m, line) + Reference(m, rest)
  {
    assert (line + rest)[..|line|] == line && (line + rest)[|line|..] == rest;
  }

  lemma {:induction false} ReferenceCut(m: Mode, t: Text, u: Text)
    requires EndsLine(t) && NoSplit(t, u)
    ensures Reference(m, t + u) == Reference(m, t) + Reference(m, u)
    decreases |t|, 1
  {
    if t == [] {
      assert t + u == u;
    } else {
      CutAfterLine(m, t[..LineLength(t)], t[LineLength(t)..], t, u);
    }
  }

  lemma {:induction false} CutAfterLine(m: Mode, line: Text, rest: Text, t: Text, u: Text)
    requires t == line + rest && line != [] && LineLength(t) == |line|
    requires EndsLine(t) && NoSplit(t, u)
    ensures Reference(m, t + u) == Reference(m, t) + Reference(m, u)
    decreases |t|, 0
  {
    FirstLineOfAppend(t, u);
    Lists.Regroup(line, rest, u);
    ReferenceStep(m, line, rest);
    ReferenceStep(m, line, rest + u);
    ReferenceCut(m, rest, u);
    Lists.Regroup(OneLine(m, line), Reference(m, rest), Reference(m, u));
  }

  // ---------- a line whose start settles what it is ----------

  /** Whatever follows, `p` is not the start of a command or of a group marker. */
  ghost predicate Firm(m: Mode, p: Text) {
    p != [] && !HoldBack(m, p)
  }

  lemma {:induction false} StripAppend(p: Text, q: Text)
    ensures StripAnsi(p + q) == StripAnsi(p) + StripAnsi(q)
  {
    if p == [] {
      assert p + q == q;
    } else {
      assert (p + q)[1..] == p[1..] + q;
      StripAppend(p[1..], q);
    }
  }

  lemma FirmExtends(m: Mode, p: Text, q: Text)
    requires Firm(m, p)
    ensures Firm(m, p + q)
  {
    StripAppend(p, q);
    var v, w := StripAnsi(p), StripAnsi(p + q);
    assert w[..|v|] == v;
    assert |v| < 2 && Chars("::") <= w ==> ProperPrefix(v, Chars("::"));
  }

  lemma {:induction false} StripSkips(t: Text)
    ensures StripAnsi(t) == StripAnsi(SkipEscapes(t))
  {
    if t != [] && t[0].Escape? { StripSkips(t[1..]); }
  }

  lemma {:induction false} StripKeepsChars(v: Text, t: Text)
    requires v <= t && forall i :: 0 <= i < |v| ==> v[i].Char?
    ensures v <= StripAnsi(t)
  {
    if v != [] {
      StripKeepsChars(v[1..], t[1..]);
    }
  }

  lemma CommandIsHeldBack(m: Mode, t: Text)
    requires IsCommand(m, t)
    ensures HoldBack(m, t)
  {
    var v := SkipEscapes(t);
    assert Chars("::") <= v by {
      if m.github {
        assert v[0] == Char(':') && v[1] == Char(':');
      }
    }
    StripKeepsChars(Chars("::"), v);
    StripSkips(t);
  }

  lemma {:induction false} StripPlain(t: Text)
    requires forall i :: 0 <= i < |t| ==> t[i].Char?
    ensures StripAnsi(t) == t
  {
    if t != [] { StripPlain(t[1..]); }
  }

  lemma FirmIsNotPartOf(m: Mode, p: Text, q: Text, marker: Text)
    requires Firm(m, p) && marker <= p + q && (forall i :: 0 <= i < |marker| ==> marker[i].Char?)
    requires ProperPrefix(StripAnsi(p), marker) ==> HoldBack(m, p)
    ensures marker <= p
  {
    if |p| < |marker| {
      assert p == marker[..|p|];
      StripPlain(p);
    } else {
      assert p[..|marker|] == (p + q)[..|marker|];
    }
  }

  lemma FirmMarker(m: Mode, p: Text, q: Text)
    requires Firm(m, p) && m.buildkite
    ensures StartsWithMarker(p + q) == StartsWithMarker(p)
  {
    if StartsWithMarker(p + q) {
      if Chars("--- ") <= p + q { FirmIsNotPartOf(m, p, q, Chars("--- ")); }
      if Chars("+++ ") <= p + q { FirmIsNotPartOf(m, p, q, Chars("+++ ")); }
      if Chars("~~~ ") <= p + q { FirmIsNotPartOf(m, p, q, Chars("~~~ ")); }
      if Chars("^^^ ") <= p + q { FirmIsNotPartOf(m, p, q, Chars("^^^ ")); }
    }
  }

  lemma FirmLine(m: Mode, p: Text, q: Text)
    requires Firm(m, p)
    ensures OneLine(m, p + q) == OneLine(m, p) + q
  {
    FirmExtends(m, p, q);
    if IsCommand(m, p) { CommandIsHeldBack(m, p); }
    if IsCommand(m, p + q) { CommandIsHeldBack(m, p + q); }
    if m.buildkite {
      FirmMarker(m, p, q);
      assert StartsWithMarker(p) ==> (p + q)[4..] == p[4..] + q;
    }
  }

  // ---------- where the last line starts ----------

  /** The line that starts at `k` is not finished: at most a \r ends it. */
  ghost predicate OpenAt(t: Text, k: nat) {
    && k <= |t|
    && (k == 0 || IsEol(t[k - 1]))
    && (forall i :: k <= i < |t| && IsEol(t[i]) ==> i == |t| - 1 && t[i] == CR)
  }

  lemma LastLineIsOpen(t: Text)
    ensures OpenAt(t, LastLineStart(t))
    ensures 0 < LastLineStart(t) == |t| && t != [CR] ==> t[|t| - 1] == LF
  {}

  lemma {:induction false} FirstLineBeforeOpen(t: Text, k: nat)
    requires OpenAt(t, k) && t != []
    ensures LineLength(t) <= if k == 0 then |t| else k
    ensures k == 0 ==> LineLength(t) == |t|
    decreases |t|
  {
    if |t| > 1 && !IsEol(t[0]) {
      FirstLineBeforeOpen(t[1..], if k == 0 then 0 else k - 1);
    }
  }

  lemma {:induction false} NothingOpen(m: Mode, t: Text, k: nat)
    requires OpenAt(t, k) && (t[k..] == [] || !IsCommand(m, t[k..]))
    ensures OpenCommand(m, t) == []
    decreases |t|
  {
    if t != [] {
      var n := LineLength(t);
      FirstLineBeforeOpen(t, k);
      if HasEol(t) {
        if k == 0 {
          assert t[n..] == [];
        } else {
          assert t[n..][k - n..] == t[k..];
          NothingOpen(m, t[n..], k - n);
        }
      } else {
        HasEolIffIndex(t);
        assert k == 0 && t[k..] == t;
      }
    }
  }

  // ---------- one chunk ----------

  /** The input so far is whole lines `done`, the start `line` of a line that was written, and the
      pending text. */
  ghost predicate Shape(m: Mode, done: Text, line: Text, st: State) {
    && EndsLine(done) && NoSplit(done, line + st.pending)
    && (EndsWithCR(done) ==> line + st.pending != [])
    && OpenAt(line, 0) && (line == [] || Firm(m, line))
    && OpenAt(st.pending, 0)
    && (st.pending != [] ==> line == [] && HoldBack(m, st.pending))
    && (st.atLineStart <==> line == [] || EndsWithCR(line))
  }

  /** `out` is what the reference makes of all but the pending text. */
  ghost predicate Follows(m: Mode, x: Text, done: Text, line: Text, st: State, out: Text) {
    Shape(m, done, line, st) && x == done + line + st.pending && out == Reference(m, done + line)
  }

  lemma LengthWithCRLF(p: Text, t: Text)
    requires OpenAt(p, 0) && EndsWithCR(p)
    ensures LineLength(p + [LF] + t) == |p| + 1 && LineLength(p) == |p|
  {
    var body := p[..|p| - 1];
    assert p == body + [CR] && p + [LF] + t == body + ([CR, LF] + t);
    BodyLength(body, [CR, LF] + t);
    BodyLength(body, [CR]);
  }

  lemma ReferenceOfLF(m: Mode, t: Text)
    ensures Reference(m, [LF] + t) == [LF] + Reference(m, t)
  {
    ReferenceStep(m, [LF], t);
    assert SkipEscapes([LF]) == [LF];
  }

  lemma ReferenceOfLine(m: Mode, line: Text)
    requires line != [] && LineLength(line) == |line|
    ensures Reference(m, line) == OneLine(m, line)
  {
    assert line + [] == line;
    ReferenceStep(m, line, []);
  }

  lemma CutInsideCRLF(m: Mode, p: Text, t: Text)
    requires Firm(m, p) && OpenAt(p, 0) && EndsWithCR(p)
    ensures Reference(m, p + ([LF] + t)) == Reference(m, p) + Reference(m, [LF] + t)
  {
    LengthWithCRLF(p, t);
    ReferenceStep(m, p + [LF], t);
    ReferenceOfLine(m, p);
    ReferenceOfLF(m, t);
    FirmLine(m, p, [LF]);
    Lists.Regroup(p, [LF], t);
    Lists.Regroup(OneLine(m, p), [LF], Reference(m, t));
  }

  /** After a \r the next chunk starts a line, even if it starts with \n. */
  lemma CutAfterCR(m: Mode, p: Text, t: Text)
    requires Firm(m, p) && OpenAt(p, 0) && EndsWithCR(p)
    ensures Reference(m, p + t) == Reference(m, p) + Reference(m, t)
  {
    if t != [] && t[0] == LF {
      assert t == [LF] + t[1..];
      CutInsideCRLF(m, p, t[1..]);
    } else {
      ReferenceCut(m, p, t);
    }
  }

  lemma CutInLine(m: Mode, p: Text, t: Text)
    requires Firm(m, p) && NoEol(p)
    ensures Reference(m, p + t) == Reference(m, p) + (t[..LineLength(t)] + Reference(m, t[LineLength(t)..]))
  {
    var head, rest := t[..LineLength(t)], t[LineLength(t)..];
    assert t == head + rest && p + [] == p;
    BodyLength(p, t);
    BodyLength(p, []);
    Lists.Regroup(p, head, rest);
    ReferenceStep(m, p + head, rest);
    ReferenceOfLine(m, p);
    FirmLine(m, p, head);
    Lists.Regroup(OneLine(m, p), head, Reference(m, rest));
  }

  /** What the reference makes of `t` after what was written. */
  ghost function Continued(m: Mode, t: Text, startsLine: bool): Text {
    if startsLine then Reference(m, t) else t[..LineLength(t)] + Reference(m, t[LineLength(t)..])
  }

  lemma LineContinues(m: Mode, line: Text, t: Text)
    requires Firm(m, line) && OpenAt(line, 0)
    ensures Reference(m, line + t) == Reference(m, line) + Continued(m, t, EndsWithCR(line))
  {
    if EndsWithCR(line) {
      CutAfterCR(m, line, t);
    } else {
      CutInLine(m, line, t);
    }
  }

  lemma DoneCut(m: Mode, done: Text, line: Text, t: Text)
    requires EndsLine(done) && NoSplit(done, line) && line != []
    ensures Reference(m, done + line + t) == Reference(m, done) + Reference(m, line + t)
  {
    Lists.Regroup(done, line, t);
    assert (line + t)[0] == line[0];
    ReferenceCut(m, done, line + t);
  }

  lemma ReferenceContinues(m: Mode, done: Text, line: Text, st: State, chunk: Text, t: Text)
    requires Shape(m, done, line, st) && t <= st.pending + chunk
    ensures Reference(m, done + line + t) == Reference(m, done + line) + Continued(m, t, st.atLineStart)
  {
    if line == [] {
      assert done + line == done && line + st.pending == st.pending;
      ReferenceCut(m, done, t);
    } else {
      assert line + st.pending == line;
      DoneCut(m, done, line, t);
      ReferenceCut(m, done, line);
      LineContinues(m, line, t);
      Lists.Regroup(Reference(m, done), Reference(m, line), Continued(m, t, st.atLineStart));
    }
  }

  lemma WrittenIsContinued(m: Mode, t: Text, k: nat, startsLine: bool)
    requires OpenAt(t, k) && (t[k..] == [] || !IsCommand(m, t[k..]) || (k == 0 && !startsLine))
    ensures Written(m, t, startsLine) == Continued(m, t, startsLine)
  {
    if startsLine {
      NothingOpen(m, t, k);
      ReplaceIsReference(m, t);
    } else if t != [] {
      var n := LineLength(t);
      FirstLineBeforeOpen(t, k);
      if k == 0 {
        assert t[n..] == [];
      } else {
        assert t[n..][k - n..] == t[k..];
        NothingOpen(m, t[n..], k - n);
        ReplaceIsReference(m, t[n..]);
      }
    }
  }

  lemma OutputContinues(m: Mode, x: Text, done: Text, line: Text, st: State, out: Text, chunk: Text, t: Text, k: nat)
    requires Follows(m, x, done, line, st, out) && t <= st.pending + chunk
    requires OpenAt(t, k) && (t[k..] == [] || !HoldBack(m, t[k..]) || (k == 0 && !st.atLineStart))
    ensures out + Written(m, t, st.atLineStart) == Reference(m, done + line + t)
  {
    if t[k..] != [] && IsCommand(m, t[k..]) { CommandIsHeldBack(m, t[k..]); }
    ReferenceContinues(m, done, line, st, chunk, t);
    WrittenIsContinued(m, t, k, st.atLineStart);
  }

  lemma InputContinues(x: Text, done: Text, line: Text, st: State, chunk: Text, text: Text, k: nat)
    requires x == done + line + st.pending && text == st.pending + chunk && k <= |text|
    ensures x + chunk == done + line + text == done + line + text[..k] + text[k..]
  {
    assert text == text[..k] + text[k..];
    Lists.Regroup(done + line, st.pending, chunk);
    Lists.Regroup(done + line, text[..k], text[k..]);
  }

  lemma DoneContinues(m: Mode, done: Text, line: Text, st: State, chunk: Text, text: Text, k: nat)
    requires Shape(m, done, line, st) && text == st.pending + chunk && OpenAt(text, k)
    requires k > 0 || st.atLineStart
    ensures EndsLine(done + line + text[..k])
    ensures NoSplit(done + line + text[..k], text[k..])
    ensures EndsWithCR(done + line + text[..k]) && k == |text| > 0 ==> text[k - 1] == CR
  {
    var done' := done + line + text[..k];
    if k > 0 {
      assert done'[|done'| - 1] == text[k - 1];
    } else if line != [] {
      assert done'[|done'| - 1] == line[|line| - 1];
    } else {
      assert done' == done;
    }
  }

  lemma OpenTail(text: Text, k: nat)
    requires OpenAt(text, k)
    ensures OpenAt(text[k..], 0)
    ensures text[k..] != [] ==> EndsWithCR(text[k..]) == EndsWithCR(text)
  {
    assert forall i :: 0 <= i < |text| - k ==> text[k..][i] == text[k + i];
  }

  lemma ShapeHoldsBack(m: Mode, done: Text, line: Text, st: State, chunk: Text, text: Text, k: nat)
    requires Shape(m, done, line, st) && text == st.pending + chunk && OpenAt(text, k)
    requires text[k..] != [] && (k > 0 || st.atLineStart) && HoldBack(m, text[k..])
    ensures Shape(m, done + line + text[..k], [], State(text[k..], true))
  {
    DoneContinues(m, done, line, st, chunk, text, k);
    OpenTail(text, k);
    assert [] + text[k..] == text[k..];
  }

  lemma ShapeContinues(m: Mode, done: Text, line: Text, st: State, chunk: Text, text: Text)
    requires Shape(m, done, line, st) && text == st.pending + chunk && OpenAt(text, 0)
    requires text != [] && !st.atLineStart
    ensures Shape(m, done, line + text, State([], EndsWithCR(text)))
  {
    FirmExtends(m, line, text);
    assert line + text + [] == line + text;
    assert (line + text)[0] == line[0];
  }

  lemma ShapeMovesOn(m: Mode, done: Text, line: Text, st: State, chunk: Text, text: Text, k: nat)
    requires Shape(m, done, line, st) && text == st.pending + chunk && OpenAt(text, k)
    requires text != [] && (k > 0 || st.atLineStart) && (text[k..] == [] || !HoldBack(m, text[k..]))
    requires k == |text| ==> text[k - 1] == LF
    ensures Shape(m, done + line + text[..k], text[k..], State([], EndsWithCR(text) || k == |text|))
  {
    DoneContinues(m, done, line, st, chunk, text, k);
    OpenTail(text, k);
    NewShape(m, done + line + text[..k], text[k..], EndsWithCR(text) || k == |text|);
  }

  lemma NewShape(m: Mode, done: Text, line: Text, atLineStart: bool)
    requires EndsLine(done) && NoSplit(done, line) && (EndsWithCR(done) ==> line != [])
    requires OpenAt(line, 0) && (line == [] || Firm(m, line))
    requires atLineStart <==> line == [] || EndsWithCR(line)
    ensures Shape(m, done, line, State([], atLineStart))
  {
    assert line + [] == line;
  }

  lemma StepHoldsBack(m: Mode, x: Text, done: Text, line: Text, st: State, out: Text, chunk: Text, text: Text, k: nat)
    requires Follows(m, x, done, line, st, out) && text == st.pending + chunk && OpenAt(text, k)
    requires text[k..] != [] && (k > 0 || st.atLineStart) && HoldBack(m, text[k..])
    ensures Follows(m, x + chunk, done + line + text[..k], [], State(text[k..], true),
                    out + Written(m, text[..k], st.atLineStart))
  {
    assert OpenAt(text[..k], k) && text[..k][k..] == [];
    OutputContinues(m, x, done, line, st, out, chunk, text[..k], k);
    ShapeHoldsBack(m, done, line, st, chunk, text, k);
    InputContinues(x, done, line, st, chunk, text, k);
    NothingAppended(done + line + text[..k]);
  }

  lemma NothingAppended(t: Text)
    ensures t + [] == t
  {}

  /** Where the line starts that `Step` leaves open. `lastIndexOf` finds the \r that it should pass
      over when that \r is the whole text, with the same result. */
  lemma OpenLine(m: Mode, st: State, chunk: Text, text: Text) returns (k: nat)
    requires text == st.pending + chunk && text != []
    requires var k := LastLineStart(text);
             !(text[k..] != [] && (k > 0 || st.atLineStart) && HoldBack(m, text[k..]))
    ensures OpenAt(text, k) && (k == |text| ==> text[k - 1] == LF)
    ensures text[k..] == [] || !HoldBack(m, text[k..]) || (k == 0 && !st.atLineStart)
    ensures Step(m, st, chunk) == (State([], EndsWithCR(text) || k == |text|), Written(m, text, st.atLineStart))
  {
    LastLineIsOpen(text);
    k := if text == [CR] then 0 else LastLineStart(text);
    if text == [CR] {
      StripPlain(text);
      assert text[0..] == text;
    }
  }

  lemma StepContinues(m: Mode, x: Text, done: Text, line: Text, st: State, out: Text, chunk: Text, text: Text)
    requires Follows(m, x, done, line, st, out) && text == st.pending + chunk && text != []
    requires !st.atLineStart && OpenAt(text, 0)
    ensures Follows(m, x + chunk, done, line + text, State([], EndsWithCR(text)),
                    out + Written(m, text, st.atLineStart))
  {
    OutputContinues(m, x, done, line, st, out, chunk, text, 0);
    ShapeContinues(m, done, line, st, chunk, text);
    InputContinues(x, done, line, st, chunk, text, 0);
    Lists.Regroup(done, line, text);
    NothingAppended(done + (line + text));
  }

  lemma StepMovesOn(m: Mode, x: Text, done: Text, line: Text, st: State, out: Text, chunk: Text, text: Text, k: nat)
    requires Follows(m, x, done, line, st, out) && text == st.pending + chunk && text != []
    requires OpenAt(text, k) && (k == |text| ==> text[k - 1] == LF)
    requires (k > 0 || st.atLineStart) && (text[k..] == [] || !HoldBack(m, text[k..]))
    ensures Follows(m, x + chunk, done + line + text[..k], text[k..], State([], EndsWithCR(text) || k == |text|),
                    out + Written(m, text, st.atLineStart))
  {
    OutputContinues(m, x, done, line, st, out, chunk, text, k);
    ShapeMovesOn(m, done, line, st, chunk, text, k);
    InputContinues(x, done, line, st, chunk, text, k);
    NothingAppended(done + line + text[..k] + text[k..]);
  }

  lemma StepKeeps(m: Mode, x: Text, done: Text, line: Text, st: State, out: Text, chunk: Text)
    returns (done': Text, line': Text)
    requires Follows(m, x, done, line, st, out)
    ensures Follows(m, x + chunk, done', line', Step(m, st, chunk).0, out + Step(m, st, chunk).1)
  {
    var text := st.pending + chunk;
    var start := LastLineStart(text);
    if text[start..] != [] && (start > 0 || st.atLineStart) && HoldBack(m, text[start..]) {
      LastLineIsOpen(text);
      StepHoldsBack(m, x, done, line, st, out, chunk, text, start);
      done', line' := done + line + text[..start], [];
    } else if text == [] {
      done', line' := done, line;
      assert x + chunk == x && out + Step(m, st, chunk).1 == out;
      assert st.pending == [];
    } else {
      var k := OpenLine(m, st, chunk, text);
      if k == 0 && !st.atLineStart {
        StepContinues(m, x, done, line, st, out, chunk, text);
        done', line' := done, line + text;
      } else {
        StepMovesOn(m, x, done, line, st, out, chunk, text, k);
        done', line' := done + line + text[..k], text[k..];
      }
    }
  }

  // ---------- the whole stream ----------

  lemma {:induction false} RunFollows(m: Mode, chunks: seq<Text>) returns (done: Text, line: Text)
    ensures Follows(m, Whole(chunks), done, line, Run(m, chunks).0, Run(m, chunks).1)
  {
    if chunks == [] {
      done, line := [], [];
    } else {
      var init := chunks[..|chunks| - 1];
      done, line := RunFollows(m, init);
      done, line := StepKeeps(m, Whole(init), done, line, Run(m, init).0, Run(m, init).1, chunks[|chunks| - 1]);
    }
  }

  /** At every moment, what has been written is what the reference makes of the input without the
      pending text. */
  lemma WrittenSoFar(m: Mode, chunks: seq<Text>)
    ensures var (st, out) := Run(m, chunks);
            && |st.pending| <= |Whole(chunks)|
            && var written := Whole(chunks)[..|Whole(chunks)| - |st.pending|];
               Whole(chunks) == written + st.pending && out == Reference(m, written)
  {
    var done, line := RunFollows(m, chunks);
    var (st, out) := Run(m, chunks);
    assert Whole(chunks)[..|Whole(chunks)| - |st.pending|] == done + line;
  }

  /** What is written does not depend on how the text was cut into chunks. */
  lemma ChunksDoNotMatter(m: Mode, chunks: seq<Text>)
    ensures var (st, out) := Run(m, chunks); out + Rest(m, st) == Reference(m, Whole(chunks))
  {
    var done, line := RunFollows(m, chunks);
    var (st, out) := Run(m, chunks);
    if st.pending == [] {
      assert Whole(chunks) == done + line;
      assert !IsCommand(m, []);
    } else {
      assert done + line == done;
      ReferenceCut(m, done, st.pending);
      RestIsReference(m, st);
    }
  }

  lemma HeldBackIsNoMarker(m: Mode, t: Text)
    requires HoldBack(m, t)
    ensures !StartsWithMarker(t)
  {
    if StartsWithMarker(t) {
      var marker := t[..4];
      StripKeepsChars(marker, t);
    }
  }

  lemma RestIsReference(m: Mode, st: State)
    requires st.pending != [] && OpenAt(st.pending, 0) && HoldBack(m, st.pending)
    ensures Rest(m, st) == Reference(m, st.pending)
  {
    var t := st.pending;
    FirstLineBeforeOpen(t, 0);
    ReferenceOfLine(m, t);
    HeldBackIsNoMarker(m, t);
    HasEolIffIndex(if EndsWithCR(t) then t[..|t| - 1] else t);
  }

  lemma RunNext(m: Mode, chunks: seq<Text>, i: nat)
    requires i < |chunks|
    ensures var (st, before) := Run(m, chunks[..i]);
            var (st', more) := Step(m, st, chunks[i]);
            Run(m, chunks[..i + 1]) == (st', before + more)
  {
    assert chunks[..i + 1][..i] == chunks[..i];
  }

  // ---------- what is held back ----------

  /** The text is the start of `word`, and not all of it. */
  ghost predicate IsStartOf(text: Text, word: string) {
    |text| < |word| && forall i :: 0 <= i < |text| ==> text[i] == Char(word[i])
  }

  /** Only the start of a line is ever held back whose visible text begins with "::" or may yet become that or,
      in Buildkite, a group marker. All else has been written. */
  lemma OnlyStartsAreHeld(m: Mode, chunks: seq<Text>)
    ensures var (st, out) := Run(m, chunks);
            var text := StripAnsi(st.pending);
            || st.pending == []
            || Shows(text, "::") || IsStartOf(text, "::")
            || (m.buildkite && (|| IsStartOf(text, "--- ") || IsStartOf(text, "+++ ")
                                || IsStartOf(text, "~~~ ") || IsStartOf(text, "^^^ ")))
  {
    var done, line := RunFollows(m, chunks);
    var text := StripAnsi(Run(m, chunks).0.pending);
    ShowsIsPrefix(text, "::");
  }

  // ---------- what becomes of each line ----------

  ghost predicate AllEscapes(t: Text) {
    forall i :: 0 <= i < |t| ==> t[i].Escape?
  }

  /** The text begins with these characters. */
  ghost predicate Shows(text: Text, start: string) {
    |start| <= |text| && forall i :: 0 <= i < |start| ==> text[i] == Char(start[i])
  }

  /** The end of a line: none only at the end of the output. */
  ghost predicate IsLineEnd(end: Text, after: Text) {
    || end == [LF] || end == [CR, LF]
    || (end == [CR] && (after == [] || after[0] != LF))
    || (end == [] && after == [])
  }

  /** A line of its own: escapes, then text that begins with a character, then its end. */
  ghost predicate IsLine(escapes: Text, text: Text, end: Text, after: Text) {
    && AllEscapes(escapes) && NoEol(text) && (text == [] || text[0].Char?)
    && IsLineEnd(end, after) && escapes + text + end != []
  }

  ghost predicate IsGroupMarker(text: Text) {
    Shows(text, "--- ") || Shows(text, "+++ ") || Shows(text, "~~~ ") || Shows(text, "^^^ ")
  }

  /** What becomes of such a line: outside GitHub a workflow command goes, in GitHub only the commands that fold;
      in Buildkite a group marker at the very start becomes a space; every other line stays as it is. */
  ghost function LetThrough(m: Mode, escapes: Text, text: Text, end: Text): Text {
    if !m.github && Shows(text, "::") then []
    else if m.github && (Shows(text, "::group::") || Shows(text, "::endgroup::")) then []
    else if m.buildkite && escapes == [] && IsGroupMarker(text) then [Char(' ')] + text[4..] + end
    else escapes + text + end
  }

  lemma ShowsIsPrefix(text: Text, start: string)
    ensures Shows(text, start) <==> Chars(start) <= text
  {}

  lemma PrefixOfLine(start: string, text: Text, end: Text)
    requires AllEol(end) && forall i :: 0 <= i < |start| ==> !IsEol(Char(start[i]))
    ensures Chars(start) <= text + end <==> Shows(text, start)
  {
    var v := Chars(start);
    if |v| > |text| && end != [] {
      assert (text + end)[|text|] == end[0];
      assert v[|text|] == Char(start[|text|]);
    }
  }

  lemma {:induction false} EscapesSkipped(escapes: Text, rest: Text)
    requires AllEscapes(escapes) && (rest == [] || rest[0].Char?)
    ensures SkipEscapes(escapes + rest) == rest
  {
    if escapes == [] {
      assert escapes + rest == rest;
    } else {
      assert (escapes + rest)[1..] == escapes[1..] + rest;
      EscapesSkipped(escapes[1..], rest);
    }
  }

  lemma CommandIs(m: Mode, escapes: Text, text: Text, end: Text, after: Text)
    requires IsLine(escapes, text, end, after)
    ensures IsCommand(m, escapes + text + end) <==>
            if m.github then Shows(text, "::group::") || Shows(text, "::endgroup::") else Shows(text, "::")
  {
    Lists.Regroup(escapes, text, end);
    EscapesSkipped(escapes, text + end);
    PrefixOfLine("::", text, end);
    PrefixOfLine("::group::", text, end);
    PrefixOfLine("::endgroup::", text, end);
  }

  lemma MarkerIs(escapes: Text, text: Text, end: Text, after: Text)
    requires IsLine(escapes, text, end, after)
    ensures StartsWithMarker(escapes + text + end) <==> escapes == [] && IsGroupMarker(text)
  {
    var line := escapes + text + end;
    if escapes == [] {
      assert line == text + end;
      PrefixOfLine("--- ", text, end);
      PrefixOfLine("+++ ", text, end);
      PrefixOfLine("~~~ ", text, end);
      PrefixOfLine("^^^ ", text, end);
    } else {
      assert line[0] == escapes[0];
    }
  }

  lemma DefusedIs(escapes: Text, text: Text, end: Text, after: Text)
    requires IsLine(escapes, text, end, after)
    ensures Defused(escapes + text + end) ==
            if escapes == [] && IsGroupMarker(text) then [Char(' ')] + text[4..] + end else escapes + text + end
  {
    MarkerIs(escapes, text, end, after);
    if escapes == [] && IsGroupMarker(text) {
      WithoutMarker(text, end);
      assert escapes + text == text;
    }
  }

  lemma WithoutMarker(text: Text, end: Text)
    requires |text| >= 4
    ensures [Char(' ')] + (text + end)[4..] == [Char(' ')] + text[4..] + end
  {
    assert (text + end)[4..] == text[4..] + end;
    Lists.Regroup([Char(' ')], text[4..], end);
  }

  lemma OneLineIs(m: Mode, escapes: Text, text: Text, end: Text, after: Text)
    requires IsLine(escapes, text, end, after)
    ensures OneLine(m, escapes + text + end) == LetThrough(m, escapes, text, end)
  {
    CommandIs(m, escapes, text, end, after);
    DefusedIs(escapes, text, end, after);
  }

  lemma {:induction false} EndOfFirstLine(b: Text, end: Text, after: Text)
    requires NoEol(b) && IsLineEnd(end, after)
    ensures LineLength(b + end + after) == |b| + |end|
  {
    BodyLength(b, end + after);
    Lists.Regroup(b, end, after);
    if end == [] {
      assert end + after == [];
    } else {
      assert (end + after)[0] == end[0];
      assert |end| == 1 && after != [] ==> (end + after)[1] == after[0];
    }
  }

  /** Whatever stands before and after it, each line becomes what its own text says. */
  lemma EachLineIs(m: Mode, before: Text, escapes: Text, text: Text, end: Text, after: Text)
    requires IsLine(escapes, text, end, after)
    requires EndsLine(before) && NoSplit(before, escapes + text + end)
    ensures Reference(m, before + ((escapes + text + end) + after)) ==
            Reference(m, before) + (LetThrough(m, escapes, text, end) + Reference(m, after))
  {
    var line := escapes + text + end;
    assert (line + after)[0] == line[0];
    ReferenceCut(m, before, line + after);
    EndOfFirstLine(escapes + text, end, after);
    ReferenceStep(m, line, after);
    OneLineIs(m, escapes, text, end, after);
  }

  /** The chunks, as they come. */
  method PipeChunks(filter: LiveOutputFilter, chunks: seq<Text>) returns (written: Text)
    requires State(filter.pending, filter.atLineStart) == START
    modifies filter
    ensures (State(filter.pending, filter.atLineStart), written) == Run(filter.mode, chunks)
  {
    written := [];
    for i := 0 to |chunks|
      invariant (State(filter.pending, filter.atLineStart), written) == Run(filter.mode, chunks[..i])
    {
      RunNext(filter.mode, chunks, i);
      var text := filter.Filter(chunks[i]);
      written := written + text;
    }
    assert chunks[..|chunks|] == chunks;
  }

  /** `pipeTestStdout`: writes what the filter lets through of each chunk, then the rest. */
  method Pipe(mode: Mode, chunks: seq<Text>) returns (written: Text)
    ensures written == Reference(mode, Whole(chunks))
  {
    var filter := new LiveOutputFilter(mode);
    written := PipeChunks(filter, chunks);
    ChunksDoNotMatter(mode, chunks);
    var rest := filter.End();
    written := written + rest;
  }
}
