/** Modules that the bundler wraps in `__esm` (src/runtime.js). The first call of a wrapper runs the
    body of its module, which calls the wrappers of the modules that it imports. */
module EsmWrappers {
  import opened Lists

  type Module = nat

  type Error = int

  /** A body calls wrappers, maybe in a `try` that ignores their errors, and may throw on its own. */
  datatype Op = Import(target: Module) | TryImport(target: Module) | Throw(error: Error)

  /** `bodies[m]` is the body of module m; one that gets to its end returns `values[m]`. */
  datatype Graph = Graph(bodies: seq<seq<Op>>, values: seq<int>)

  ghost predicate ValidGraph(g: Graph) {
    && |g.values| == |g.bodies|
    && forall m, k :: 0 <= m < |g.bodies| && 0 <= k < |g.bodies[m]| && !g.bodies[m][k].Throw? ==>
         g.bodies[m][k].target < |g.bodies|
  }

  /** The variables of one wrapper. `fn` is set until the body starts. */
  datatype Cell = Cell(fn: bool, res: Option<int>, err: Option<Error>)

  datatype Event = Started(m: Module) | Finished(m: Module)

  /** The cells of all wrappers, and what happened so far. */
  datatype State = State(cells: seq<Cell>, log: seq<Event>)

  /** `undefined` is None. */
  datatype Outcome = Returned(value: Option<int>) | Thrown(error: Error)

  function Unrun(s: State): set<Module> {
    set m: Module | m < |s.cells| && s.cells[m].fn
  }

  ghost predicate Fits(g: Graph, s: State) {
    ValidGraph(g) && |s.cells| == |g.bodies|
  }

  function Begin(s: State, m: Module): State
    requires m < |s.cells|
  {
    State(s.cells[m := s.cells[m].(fn := false)], s.log + [Started(m)])
  }

  function End(s: State, m: Module, o: Outcome): State
    requires m < |s.cells|
  {
    State(s.cells[m := if o.Returned? then s.cells[m].(res := o.value) else s.cells[m].(err := Some(o.error))],
          s.log + [Finished(m)])
  }

  function Answer(c: Cell): Outcome {
    if c.err.Some? then Thrown(c.err.value) else Returned(c.res)
  }

  /** A call of the wrapper of `m`. */
  function Call(g: Graph, s: State, m: Module): (r: (State, Outcome))
    requires Fits(g, s) && m < |s.cells|
    ensures Fits(g, r.0) && Unrun(r.0) <= Unrun(s) - {m}
    decreases Unrun(s), 0, 0
  {
    if s.cells[m].fn then
      assert Unrun(Begin(s, m)) == Unrun(s) - {m};
      var (s1, o) := Body(g, Begin(s, m), m, 0);
      assert Unrun(End(s1, m, o)) == Unrun(s1);
      (End(s1, m, o), Answer(End(s1, m, o).cells[m]))
    else
      (s, Answer(s.cells[m]))
  }

  /** The body of `m` from its operation `k` on. */
  function Body(g: Graph, s: State, m: Module, k: nat): (r: (State, Outcome))
    requires Fits(g, s) && m < |s.cells| && k <= |g.bodies[m]|
    ensures Fits(g, r.0) && Unrun(r.0) <= Unrun(s)
    decreases Unrun(s), 1, |g.bodies[m]| - k
  {
    if k == |g.bodies[m]| then (s, Returned(Some(g.values[m])))
    else
      match g.bodies[m][k]
      case Throw(e) => (s, Thrown(e))
      case Import(n) =>
        var (s1, o) := Call(g, s, n);
        if o.Thrown? then (s1, o) else Body(g, s1, m, k + 1)
      case TryImport(n) =>
        var (s1, o) := Call(g, s, n);
        Body(g, s1, m, k + 1)
  }

  /** The wrappers of a bundle: the closures' variables, updated in place. */
  class Bundle {
    const graph: Graph
    var cells: seq<Cell>
    ghost var log: seq<Event>

    constructor (graph: Graph)
      requires ValidGraph(graph)
      ensures this.graph == graph && State(cells, log) == Initial(graph)
    {
      this.graph := graph;
      cells := seq(|graph.bodies|, _ => Cell(true, None, None));
      log := [];
    }

    /** What `__esm` returns for module `m`. */
    method Init(m: Module) returns (o: Outcome)
      requires Fits(graph, State(cells, log)) && m < |cells|
      modifies this
      ensures (State(cells, log), o) == Call(graph, old(State(cells, log)), m)
      decreases Unrun(State(cells, log)), 0
    {
      if cells[m].fn {
        assert Unrun(Begin(State(cells, log), m)) == Unrun(State(cells, log)) - {m};
        cells := cells[m := cells[m].(fn := false)];
        log := log + [Started(m)];
        var result := RunBody(m);
        if result.Returned? {
          cells := cells[m := cells[m].(res := result.value)];
        } else {
          cells := cells[m := cells[m].(err := Some(result.error))];
        }
        log := log + [Finished(m)];
      }
      if cells[m].err.Some? {
        o := Thrown(cells[m].err.value);
      } else {
        o := Returned(cells[m].res);
      }
    }

    method RunBody(m: Module) returns (o: Outcome)
      requires Fits(graph, State(cells, log)) && m < |cells|
      modifies this
      ensures (State(cells, log), o) == Body(graph, old(State(cells, log)), m, 0)
      decreases Unrun(State(cells, log)), 1
    {
      ghost var s0 := State(cells, log);
      var k := 0;
      while k < |graph.bodies[m]|
        invariant k <= |graph.bodies[m]|
        invariant Fits(graph, State(cells, log)) && |cells| == |s0.cells|
        invariant Unrun(State(cells, log)) <= Unrun(s0)
        invariant Body(graph, s0, m, 0) == Body(graph, State(cells, log), m, k)
      {
        var op := graph.bodies[m][k];
        if op.Throw? {
          return Thrown(op.error);
        }
        var result := Init(op.target);
        if result.Thrown? && op.Import? {
          return result;
        }
        k := k + 1;
      }
      o := Returned(Some(graph.values[m]));
    }
  }

  function Initial(g: Graph): State {
    State(seq(|g.bodies|, _ => Cell(true, None, None)), [])
  }

  // ---------- what every call keeps ----------

  /** The bodies that are on the stack. */
  predicate IsActive(s: State, m: Module) {
    Started(m) in s.log && Finished(m) !in s.log
  }

  ghost predicate Consistent(g: Graph, s: State) {
    && Fits(g, s)
    && Distinct(s.log)
    && (forall m: Module :: Started(m) in s.log ==> m < |s.cells|)
    && (forall m: Module :: Finished(m) in s.log ==> Started(m) in s.log)
    && (forall m: Module :: m < |s.cells| ==> (s.cells[m].fn <==> Started(m) !in s.log))
    && (forall m: Module :: m < |s.cells| && Finished(m) !in s.log ==> s.cells[m].res == None && s.cells[m].err == None)
  }

  /** From `s` to `s'` the log has grown, the stack is the same, and no started module was touched. */
  ghost predicate Later(s: State, s': State) {
    && |s.cells| == |s'.cells|
    && s.log <= s'.log
    && (forall m: Module :: IsActive(s, m) <==> IsActive(s', m))
    && (forall m: Module :: m < |s.cells| && Started(m) in s.log ==> s'.cells[m] == s.cells[m])
  }

  lemma LogAppend(log: seq<Event>, e: Event)
    ensures forall x :: x in log + [e] <==> x in log || x == e
    ensures Distinct(log) && e !in log ==> Distinct(log + [e])
  {}

  lemma PrefixMembers(log: seq<Event>, log': seq<Event>)
    requires log <= log'
    ensures forall x :: x in log ==> x in log'
  {
    forall x | x in log ensures x in log' {
      var i :| 0 <= i < |log| && log[i] == x;
      assert log'[i] == x;
    }
  }

  lemma LaterIsTransitive(s: State, s1: State, s2: State)
    requires Later(s, s1) && Later(s1, s2)
    ensures Later(s, s2)
  {
    PrefixMembers(s.log, s1.log);
    PrefixMembers(s1.log, s2.log);
  }

  lemma BeginKeeps(g: Graph, s: State, m: Module)
    requires Consistent(g, s) && m < |s.cells| && s.cells[m].fn
    ensures Consistent(g, Begin(s, m)) && IsActive(Begin(s, m), m)
  {
    LogAppend(s.log, Started(m));
  }

  lemma EndKeeps(g: Graph, s: State, s1: State, m: Module, o: Outcome)
    requires Consistent(g, s) && m < |s.cells| && s.cells[m].fn
    requires Consistent(g, s1) && Later(Begin(s, m), s1)
    ensures Consistent(g, End(s1, m, o)) && Later(s, End(s1, m, o))
  {
    LogAppend(s.log, Started(m));
    PrefixMembers(s.log + [Started(m)], s1.log);
    assert IsActive(Begin(s, m), m);
    assert IsActive(s1, m);
    LogAppend(s1.log, Finished(m));
    PrefixMembers(s.log, End(s1, m, o).log);
    forall n: Module ensures IsActive(s, n) <==> IsActive(End(s1, m, o), n) {
      assert n != m ==> (IsActive(s, n) <==> IsActive(Begin(s, m), n));
    }
  }

  lemma {:induction false} CallKeeps(g: Graph, s: State, m: Module)
    requires Consistent(g, s) && m < |s.cells|
    ensures var (s', o) := Call(g, s, m);
            Consistent(g, s') && Later(s, s') && Started(m) in s'.log && o == Answer(s'.cells[m])
    decreases Unrun(s), 0, 0
  {
    if s.cells[m].fn {
      BeginKeeps(g, s, m);
      assert Unrun(Begin(s, m)) == Unrun(s) - {m};
      BodyKeeps(g, Begin(s, m), m, 0);
      var (s1, o) := Body(g, Begin(s, m), m, 0);
      EndKeeps(g, s, s1, m, o);
    }
  }

  lemma {:induction false} BodyKeeps(g: Graph, s: State, m: Module, k: nat)
    requires Consistent(g, s) && m < |s.cells| && k <= |g.bodies[m]|
    ensures var (s', _) := Body(g, s, m, k); Consistent(g, s') && Later(s, s')
    decreases Unrun(s), 1, |g.bodies[m]| - k
  {
    if k < |g.bodies[m]| && !g.bodies[m][k].Throw? {
      var n := g.bodies[m][k].target;
      CallKeeps(g, s, n);
      var (s1, o) := Call(g, s, n);
      if o.Returned? || g.bodies[m][k].TryImport? {
        BodyKeeps(g, s1, m, k + 1);
        LaterIsTransitive(s, s1, Body(g, s1, m, k + 1).0);
      }
    }
  }

  // ---------- what a call evaluates ----------

  ghost predicate Imports(g: Graph, a: Module, b: Module) {
    a < |g.bodies| && exists k :: 0 <= k < |g.bodies[a]| && !g.bodies[a][k].Throw? && g.bodies[a][k].target == b
  }

  ghost predicate IsPath(g: Graph, p: seq<Module>) {
    p != [] && forall i :: 0 <= i < |p| - 1 ==> Imports(g, p[i], p[i + 1])
  }

  ghost predicate Reaches(g: Graph, a: Module, b: Module) {
    exists p :: IsPath(g, p) && p[0] == a && p[|p| - 1] == b
  }

  lemma ReachesItself(g: Graph, a: Module)
    ensures Reaches(g, a, a)
  {
    assert IsPath(g, [a]);
  }

  lemma ReachesThroughImport(g: Graph, a: Module, b: Module, c: Module)
    requires Imports(g, a, b) && Reaches(g, b, c)
    ensures Reaches(g, a, c)
  {
    var p :| IsPath(g, p) && p[0] == b && p[|p| - 1] == c;
    var q := [a] + p;
    forall i | 0 <= i < |q| - 1 ensures Imports(g, q[i], q[i + 1]) {
      if i > 0 { assert Imports(g, p[i - 1], p[i]); }
    }
    assert IsPath(g, q) && q[|q| - 1] == c;
  }

  /** A call starts only modules that its module reaches. */
  lemma {:induction false} CallStartsTheReachable(g: Graph, s: State, m: Module, x: Module)
    requires Consistent(g, s) && m < |s.cells|
    requires Started(x) in Call(g, s, m).0.log && Started(x) !in s.log
    ensures Reaches(g, m, x)
    decreases Unrun(s), 0, 0
  {
    if x == m {
      ReachesItself(g, m);
    } else {
      BeginKeeps(g, s, m);
      assert Unrun(Begin(s, m)) == Unrun(s) - {m};
      LogAppend(s.log, Started(m));
      LogAppend(Body(g, Begin(s, m), m, 0).0.log, Finished(m));
      BodyStartsTheReachable(g, Begin(s, m), m, 0, x);
    }
  }

  lemma {:induction false} BodyStartsTheReachable(g: Graph, s: State, m: Module, k: nat, x: Module)
    requires Consistent(g, s) && m < |s.cells| && k <= |g.bodies[m]|
    requires Started(x) in Body(g, s, m, k).0.log && Started(x) !in s.log
    ensures Reaches(g, m, x)
    decreases Unrun(s), 1, |g.bodies[m]| - k
  {
    var n := g.bodies[m][k].target;
    var (s1, o) := Call(g, s, n);
    CallKeeps(g, s, n);
    if Started(x) in s1.log {
      CallStartsTheReachable(g, s, n, x);
      ReachesThroughImport(g, m, n, x);
    } else {
      BodyStartsTheReachable(g, s1, m, k + 1, x);
    }
  }

  /** Module `n` has called the wrappers of its first `k` operations, and none of them threw on its own. */
  ghost predicate Called(g: Graph, s: State, n: Module, k: nat)
    requires n < |g.bodies| && k <= |g.bodies[n]|
  {
    forall j :: 0 <= j < k ==> !g.bodies[n][j].Throw? && Started(g.bodies[n][j].target) in s.log
  }

  /** The modules that finished without an error have called all that they import. */
  ghost predicate Closed(g: Graph, s: State)
    requires Fits(g, s)
  {
    forall n: Module :: n < |s.cells| && Finished(n) in s.log && s.cells[n].err == None ==> Called(g, s, n, |g.bodies[n]|)
  }

  lemma CalledLater(g: Graph, s: State, s': State, n: Module, k: nat)
    requires n < |g.bodies| && k <= |g.bodies[n]| && Called(g, s, n, k) && s.log <= s'.log
    ensures Called(g, s', n, k)
  {
    PrefixMembers(s.log, s'.log);
  }

  lemma EndKeepsClosed(g: Graph, s: State, m: Module, o: Outcome)
    requires Consistent(g, s) && m < |s.cells| && IsActive(s, m) && Closed(g, s)
    requires o.Returned? ==> Called(g, s, m, |g.bodies[m]|)
    ensures Closed(g, End(s, m, o))
  {
    var s' := End(s, m, o);
    LogAppend(s.log, Finished(m));
    forall n: Module | n < |s'.cells| && Finished(n) in s'.log && s'.cells[n].err == None
      ensures Called(g, s', n, |g.bodies[n]|)
    {
      CalledLater(g, s, s', n, |g.bodies[n]|);
    }
  }

  lemma {:induction false} CallKeepsClosed(g: Graph, s: State, m: Module)
    requires Consistent(g, s) && m < |s.cells| && Closed(g, s)
    ensures Closed(g, Call(g, s, m).0)
    decreases Unrun(s), 0, 0
  {
    if s.cells[m].fn {
      var s0 := Begin(s, m);
      BeginKeeps(g, s, m);
      LogAppend(s.log, Started(m));
      assert Unrun(s0) == Unrun(s) - {m};
      forall n: Module | n < |s0.cells| && Finished(n) in s0.log && s0.cells[n].err == None
        ensures Called(g, s0, n, |g.bodies[n]|)
      {
        CalledLater(g, s, s0, n, |g.bodies[n]|);
      }
      BodyKeeps(g, s0, m, 0);
      BodyKeepsClosed(g, s0, m, 0);
      var (s1, o) := Body(g, s0, m, 0);
      assert IsActive(s1, m);
      EndKeepsClosed(g, s1, m, o);
    }
  }

  lemma {:induction false} BodyKeepsClosed(g: Graph, s: State, m: Module, k: nat)
    requires Consistent(g, s) && m < |s.cells| && k <= |g.bodies[m]|
    requires Closed(g, s) && Called(g, s, m, k)
    ensures var (s', o) := Body(g, s, m, k);
            Closed(g, s') && (o.Returned? ==> Called(g, s', m, |g.bodies[m]|))
    decreases Unrun(s), 1, |g.bodies[m]| - k
  {
    if k < |g.bodies[m]| && !g.bodies[m][k].Throw? {
      var n := g.bodies[m][k].target;
      var (s1, o) := Call(g, s, n);
      CallKeeps(g, s, n);
      CallKeepsClosed(g, s, n);
      CalledLater(g, s, s1, m, k);
      if o.Returned? || g.bodies[m][k].TryImport? {
        BodyKeepsClosed(g, s1, m, k + 1);
      }
    }
  }

  lemma {:induction false} ClosedHoldsPaths(g: Graph, s: State, p: seq<Module>)
    requires Fits(g, s) && Closed(g, s) && IsPath(g, p) && p[0] < |s.cells| && Finished(p[0]) in s.log
    requires forall n: Module :: n < |s.cells| ==> s.cells[n].err == None
    requires forall n: Module :: Started(n) in s.log ==> n < |s.cells| && Finished(n) in s.log
    ensures Finished(p[|p| - 1]) in s.log
  {
    if |p| > 1 {
      assert Imports(g, p[0], p[1]);
      assert Called(g, s, p[0], |g.bodies[p[0]]|);
      forall i | 0 <= i < |p[1..]| - 1 ensures Imports(g, p[1..][i], p[1..][i + 1]) {
        assert Imports(g, p[i + 1], p[i + 2]);
      }
      ClosedHoldsPaths(g, s, p[1..]);
    }
  }

  lemma InitialIsConsistent(g: Graph)
    requires ValidGraph(g)
    ensures Consistent(g, Initial(g)) && Closed(g, Initial(g))
    ensures forall m: Module :: !IsActive(Initial(g), m)
  {}

  lemma NothingActive(g: Graph, s: State)
    requires ValidGraph(g) && Consistent(g, s) && Later(Initial(g), s)
    ensures forall n: Module :: Started(n) in s.log ==> n < |s.cells| && Finished(n) in s.log
  {
    forall n: Module | Started(n) in s.log ensures Finished(n) in s.log {
      assert !IsActive(Initial(g), n);
      assert !IsActive(s, n);
    }
  }

  /** A run of an entry in which no module throws evaluates exactly the modules that it reaches, over
      cycles as well. */
  lemma RunEvaluatesTheReachable(g: Graph, m: Module, x: Module)
    requires ValidGraph(g) && m < |g.bodies|
    requires forall n: Module :: n < |g.bodies| ==> Call(g, Initial(g), m).0.cells[n].err == None
    ensures Started(x) in Call(g, Initial(g), m).0.log <==> Reaches(g, m, x)
    ensures Finished(x) in Call(g, Initial(g), m).0.log <==> Reaches(g, m, x)
  {
    var s' := Call(g, Initial(g), m).0;
    InitialIsConsistent(g);
    CallKeeps(g, Initial(g), m);
    CallKeepsClosed(g, Initial(g), m);
    NothingActive(g, s');
    if Started(x) in s'.log {
      CallStartsTheReachable(g, Initial(g), m, x);
    }
    if Reaches(g, m, x) {
      var p :| IsPath(g, p) && p[0] == m && p[|p| - 1] == x;
      ClosedHoldsPaths(g, s', p);
    }
  }

  // ---------- once, and the same error for ever ----------

  /** Entries are called one after the other, whatever they throw. */
  function CallAll(g: Graph, s: State, ms: seq<Module>): (s': State)
    requires Fits(g, s) && forall i :: 0 <= i < |ms| ==> ms[i] < |s.cells|
    ensures Fits(g, s')
    decreases |ms|
  {
    if ms == [] then s else CallAll(g, Call(g, s, ms[0]).0, ms[1..])
  }

  lemma {:induction false} CallAllKeeps(g: Graph, s: State, ms: seq<Module>)
    requires Consistent(g, s) && forall i :: 0 <= i < |ms| ==> ms[i] < |s.cells|
    ensures Consistent(g, CallAll(g, s, ms)) && Later(s, CallAll(g, s, ms))
    decreases |ms|
  {
    if ms != [] {
      CallKeeps(g, s, ms[0]);
      CallAllKeeps(g, Call(g, s, ms[0]).0, ms[1..]);
      LaterIsTransitive(s, Call(g, s, ms[0]).0, CallAll(g, s, ms));
    }
  }

  /** However often and in whatever order entries are called, no body runs twice, and every body that
      was started has come to its end. */
  lemma BodiesRunOnce(g: Graph, ms: seq<Module>)
    requires ValidGraph(g) && forall i :: 0 <= i < |ms| ==> ms[i] < |g.bodies|
    ensures Distinct(CallAll(g, Initial(g), ms).log)
    ensures forall m: Module :: Started(m) in CallAll(g, Initial(g), ms).log ==> Finished(m) in CallAll(g, Initial(g), ms).log
  {
    InitialIsConsistent(g);
    CallAllKeeps(g, Initial(g), ms);
    NothingActive(g, CallAll(g, Initial(g), ms));
  }

  /** Once the body of a module has ended, its wrapper answers every later call as it did then, without running
      anything: in particular a module whose evaluation threw `e` throws `e` for ever. From inside its own
      evaluation all calls get `undefined`. */
  lemma AnswersStay(g: Graph, s: State, m: Module, later: seq<Module>)
    requires Consistent(g, s) && m < |s.cells| && (forall i :: 0 <= i < |later| ==> later[i] < |s.cells|)
    ensures var (s1, o) := Call(g, s, m);
            var s2 := CallAll(g, s1, later);
            Call(g, s2, m) == (s2, o)
  {
    CallKeeps(g, s, m);
    var (s1, o) := Call(g, s, m);
    CallAllKeeps(g, s1, later);
    PrefixMembers(s1.log, CallAll(g, s1, later).log);
  }

  // ---------- the value of a module ----------

  /** A module that ended without an error has the value that its body returned. */
  ghost predicate HoldValues(g: Graph, s: State)
    requires Fits(g, s)
  {
    forall m: Module :: m < |s.cells| && Finished(m) in s.log && s.cells[m].err == None ==> s.cells[m].res == Some(g.values[m])
  }

  lemma EndHolds(g: Graph, s: State, m: Module, o: Outcome)
    requires Fits(g, s) && m < |s.cells| && HoldValues(g, s) && (o.Returned? ==> o.value == Some(g.values[m]))
    ensures HoldValues(g, End(s, m, o))
  {
    LogAppend(s.log, Finished(m));
  }

  lemma BeginHolds(g: Graph, s: State, m: Module)
    requires Fits(g, s) && m < |s.cells| && HoldValues(g, s)
    ensures HoldValues(g, Begin(s, m))
  {
    LogAppend(s.log, Started(m));
  }

  lemma {:induction false} CallHolds(g: Graph, s: State, m: Module)
    requires Consistent(g, s) && m < |s.cells| && HoldValues(g, s)
    ensures HoldValues(g, Call(g, s, m).0)
    decreases Unrun(s), 0, 0
  {
    if s.cells[m].fn {
      BeginKeeps(g, s, m);
      BeginHolds(g, s, m);
      assert Unrun(Begin(s, m)) == Unrun(s) - {m};
      BodyHolds(g, Begin(s, m), m, 0);
      var (s1, o) := Body(g, Begin(s, m), m, 0);
      EndHolds(g, s1, m, o);
    }
  }

  lemma {:induction false} BodyHolds(g: Graph, s: State, m: Module, k: nat)
    requires Consistent(g, s) && m < |s.cells| && k <= |g.bodies[m]| && HoldValues(g, s)
    ensures var (s', o) := Body(g, s, m, k); HoldValues(g, s') && (o.Returned? ==> o.value == Some(g.values[m]))
    decreases Unrun(s), 1, |g.bodies[m]| - k
  {
    if k < |g.bodies[m]| && !g.bodies[m][k].Throw? {
      var n := g.bodies[m][k].target;
      CallKeeps(g, s, n);
      CallHolds(g, s, n);
      var (s1, o) := Call(g, s, n);
      if o.Returned? || g.bodies[m][k].TryImport? {
        BodyHolds(g, s1, m, k + 1);
      }
    }
  }

  lemma {:induction false} CallAllHolds(g: Graph, s: State, ms: seq<Module>)
    requires Consistent(g, s) && HoldValues(g, s) && forall i :: 0 <= i < |ms| ==> ms[i] < |s.cells|
    ensures HoldValues(g, CallAll(g, s, ms))
    decreases |ms|
  {
    if ms != [] {
      CallKeeps(g, s, ms[0]);
      CallHolds(g, s, ms[0]);
      CallAllHolds(g, Call(g, s, ms[0]).0, ms[1..]);
    }
  }

  /** After any calls of entries, the wrapper of a module that ran answers with the value of its body, or throws the
      error that ended it. */
  lemma AnswersAreValues(g: Graph, ms: seq<Module>, m: Module)
    requires ValidGraph(g) && forall i :: 0 <= i < |ms| ==> ms[i] < |g.bodies|
    requires Started(m) in CallAll(g, Initial(g), ms).log
    ensures var s := CallAll(g, Initial(g), ms);
            && m < |s.cells|
            && Call(g, s, m) == (s, if s.cells[m].err.Some? then Thrown(s.cells[m].err.value) else Returned(Some(g.values[m])))
  {
    InitialIsConsistent(g);
    CallAllKeeps(g, Initial(g), ms);
    CallAllHolds(g, Initial(g), ms);
    NothingActive(g, CallAll(g, Initial(g), ms));
  }

  // ---------- imports first ----------

  /** `rank` decreases along imports, so there is no cycle. */
  ghost predicate Ranked(g: Graph, rank: Module -> nat) {
    forall a, b :: Imports(g, a, b) ==> rank(b) < rank(a)
  }

  /** Whatever a module imports has come to its end before the module does. */
  ghost predicate ImportsFirst(g: Graph, s: State)
    requires Fits(g, s)
  {
    forall j :: 0 <= j < |s.log| && s.log[j].Finished? && s.log[j].m < |s.cells| && s.cells[s.log[j].m].err == None ==>
      forall b :: Imports(g, s.log[j].m, b) ==> Finished(b) in s.log[..j]
  }

  /** Every body on the stack ranks above `m`. */
  ghost predicate StackAbove(s: State, rank: Module -> nat, m: Module) {
    forall a: Module :: IsActive(s, a) ==> rank(m) < rank(a)
  }

  lemma {:induction false} CallPutsImportsFirst(g: Graph, s: State, m: Module, rank: Module -> nat)
    requires Consistent(g, s) && m < |s.cells| && ImportsFirst(g, s) && Closed(g, s)
    requires Ranked(g, rank) && StackAbove(s, rank, m)
    ensures ImportsFirst(g, Call(g, s, m).0)
    decreases Unrun(s), 0, 0
  {
    if s.cells[m].fn {
      var s0 := Begin(s, m);
      BeginKeeps(g, s, m);
      LogAppend(s.log, Started(m));
      assert Unrun(s0) == Unrun(s) - {m};
      BeginKeepsImports(g, s, m);
      BeginKeepsClosed(g, s, m);
      BodyKeeps(g, s0, m, 0);
      BodyKeepsClosed(g, s0, m, 0);
      BodyPutsImportsFirst(g, s0, m, 0, rank);
      var (s1, o) := Body(g, s0, m, 0);
      assert IsActive(s0, m) && IsActive(s1, m);
      EndKeepsOrder(g, s1, m, o, rank);
    }
  }

  lemma BeginKeepsImports(g: Graph, s: State, m: Module)
    requires Consistent(g, s) && m < |s.cells| && s.cells[m].fn && ImportsFirst(g, s)
    ensures ImportsFirst(g, Begin(s, m))
  {
    var s0 := Begin(s, m);
    forall j, b | 0 <= j < |s0.log| && s0.log[j].Finished? && s0.log[j].m < |s0.cells|
                  && s0.cells[s0.log[j].m].err == None && Imports(g, s0.log[j].m, b)
      ensures Finished(b) in s0.log[..j]
    {
      assert s.log[j] == s0.log[j] && s0.log[..j] == s.log[..j];
      assert s0.log[j] in s.log;
    }
  }

  lemma BeginKeepsClosed(g: Graph, s: State, m: Module)
    requires Consistent(g, s) && m < |s.cells| && s.cells[m].fn && Closed(g, s)
    ensures Closed(g, Begin(s, m))
  {
    var s0 := Begin(s, m);
    LogAppend(s.log, Started(m));
    forall n: Module | n < |s0.cells| && Finished(n) in s0.log && s0.cells[n].err == None
      ensures Called(g, s0, n, |g.bodies[n]|)
    {
      CalledLater(g, s, s0, n, |g.bodies[n]|);
    }
  }

  /** What a body has imported is not on the stack, because it ranks below the whole stack. */
  lemma ImportHasEnded(g: Graph, s: State, m: Module, b: Module, rank: Module -> nat)
    requires Fits(g, s) && m < |s.cells| && Called(g, s, m, |g.bodies[m]|) && Imports(g, m, b)
    requires Ranked(g, rank) && forall a: Module :: IsActive(s, a) ==> rank(m) <= rank(a)
    ensures Finished(b) in s.log
  {
    assert Started(b) in s.log;
    assert !IsActive(s, b);
  }

  lemma EndKeepsOrder(g: Graph, s: State, m: Module, o: Outcome, rank: Module -> nat)
    requires Consistent(g, s) && m < |s.cells| && IsActive(s, m) && ImportsFirst(g, s)
    requires o.Returned? ==> Called(g, s, m, |g.bodies[m]|)
    requires Ranked(g, rank) && forall a: Module :: IsActive(s, a) ==> rank(m) <= rank(a)
    ensures ImportsFirst(g, End(s, m, o))
  {
    var s' := End(s, m, o);
    LogAppend(s.log, Finished(m));
    forall j, b | 0 <= j < |s'.log| && s'.log[j].Finished? && s'.log[j].m < |s'.cells|
                  && s'.cells[s'.log[j].m].err == None && Imports(g, s'.log[j].m, b)
      ensures Finished(b) in s'.log[..j]
    {
      if j < |s.log| {
        assert s.log[j] == s'.log[j] && s'.log[..j] == s.log[..j];
        assert s.log[j] in s.log;
      } else {
        assert s'.log[..j] == s.log && s'.log[j] == Finished(m);
        ImportHasEnded(g, s, m, b, rank);
      }
    }
  }

  lemma {:induction false} BodyPutsImportsFirst(g: Graph, s: State, m: Module, k: nat, rank: Module -> nat)
    requires Consistent(g, s) && m < |s.cells| && k <= |g.bodies[m]| && ImportsFirst(g, s) && Closed(g, s)
    requires Ranked(g, rank) && IsActive(s, m) && forall a: Module :: IsActive(s, a) ==> rank(m) <= rank(a)
    ensures ImportsFirst(g, Body(g, s, m, k).0)
    decreases Unrun(s), 1, |g.bodies[m]| - k
  {
    if k < |g.bodies[m]| && !g.bodies[m][k].Throw? {
      var n := g.bodies[m][k].target;
      var (s1, o) := Call(g, s, n);
      assert Imports(g, m, n);
      CallKeeps(g, s, n);
      CallKeepsClosed(g, s, n);
      CallPutsImportsFirst(g, s, n, rank);
      if o.Returned? || g.bodies[m][k].TryImport? {
        BodyPutsImportsFirst(g, s1, m, k + 1, rank);
      }
    }
  }

  /** No module reaches itself through its imports. */
  ghost predicate Acyclic(g: Graph) {
    forall a, b :: Imports(g, a, b) ==> !Reaches(g, b, a)
  }

  ghost function Reached(g: Graph, a: Module): set<Module> {
    set x: Module | x < |g.bodies| && Reaches(g, a, x)
  }

  /** The number of modules that a module reaches decreases along imports. */
  lemma FewerAreReached(g: Graph, a: Module, b: Module)
    requires ValidGraph(g) && Acyclic(g) && Imports(g, a, b)
    ensures |Reached(g, b)| < |Reached(g, a)|
  {
    ReachesItself(g, a);
    forall x | x in Reached(g, b) ensures x in Reached(g, a) {
      ReachesThroughImport(g, a, b, x);
    }
    assert a in Reached(g, a) && a !in Reached(g, b);
    assert Reached(g, a) == Reached(g, b) + (Reached(g, a) - Reached(g, b));
    assert a in Reached(g, a) - Reached(g, b);
  }

  ghost function RankOf(g: Graph): Module -> nat {
    (a: Module) => |Reached(g, a)|
  }

  /** Exactly the graphs without a cycle have a ranking. */
  lemma AcyclicIsRanked(g: Graph)
    requires ValidGraph(g)
    ensures Acyclic(g) <==> exists rank: Module -> nat :: Ranked(g, rank)
  {
    if Acyclic(g) {
      forall a, b | Imports(g, a, b) ensures RankOf(g)(b) < RankOf(g)(a) {
        FewerAreReached(g, a, b);
      }
      assert Ranked(g, RankOf(g));
    }
    if rank: Module -> nat :| Ranked(g, rank) {
      forall a, b | Imports(g, a, b) ensures !Reaches(g, b, a) {
        if Reaches(g, b, a) {
          var p :| IsPath(g, p) && p[0] == b && p[|p| - 1] == a;
          RankAlongPath(g, p, rank);
        }
      }
    }
  }

  lemma {:induction false} RankAlongPath(g: Graph, p: seq<Module>, rank: Module -> nat)
    requires IsPath(g, p) && Ranked(g, rank)
    ensures rank(p[|p| - 1]) <= rank(p[0])
  {
    if |p| > 1 {
      assert Imports(g, p[0], p[1]);
      forall i | 0 <= i < |p[1..]| - 1 ensures Imports(g, p[1..][i], p[1..][i + 1]) {
        assert Imports(g, p[i + 1], p[i + 2]);
      }
      RankAlongPath(g, p[1..], rank);
    }
  }

  /** Without import cycles, every module that ends without an error ends after all its imports. */
  lemma AcyclicRunPutsImportsFirst(g: Graph, m: Module)
    requires ValidGraph(g) && m < |g.bodies| && Acyclic(g)
    ensures ImportsFirst(g, Call(g, Initial(g), m).0)
  {
    AcyclicIsRanked(g);
    var rank: Module -> nat :| Ranked(g, rank);
    InitialIsConsistent(g);
    CallPutsImportsFirst(g, Initial(g), m, rank);
  }

  // ---------- who keeps an error ----------

  /** Imports as declarations make them: none stands in a `try`. */
  predicate Declared(g: Graph) {
    forall m, k :: 0 <= m < |g.bodies| && 0 <= k < |g.bodies[m]| ==> !g.bodies[m][k].TryImport?
  }

  /** The body of `m` throws on its own, unless it stops before. */
  ghost predicate Throws(g: Graph, m: Module) {
    m < |g.bodies| && exists k :: 0 <= k < |g.bodies[m]| && g.bodies[m][k].Throw?
  }

  /** The first throw in the body of `m` is that of `e`. */
  ghost predicate ThrowsFirst(g: Graph, m: Module, e: Error) {
    m < |g.bodies| && exists k :: 0 <= k < |g.bodies[m]| && g.bodies[m][k] == Throw(e) && NoThrowBefore(g, m, k)
  }

  ghost predicate NoThrowBefore(g: Graph, m: Module, k: nat)
    requires m < |g.bodies| && k <= |g.bodies[m]|
  {
    forall j :: 0 <= j < k ==> !g.bodies[m][j].Throw?
  }

  /** No body with a throw has ended. */
  ghost predicate NoneThrew(g: Graph, log: seq<Event>) {
    forall j :: 0 <= j < |log| && log[j].Finished? ==> !Throws(g, log[j].m)
  }

  /** The moment of the throw: before it no body with a throw has ended, and next the one that threw ends. */
  ghost predicate IsThrow(g: Graph, log: seq<Event>, i: nat) {
    i < |log| && NoneThrew(g, log[..i]) && log[i].Finished? && Throws(g, log[i].m)
  }

  lemma ThrowIsOne(g: Graph, log: seq<Event>, i: nat, j: nat)
    requires IsThrow(g, log, i) && IsThrow(g, log, j)
    ensures i == j
  {
    if i < j {
      NoThrowEarlier(g, log, i, j);
    } else if j < i {
      NoThrowEarlier(g, log, j, i);
    }
  }

  lemma NoThrowEarlier(g: Graph, log: seq<Event>, i: nat, j: nat)
    requires IsThrow(g, log, j) && i < j
    ensures !IsThrow(g, log, i)
  {
    assert log[..j][i] == log[i];
  }

  ghost predicate NoErrors(s: State) {
    forall x: Module :: x < |s.cells| ==> s.cells[x].err == None
  }

  /** The modules of `p` end, the last one first. */
  function Ends(p: seq<Module>): seq<Event> {
    if p == [] then [] else Ends(p[1..]) + [Finished(p[0])]
  }

  lemma EndsNext(m: Module, p: seq<Module>)
    ensures Ends([m] + p) == Ends(p) + [Finished(m)]
  {
    assert ([m] + p)[1..] == p;
  }

  lemma {:induction false} EndsAre(p: seq<Module>)
    ensures forall x :: Finished(x) in Ends(p) <==> x in p
    ensures p != [] ==> Ends(p) != [] && Ends(p)[0] == Finished(p[|p| - 1])
  {
    if p != [] {
      EndsAre(p[1..]);
      LogAppend(Ends(p[1..]), Finished(p[0]));
      assert p == [p[0]] + p[1..];
    }
  }

  /** `e` was thrown when the log had `i` entries. Since then the bodies of `p` have ended, innermost first,
      and these are the modules that keep it. */
  ghost predicate Unwound(g: Graph, s: State, i: nat, p: seq<Module>, e: Error) {
    && i <= |s.log| && NoneThrew(g, s.log[..i]) && s.log[i..] == Ends(p)
    && forall x: Module :: x < |s.cells| ==> s.cells[x].err == if x in p then Some(e) else None
  }

  lemma EndUnwinds(g: Graph, s: State, i: nat, p: seq<Module>, m: Module, e: Error)
    requires Unwound(g, s, i, p, e) && m < |s.cells|
    ensures Unwound(g, End(s, m, Thrown(e)), i, [m] + p, e)
  {
    var s' := End(s, m, Thrown(e));
    assert s'.log[..i] == s.log[..i] && s'.log[i..] == s.log[i..] + [Finished(m)];
    EndsNext(m, p);
  }

  /** `p` leads through imports from `m` to the body that throws `e`. */
  ghost predicate LeadsToThrow(g: Graph, m: Module, p: seq<Module>, e: Error) {
    IsPath(g, p) && p[0] == m && ThrowsFirst(g, p[|p| - 1], e)
  }

  lemma LeadsThroughImport(g: Graph, m: Module, n: Module, p: seq<Module>, e: Error)
    requires Imports(g, m, n) && LeadsToThrow(g, n, p, e)
    ensures LeadsToThrow(g, m, [m] + p, e)
  {
    var q := [m] + p;
    forall i | 0 <= i < |q| - 1 ensures Imports(g, q[i], q[i + 1]) {
      if i > 0 { assert Imports(g, p[i - 1], p[i]); }
    }
  }

  /** Nothing was thrown so far. */
  ghost predicate Calm(g: Graph, s: State) {
    NoErrors(s) && NoneThrew(g, s.log)
  }

  lemma EndIsCalm(g: Graph, s: State, m: Module, o: Outcome)
    requires Calm(g, s) && m < |s.cells| && o.Returned? && !Throws(g, m)
    ensures Calm(g, End(s, m, o))
  {}

  lemma {:induction false} CallUnwinds(g: Graph, s: State, m: Module) returns (i: nat, p: seq<Module>)
    requires Consistent(g, s) && Declared(g) && Calm(g, s) && m < |s.cells|
    ensures var (s', o) := Call(g, s, m);
            if o.Returned? then Calm(g, s') else Unwound(g, s', i, p, o.error) && LeadsToThrow(g, m, p, o.error)
    decreases Unrun(s), 0, 0
  {
    i, p := 0, [];
    if s.cells[m].fn {
      BeginKeeps(g, s, m);
      assert Unrun(Begin(s, m)) == Unrun(s) - {m};
      i, p := BodyUnwinds(g, Begin(s, m), m, 0);
      var (s1, o) := Body(g, Begin(s, m), m, 0);
      if o.Thrown? {
        EndUnwinds(g, s1, i, p, m, o.error);
        p := [m] + p;
      } else {
        EndIsCalm(g, s1, m, o);
      }
    }
  }

  lemma {:induction false} BodyUnwinds(g: Graph, s: State, m: Module, k: nat) returns (i: nat, p: seq<Module>)
    requires Consistent(g, s) && Declared(g) && Calm(g, s) && m < |s.cells| && k <= |g.bodies[m]|
    requires NoThrowBefore(g, m, k)
    ensures var (s', o) := Body(g, s, m, k);
            if o.Returned? then Calm(g, s') && !Throws(g, m)
            else Unwound(g, s', i, p, o.error) && LeadsToThrow(g, m, [m] + p, o.error)
    decreases Unrun(s), 1, |g.bodies[m]| - k
  {
    i, p := |s.log|, [];
    if k < |g.bodies[m]| {
      if g.bodies[m][k].Throw? {
        ThrowUnwinds(g, s, m, k);
      } else {
        var n := g.bodies[m][k].target;
        CallKeeps(g, s, n);
        i, p := CallUnwinds(g, s, n);
        var (s1, o) := Call(g, s, n);
        if o.Returned? {
          i, p := BodyUnwinds(g, s1, m, k + 1);
        } else {
          LeadsThroughImport(g, m, n, p, o.error);
        }
      }
    }
  }

  lemma ThrowUnwinds(g: Graph, s: State, m: Module, k: nat)
    requires Calm(g, s) && m < |g.bodies| && k < |g.bodies[m]| && NoThrowBefore(g, m, k) && g.bodies[m][k].Throw?
    ensures Unwound(g, s, |s.log|, [], g.bodies[m][k].error)
    ensures LeadsToThrow(g, m, [m] + [], g.bodies[m][k].error)
  {
    assert s.log[..|s.log|] == s.log;
    assert g.bodies[m][k] == Throw(g.bodies[m][k].error);
    assert [m] + [] == [m];
  }

  /** What a module says to later calls when an entry threw `e` with `i` entries in the log. */
  ghost predicate KeepsErrorIf(g: Graph, s: State, i: nat, e: Error, x: Module)
    requires Fits(g, s) && x < |s.cells| && i <= |s.log|
  {
    && (s.cells[x].err == Some(e) <==> Started(x) in s.log && Finished(x) !in s.log[..i])
    && (s.cells[x].err != Some(e) ==> s.cells[x].err == None)
    && (Started(x) in s.log ==> Call(g, s, x).0 == s && (Call(g, s, x).1 == Thrown(e) <==> Finished(x) !in s.log[..i]))
  }

  lemma FinishedOnce(log: seq<Event>, i: nat, x: Module)
    requires Distinct(log) && i <= |log|
    ensures Finished(x) in log[i..] <==> Finished(x) in log && Finished(x) !in log[..i]
  {
    assert log == log[..i] + log[i..];
  }

  lemma UnwoundAtThrow(g: Graph, s: State, m: Module, i: nat, p: seq<Module>, e: Error)
    requires Unwound(g, s, i, p, e) && LeadsToThrow(g, m, p, e)
    ensures IsThrow(g, s.log, i) && s.log[i] == Finished(p[|p| - 1])
  {
    EndsAre(p);
    assert s.log[i..][0] == s.log[i];
  }

  /** When an entry throws, a body threw at one moment. From then on nothing happens but that the bodies on
      the stack end, which are the path `p` of imports from the entry to the body that threw. A module keeps
      the error, and throws it again, exactly if it had been started by then and had not come to its end. */
  lemma ErrorStaysWithTheStack(g: Graph, m: Module) returns (i: nat, p: seq<Module>)
    requires ValidGraph(g) && Declared(g) && m < |g.bodies| && Call(g, Initial(g), m).1.Thrown?
    ensures var (s, o) := Call(g, Initial(g), m);
            && IsThrow(g, s.log, i) && LeadsToThrow(g, m, p, o.error) && s.log[i..] == Ends(p)
            && (forall x: Module :: x in p <==> Started(x) in s.log && Finished(x) !in s.log[..i])
            && forall x: Module :: x < |s.cells| ==> KeepsErrorIf(g, s, i, o.error, x)
  {
    var (s, o) := Call(g, Initial(g), m);
    InitialIsConsistent(g);
    CallKeeps(g, Initial(g), m);
    NothingActive(g, s);
    i, p := CallUnwinds(g, Initial(g), m);
    UnwoundAtThrow(g, s, m, i, p, o.error);
    EndsAre(p);
    forall x: Module ensures x in p <==> Started(x) in s.log && Finished(x) !in s.log[..i] {
      FinishedOnce(s.log, i, x);
    }
  }

  /** Each module of `c` imports the next, and the last imports the first. */
  ghost predicate IsCycle(g: Graph, c: seq<Module>) {
    c != [] && IsPath(g, c + [c[0]])
  }

  lemma CycleIsInside(g: Graph, c: seq<Module>)
    requires ValidGraph(g) && IsCycle(g, c)
    ensures forall x :: x in c ==> x < |g.bodies|
  {
    forall x | x in c ensures x < |g.bodies| {
      var j :| 0 <= j < |c| && c[j] == x;
      var p := c + [c[0]];
      assert Imports(g, p[j], p[j + 1]);
    }
  }

  /** The modules of a cycle all throw the error again exactly if all of them were on the stack when it was
      thrown: started, and none at its end. Section 16.2.1.5 of ECMA-262 asks only for the first. */
  lemma CycleSharesItsErrorIff(g: Graph, m: Module, c: seq<Module>, i: nat)
    requires ValidGraph(g) && Declared(g) && m < |g.bodies| && Call(g, Initial(g), m).1.Thrown? && IsCycle(g, c)
    requires IsThrow(g, Call(g, Initial(g), m).0.log, i)
    ensures var (s, o) := Call(g, Initial(g), m);
            && (forall x :: x in c ==> x < |s.cells|)
            && ((forall x :: x in c ==> s.cells[x].err == Some(o.error)) <==>
                (forall x :: x in c ==> Started(x) in s.log && Finished(x) !in s.log[..i]))
  {
    var (s, o) := Call(g, Initial(g), m);
    var k, p := ErrorStaysWithTheStack(g, m);
    ThrowIsOne(g, s.log, i, k);
    CycleIsInside(g, c);
    forall x | x in c ensures s.cells[x].err == Some(o.error) <==> Started(x) in s.log && Finished(x) !in s.log[..i] {
      assert KeepsErrorIf(g, s, i, o.error, x);
    }
  }

  /** A cycle that does not share its error: module 0 imports module 1, which imports module 0 back, and
      then throws. Module 1 had come to its end and stays evaluated without an error. */
  lemma CycleDoesNotShareItsError(e: Error)
    ensures var g := Graph([[Import(1), Throw(e)], [Import(0)]], [0, 0]);
            && ValidGraph(g) && IsCycle(g, [0, 1])
            && Call(g, Initial(g), 0).1 == Thrown(e)
            && Call(g, Initial(g), 0).0.log == [Started(0), Started(1), Finished(1), Finished(0)]
            && IsThrow(g, Call(g, Initial(g), 0).0.log, 3)
            && Call(g, Call(g, Initial(g), 0).0, 1).1 == Returned(Some(0))
  {
    var g := Graph([[Import(1), Throw(e)], [Import(0)]], [0, 0]);
    TwoImportEachOther(g, e);
    var s0 := Begin(Initial(g), 0);
    var s1 := Begin(s0, 1);
    assert Call(g, s1, 0) == (s1, Returned(None));
    assert Body(g, s1, 1, 1) == (s1, Returned(Some(0)));
    assert Body(g, s1, 1, 0) == (s1, Returned(Some(0)));
    var s2 := End(s1, 1, Returned(Some(0)));
    assert Call(g, s0, 1) == (s2, Returned(Some(0)));
    assert Body(g, s2, 0, 1) == (s2, Thrown(e));
    assert Body(g, s0, 0, 0) == (s2, Thrown(e));
    assert Call(g, Initial(g), 0) == (End(s2, 0, Thrown(e)), Thrown(e));
  }

  lemma TwoImportEachOther(g: Graph, e: Error)
    requires g == Graph([[Import(1), Throw(e)], [Import(0)]], [0, 0])
    ensures IsCycle(g, [0, 1])
    ensures IsThrow(g, [Started(0), Started(1), Finished(1), Finished(0)], 3)
  {
    var p: seq<Module> := [0, 1, 0];
    assert g.bodies[0][0].target == 1 && g.bodies[1][0].target == 0;
    assert Imports(g, 0, 1) && Imports(g, 1, 0);
    assert [0, 1] + [0] == p && IsPath(g, p);
    assert g.bodies[0][1].Throw? && !Throws(g, 1);
  }
}
