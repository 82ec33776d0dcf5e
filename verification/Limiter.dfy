/** The concurrency limiter of scripts/runner.node.ts, `createLimit`, and its protocol: calls arrive
    and tasks settle in any order, and a slot that becomes free is handed to the next in line. */
module Limiter {
  import opened Lists

  /** A call waits in line, holds a slot but has not been resumed yet, runs its function, or is through. */
  datatype Phase = Queued | Granted | Executing | Settled

  /** `tasks[id]` is the phase of the call that came as number `id`; `granted` lists the calls in the
      order in which they got a slot. */
  datatype State = State(running: int, waiting: seq<nat>, tasks: seq<Phase>, granted: seq<nat>)

  const START := State(0, [], [], [])

  /** A new call runs up to its function or up to the promise that it awaits. */
  function Called(c: int, s: State): State {
    var id := |s.tasks|;
    if s.running < c then State(s.running + 1, s.waiting, s.tasks + [Executing], s.granted + [id])
    else State(s.running, s.waiting + [id], s.tasks + [Queued], s.granted)
  }

  /** A call whose promise was resolved runs its function. */
  function Resumed(s: State, id: nat): State
    requires id < |s.tasks|
  {
    s.(tasks := s.tasks[id := Executing])
  }

  /** The function of a call has resolved or rejected: its slot goes to the next in line. */
  function Left(s: State, id: nat): State
    requires id < |s.tasks|
    requires s.waiting != [] ==> s.waiting[0] < |s.tasks|
  {
    var tasks := s.tasks[id := Settled];
    if s.waiting == [] then State(s.running - 1, [], tasks, s.granted)
    else State(s.running, s.waiting[1..], tasks[s.waiting[0] := Granted], s.granted + [s.waiting[0]])
  }

  datatype Event = Call | Resume(id: nat) | Settle(id: nat)

  predicate Enabled(s: State, e: Event) {
    match e
    case Call => true
    case Resume(id) => id < |s.tasks| && s.tasks[id] == Granted
    case Settle(id) => id < |s.tasks| && s.tasks[id] == Executing && (s.waiting != [] ==> s.waiting[0] < |s.tasks|)
  }

  function Step(c: int, s: State, e: Event): State
    requires Enabled(s, e)
  {
    match e
    case Call => Called(c, s)
    case Resume(id) => Resumed(s, id)
    case Settle(id) => Left(s, id)
  }

  /** The variables that the function returned by `createLimit` closes over. */
  class Limit {
    const concurrency: int
    var running: int
    var waiting: seq<nat>

    ghost predicate Shows(s: State)
      reads this
    {
      running == s.running && waiting == s.waiting
    }

    constructor (concurrency: int)
      ensures this.concurrency == concurrency && Shows(START)
    {
      this.concurrency := concurrency;
      running, waiting := 0, [];
    }

    /** A call, up to the point where it runs its function or waits. */
    method Enter(id: nat, ghost s: State) returns (starts: bool)
      requires Shows(s) && id == |s.tasks|
      modifies this
      ensures Shows(Called(concurrency, s))
      ensures Called(concurrency, s).tasks == s.tasks + [if starts then Executing else Queued]
    {
      if running < concurrency {
        running := running + 1;
        starts := true;
      } else {
        waiting := waiting + [id];
        starts := false;
      }
    }

    /** The `finally` of a call whose function has settled. */
    method Leave(id: nat, ghost s: State) returns (next: Option<nat>)
      requires Shows(s) && Enabled(s, Settle(id))
      modifies this
      ensures Shows(Left(s, id))
      ensures Left(s, id).granted == s.granted + match next case None => [] case Some(n) => [n]
    {
      if waiting != [] {
        next := Some(waiting[0]);
        waiting := waiting[1..];
      } else {
        next := None;
        running := running - 1;
      }
    }
  }

  // ---------- runs ----------

  /** `s'` is reached from `s` by the events `es`. */
  ghost predicate Reaches(c: int, s: State, es: seq<Event>, s': State)
    decreases |es|
  {
    if es == [] then s == s'
    else Enabled(s, es[0]) && Reaches(c, Step(c, s, es[0]), es[1..], s')
  }

  function Count(tasks: seq<Phase>, p: Phase): nat {
    if tasks == [] then 0 else Count(tasks[1..], p) + if tasks[0] == p then 1 else 0
  }

  /** What every step keeps. */
  ghost predicate Valid(c: int, s: State) {
    // `running` counts the slots that are held, and never exceeds the concurrency
    && s.running == Count(s.tasks, Granted) + Count(s.tasks, Executing)
    && (s.running <= c || s.running == 0)
    // slots were granted in the order of the calls, and the rest wait in that order
    && |s.granted| + |s.waiting| == |s.tasks|
    && (forall i :: 0 <= i < |s.granted| ==> s.granted[i] == i)
    && (forall i :: 0 <= i < |s.waiting| ==> s.waiting[i] == |s.granted| + i)
    && (forall id :: 0 <= id < |s.tasks| ==> (s.tasks[id] == Queued <==> id >= |s.granted|))
    // nobody waits while a slot is free
    && (s.waiting != [] ==> s.running >= c)
  }

  lemma {:induction false} CountAppend(tasks: seq<Phase>, x: Phase, p: Phase)
    ensures Count(tasks + [x], p) == Count(tasks, p) + if x == p then 1 else 0
  {
    if tasks == [] {
      assert tasks + [x] == [x];
    } else {
      assert (tasks + [x])[1..] == tasks[1..] + [x];
      CountAppend(tasks[1..], x, p);
    }
  }

  lemma {:induction false} CountUpdate(tasks: seq<Phase>, id: nat, x: Phase, p: Phase)
    requires id < |tasks|
    ensures Count(tasks[id := x], p) ==
            Count(tasks, p) + (if x == p then 1 else 0) - (if tasks[id] == p then 1 else 0)
  {
    if id == 0 {
      assert tasks[0 := x][1..] == tasks[1..];
    } else {
      assert tasks[id := x][1..] == tasks[1..][id - 1 := x];
      CountUpdate(tasks[1..], id - 1, x, p);
    }
  }

  lemma {:induction false} CountNone(tasks: seq<Phase>, p: Phase)
    ensures Count(tasks, p) == 0 <==> p !in tasks
    ensures Count(tasks, p) <= |tasks|
  {
    if tasks != [] {
      assert tasks == [tasks[0]] + tasks[1..];
      CountNone(tasks[1..], p);
    }
  }

  lemma CountAfterCall(s: State, x: Phase)
    ensures forall p :: Count(s.tasks + [x], p) == Count(s.tasks, p) + if x == p then 1 else 0
  {
    forall p ensures Count(s.tasks + [x], p) == Count(s.tasks, p) + if x == p then 1 else 0 {
      CountAppend(s.tasks, x, p);
    }
  }

  lemma StepCounts(c: int, s: State, e: Event)
    requires Valid(c, s) && Enabled(s, e)
    ensures var s' := Step(c, s, e);
            s'.running - s.running == Count(s'.tasks, Granted) + Count(s'.tasks, Executing)
                                      - Count(s.tasks, Granted) - Count(s.tasks, Executing)
  {
    match e
    case Call =>
      CountAfterCall(s, Queued);
      CountAfterCall(s, Executing);
    case Resume(id) =>
      CountUpdate(s.tasks, id, Executing, Granted);
      CountUpdate(s.tasks, id, Executing, Executing);
    case Settle(id) =>
      CountUpdate(s.tasks, id, Settled, Granted);
      CountUpdate(s.tasks, id, Settled, Executing);
      if s.waiting != [] {
        var tasks := s.tasks[id := Settled];
        CountUpdate(tasks, s.waiting[0], Granted, Granted);
        CountUpdate(tasks, s.waiting[0], Granted, Executing);
      }
  }

  lemma StepKeepsValid(c: int, s: State, e: Event)
    requires Valid(c, s) && Enabled(s, e)
    ensures Valid(c, Step(c, s, e))
  {
    StepCounts(c, s, e);
    if e.Settle? { CountNone(s.tasks, Executing); }
  }

  /** Safety: the invariant holds after every run. */
  lemma {:induction false} RunKeepsValid(c: int, s: State, es: seq<Event>, s': State)
    requires Valid(c, s) && Reaches(c, s, es, s')
    ensures Valid(c, s')
    decreases |es|
  {
    if es != [] {
      StepKeepsValid(c, s, es[0]);
      RunKeepsValid(c, Step(c, s, es[0]), es[1..], s');
    }
  }

  /** In every run from the start: at most `c` slots are held, all of them while somebody waits, and
      they are granted in the order of the calls. */
  lemma LimitIsKept(c: int, es: seq<Event>, s: State)
    requires c >= 0 && Reaches(c, START, es, s)
    ensures 0 <= Count(s.tasks, Granted) + Count(s.tasks, Executing) == s.running <= c
    ensures s.waiting != [] ==> s.running == c
    ensures forall i :: 0 <= i < |s.granted| ==> s.granted[i] == i
    ensures forall id :: 0 <= id < |s.tasks| ==> (s.tasks[id] != Queued <==> id < |s.granted|)
  {
    RunKeepsValid(c, START, es, s);
  }

  // ---------- progress ----------

  function Settles(es: seq<Event>): nat {
    if es == [] then 0 else Settles(es[1..]) + if es[0].Settle? then 1 else 0
  }

  /** A call that has k others before it in line gets its slot with the (k+1)-st task that settles:
      every settling task lets one more call in, as long as one waits. */
  lemma {:induction false} GrantsFollowSettles(c: int, s: State, es: seq<Event>, s': State, id: nat)
    requires Valid(c, s) && Reaches(c, s, es, s')
    requires id < |s.tasks| && Settles(es) >= id + 1 - |s.granted|
    ensures id < |s'.tasks| && s'.tasks[id] != Queued
    decreases |es|
  {
    if es != [] {
      StepKeepsValid(c, s, es[0]);
      GrantsFollowSettles(c, Step(c, s, es[0]), es[1..], s', id);
    }
  }

  /** No started task is unfinished. */
  ghost predicate Quiescent(s: State) {
    forall id :: 0 <= id < |s.tasks| ==> s.tasks[id] != Granted && s.tasks[id] != Executing
  }

  /** How many more resumptions and settlements the calls so far can take. */
  ghost function Remaining(s: State): nat {
    3 * Count(s.tasks, Queued) + 2 * Count(s.tasks, Granted) + Count(s.tasks, Executing)
  }

  lemma StepUsesUp(c: int, s: State, e: Event)
    requires Valid(c, s) && Enabled(s, e) && !e.Call?
    ensures Remaining(Step(c, s, e)) < Remaining(s)
  {
    match e
    case Resume(id) =>
      CountUpdate(s.tasks, id, Executing, Queued);
      CountUpdate(s.tasks, id, Executing, Granted);
      CountUpdate(s.tasks, id, Executing, Executing);
    case Settle(id) =>
      CountUpdate(s.tasks, id, Settled, Queued);
      CountUpdate(s.tasks, id, Settled, Granted);
      CountUpdate(s.tasks, id, Settled, Executing);
      if s.waiting != [] {
        var tasks := s.tasks[id := Settled];
        assert tasks[s.waiting[0]] == Queued;
        CountUpdate(tasks, s.waiting[0], Granted, Queued);
        CountUpdate(tasks, s.waiting[0], Granted, Granted);
        CountUpdate(tasks, s.waiting[0], Granted, Executing);
      }
  }

  ghost predicate NoCalls(es: seq<Event>) {
    forall i :: 0 <= i < |es| ==> !es[i].Call?
  }

  /** Without new calls a run ends. */
  lemma {:induction false} RunsEnd(c: int, s: State, es: seq<Event>, s': State)
    requires Valid(c, s) && Reaches(c, s, es, s') && NoCalls(es)
    ensures |es| + Remaining(s') <= Remaining(s)
    decreases |es|
  {
    if es != [] {
      StepKeepsValid(c, s, es[0]);
      StepUsesUp(c, s, es[0]);
      RunsEnd(c, Step(c, s, es[0]), es[1..], s');
    }
  }

  /** Once the started tasks have settled, every call has been let in and is through. */
  lemma QuiescenceIsCompletion(c: int, s: State)
    requires c >= 1 && Valid(c, s) && Quiescent(s)
    ensures forall id :: 0 <= id < |s.tasks| ==> s.tasks[id] == Settled
  {
    CountNone(s.tasks, Granted);
    CountNone(s.tasks, Executing);
  }

  /** The limiter lets every call in: whenever no started task is unfinished, no call waits. */
  ghost predicate LetsEveryCallIn(c: int) {
    forall es, s :: Reaches(c, START, es, s) && Quiescent(s) ==> forall id :: 0 <= id < |s.tasks| ==> s.tasks[id] == Settled
  }

  /** It does so exactly for a concurrency of at least 1: otherwise the first call waits forever. */
  lemma ConcurrencyMustBePositive(c: int)
    ensures LetsEveryCallIn(c) <==> c >= 1
  {
    if c >= 1 {
      forall es, s | Reaches(c, START, es, s) && Quiescent(s)
        ensures forall id :: 0 <= id < |s.tasks| ==> s.tasks[id] == Settled
      {
        RunKeepsValid(c, START, es, s);
        QuiescenceIsCompletion(c, s);
      }
    } else {
      var s := Called(c, START);
      assert Reaches(c, s, [], s);
      assert [Call][1..] == [];
      assert Reaches(c, START, [Call], s);
      assert Quiescent(s) && s.tasks[0] == Queued;
    }
  }
}
