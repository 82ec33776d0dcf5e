/** `using` declarations of bundled code: `__using` and `__callDispose` in src/runtime.bun.js. */
module Disposal {
  import opened Lists

  /** `SuppressedError(error, suppressed, …)`, or anything else that is thrown. */
  datatype Error = Thrown(code: int) | TypeError(message: string) | Suppressed(error: Error, suppressed: Error)

  /** What becomes of the promise that a disposer returned. */
  datatype Promise = Fulfills | Rejects(error: Error)

  datatype Behaviour = Throws(error: Error) | Returns(result: Promise)

  /** A property that may hold a disposer. */
  datatype Property = Undefined | NotAFunction | Method(behaviour: Behaviour)

  /** A value that is declared with `using`. */
  datatype Value = Nullish | Primitive | Resource(id: nat, asyncDispose: Property, dispose: Property)

  /** An element of the stack: `[async, dispose, value]`, or `[async]` without a disposer. */
  datatype Entry = Entry(async: bool, disposer: Option<Behaviour>, id: nat)

  // ---------- registration ----------

  datatype Registered = Pushed(entries: seq<Entry>) | Refused(error: Error)

  /** What `__using` pushes for a declaration, or throws. */
  function Register(value: Value, async: bool): Registered {
    match value
    case Nullish => Pushed(if async then [Entry(true, None, 0)] else [])
    case Primitive => Refused(TypeError("Object expected to be assigned to \"using\" declaration"))
    case Resource(id, asyncDispose, dispose) =>
      var found := if async && asyncDispose != Undefined then asyncDispose else dispose;
      if found.Method? then Pushed([Entry(async, Some(found.behaviour), id)])
      else Refused(TypeError("Object not disposable"))
  }

  /** `await using` takes the async disposer where there is one and the plain one otherwise; `using` never looks at
      the async one. What is found must be a function. The entry remembers which of the two declared it. */
  lemma AsyncGoesFirst(id: nat, b: Behaviour, c: Behaviour)
    ensures Register(Resource(id, Method(b), Method(c)), true) == Pushed([Entry(true, Some(b), id)])
    ensures Register(Resource(id, Method(b), Method(c)), false) == Pushed([Entry(false, Some(c), id)])
    ensures Register(Resource(id, Undefined, Method(c)), true) == Pushed([Entry(true, Some(c), id)])
    ensures Register(Resource(id, Method(b), Undefined), false).Refused?
    ensures Register(Resource(id, NotAFunction, Method(c)), true).Refused?
    ensures Register(Nullish, true) == Pushed([Entry(true, None, 0)]) && Register(Nullish, false) == Pushed([])
    ensures Register(Primitive, true).Refused? && Register(Primitive, false).Refused?
  {}

  // ---------- the reference ----------

  /** The error that disposing an entry adds. A promise is looked at only where the entry is async. */
  function ErrorOf(it: Entry): Option<Error> {
    match it.disposer
    case None => None
    case Some(Throws(e)) => Some(e)
    case Some(Returns(Rejects(e))) => if it.async then Some(e) else None
    case Some(Returns(Fulfills)) => None
  }

  /** A new error suppresses the one before. */
  function Nest(previous: Option<Error>, e: Option<Error>): Option<Error> {
    if e.None? then previous
    else if previous.None? then e
    else Some(Suppressed(e.value, previous.value))
  }

  /** The error after disposing the whole stack, last entry first. */
  function Fold(stack: seq<Entry>, error: Option<Error>): Option<Error> {
    if stack == [] then error
    else Fold(stack[..|stack| - 1], Nest(error, ErrorOf(stack[|stack| - 1])))
  }

  function CallOf(it: Entry): seq<nat> {
    if it.disposer.Some? then [it.id] else []
  }

  /** The resources of the stack whose disposer is called, in the order of the calls. */
  function Calls(stack: seq<Entry>): seq<nat> {
    if stack == [] then []
    else CallOf(stack[|stack| - 1]) + Calls(stack[..|stack| - 1])
  }

  /** Disposing the entry suspends: its disposer did not throw, and the entry is async. */
  predicate Awaits(it: Entry) {
    it.async && (it.disposer.Some? ==> it.disposer.value.Returns?)
  }

  /** One resource that a block disposes: what its disposer throws, or its promise is rejected with where the block
      awaits it, becomes the error, or suppresses the one there is. */
  lemma OneDisposed(id: nat, b: Behaviour, async: bool, previous: Option<Error>)
    ensures Fold([Entry(async, Some(b), id)], previous) ==
            match b
            case Throws(e) => Some(if previous.None? then e else Suppressed(e, previous.value))
            case Returns(Rejects(e)) =>
              if !async then previous else Some(if previous.None? then e else Suppressed(e, previous.value))
            case Returns(Fulfills) => previous
  {
    assert [Entry(async, Some(b), id)][..0] == [];
  }

  // ---------- the machine ----------

  /** `next` either returned a promise that continues when `promise` settles, or came to its end. */
  datatype Suspension = Waits(promise: Promise) | Ends(error: Option<Error>)

  /** The error after `promise` has settled. */
  function Settled(error: Option<Error>, promise: Promise): Option<Error> {
    Nest(error, if promise.Rejects? then Some(promise.error) else None)
  }

  /** `stack`, `error` and `calls` lead to the same end as `all`, `e0` and `c0`. */
  ghost predicate Partly(all: seq<Entry>, e0: Option<Error>, c0: seq<nat>, stack: seq<Entry>, error: Option<Error>, calls: seq<nat>) {
    stack <= all && calls + Calls(stack) == c0 + Calls(all) && Fold(stack, error) == Fold(all, e0)
  }

  ghost predicate NoneAwaits(all: seq<Entry>, n: nat) {
    forall i :: n <= i < |all| ==> !Awaits(all[i])
  }

  lemma PartlyNext(all: seq<Entry>, e0: Option<Error>, c0: seq<nat>, stack: seq<Entry>, error: Option<Error>, calls: seq<nat>)
    requires Partly(all, e0, c0, stack, error, calls) && stack != []
    ensures var (rest, it) := (stack[..|stack| - 1], stack[|stack| - 1]);
            Partly(all, e0, c0, rest, Nest(error, ErrorOf(it)), calls + CallOf(it)) && all[|stack| - 1] == it
  {
    var rest, it := stack[..|stack| - 1], stack[|stack| - 1];
    Regroup(calls, CallOf(it), Calls(rest));
  }

  /** The variables of one `__callDispose`. */
  class Dispose {
    var stack: seq<Entry>
    var error: Option<Error>
    ghost var calls: seq<nat>

    constructor (stack: seq<Entry>, error: Option<Error>)
      ensures this.stack == stack && this.error == error && calls == []
    {
      this.stack, this.error, calls := stack, error, [];
    }

    /** `fail`; `hasError` is whether there is an error. */
    method Fail(e: Error)
      modifies this`error
      ensures error == Nest(old(error), Some(e))
    {
      error := if error.Some? then Some(Suppressed(e, error.value)) else Some(e);
    }

    /** One entry: its disposer is called and an error is taken up, unless a promise is to be awaited. */
    method Pop() returns (awaited: Option<Promise>)
      requires stack != []
      modifies this
      ensures var it := old(stack)[|old(stack)| - 1];
              && stack == old(stack)[..|old(stack)| - 1] && calls == old(calls) + CallOf(it)
              && (awaited.Some? <==> Awaits(it))
              && (if awaited.Some? then Settled(error, awaited.value) else error) == Nest(old(error), ErrorOf(it))
    {
      var it := stack[|stack| - 1];
      stack := stack[..|stack| - 1];
      calls := calls + CallOf(it);
      var result := Fulfills;
      if it.disposer.Some? {
        if it.disposer.value.Throws? {
          Fail(it.disposer.value.error);
          return None;
        }
        result := it.disposer.value.result;
      }
      awaited := if it.async then Some(result) else None;
    }

    /** `next`, up to the first promise that it waits for. */
    method Next() returns (s: Suspension)
      modifies this
      ensures calls + Calls(stack) == old(calls) + Calls(old(stack))
      ensures s.Waits? ==> |stack| < |old(stack)| && stack <= old(stack)
      ensures s.Waits? ==> Fold(old(stack), old(error)) == Fold(stack, Settled(error, s.promise))
      ensures s.Waits? ==> exists i :: |stack| <= i < |old(stack)| && Awaits(old(stack)[i])
      ensures s.Ends? ==> stack == [] && s.error == error == Fold(old(stack), old(error))
      ensures s.Ends? ==> forall i :: 0 <= i < |old(stack)| ==> !Awaits(old(stack)[i])
      decreases |stack|
    {
      ghost var all, e0, c0 := stack, error, calls;
      while stack != []
        invariant Partly(all, e0, c0, stack, error, calls)
        invariant NoneAwaits(all, |stack|)
        decreases |stack|
      {
        ghost var before := |stack|;
        PartlyNext(all, e0, c0, stack, error, calls);
        var awaited := Pop();
        if awaited.Some? {
          return Waits(awaited.value);
        }
        assert NoneAwaits(all, before - 1);
      }
      s := Ends(error);
    }

    /** `__callDispose`, with the reactions of the promises that it waits for: `then(next, e => (fail(e), next()))`. */
    method Run() returns (r: Option<Error>, throwsAtOnce: bool)
      modifies this
      ensures r == Fold(old(stack), old(error))
      ensures calls == old(calls) + Calls(old(stack))
      ensures throwsAtOnce <==> r.Some? && forall i :: 0 <= i < |old(stack)| ==> !Awaits(old(stack)[i])
    {
      var s := Next();
      throwsAtOnce := s.Ends? && s.error.Some?;
      while s.Waits?
        invariant calls + Calls(stack) == old(calls) + Calls(old(stack))
        invariant s.Waits? ==> Fold(old(stack), old(error)) == Fold(stack, Settled(error, s.promise))
        invariant s.Ends? ==> stack == [] && s.error == Fold(old(stack), old(error))
        decreases |stack|, s.Waits?
      {
        if s.promise.Rejects? {
          Fail(s.promise.error);
        }
        s := Next();
      }
      r := s.error;
    }
  }

  // ---------- what the reference says ----------

  function Reverse<T>(s: seq<T>): seq<T> {
    if s == [] then [] else [s[|s| - 1]] + Reverse(s[..|s| - 1])
  }

  /** The resources on the stack, in the order in which they were registered. */
  function Resources(stack: seq<Entry>): seq<nat> {
    if stack == [] then []
    else (if stack[0].disposer.Some? then [stack[0].id] else []) + Resources(stack[1..])
  }

  lemma ResourcesFirst(it: Entry, rest: seq<Entry>)
    ensures Resources([it] + rest) == (if it.disposer.Some? then [it.id] else []) + Resources(rest)
  {
    assert ([it] + rest)[1..] == rest;
  }

  lemma {:induction false} ResourcesAppend(stack: seq<Entry>, it: Entry)
    ensures Resources(stack + [it]) == Resources(stack) + if it.disposer.Some? then [it.id] else []
  {
    if stack == [] {
      assert stack + [it] == [it] + [];
      ResourcesFirst(it, []);
    } else {
      var first, rest := stack[0], stack[1..];
      assert stack + [it] == [first] + (rest + [it]);
      ResourcesFirst(first, rest + [it]);
      ResourcesAppend(rest, it);
      Regroup(if first.disposer.Some? then [first.id] else [], Resources(rest), if it.disposer.Some? then [it.id] else []);
    }
  }

  /** Every disposer on the stack is called once, in the reverse of the order of registration. */
  lemma {:induction false} CallsReverseRegistration(stack: seq<Entry>)
    ensures Calls(stack) == Reverse(Resources(stack))
  {
    if stack != [] {
      var init, it := stack[..|stack| - 1], stack[|stack| - 1];
      assert stack == init + [it];
      CallsReverseRegistration(init);
      ResourcesAppend(init, it);
      if it.disposer.Some? {
        assert (Resources(init) + [it.id])[..|Resources(init)|] == Resources(init);
      } else {
        assert Resources(init) + [] == Resources(init);
      }
    }
  }

  /** All errors of the disposal, in the order in which they happen. */
  function Errors(stack: seq<Entry>): seq<Error> {
    if stack == [] then []
    else
      var e := ErrorOf(stack[|stack| - 1]);
      (if e.Some? then [e.value] else []) + Errors(stack[..|stack| - 1])
  }

  /** The first of the errors, wrapped by each later one. */
  function Wrapped(errors: seq<Error>): Error
    requires errors != []
  {
    if |errors| == 1 then errors[0] else Suppressed(errors[|errors| - 1], Wrapped(errors[..|errors| - 1]))
  }

  lemma {:induction false} WrapFirst(errors: seq<Error>)
    requires |errors| >= 2
    ensures Wrapped(errors) == Wrapped([Suppressed(errors[1], errors[0])] + errors[2..])
  {
    if |errors| == 2 {
      assert errors[..1] == [errors[0]];
    } else {
      var init := errors[..|errors| - 1];
      var merged := [Suppressed(errors[1], errors[0])] + errors[2..];
      WrapFirst(init);
      assert merged[..|merged| - 1] == [Suppressed(init[1], init[0])] + init[2..];
    }
  }

  /** `__callDispose` ends with an error exactly when there was one to begin with or some disposal
      failed, and that error nests all of them, the latest outermost; none is lost. */
  lemma {:induction false} FoldWrapsAllErrors(stack: seq<Entry>, error: Option<Error>)
    ensures var all := (if error.Some? then [error.value] else []) + Errors(stack);
            Fold(stack, error) == if all == [] then None else Some(Wrapped(all))
  {
    if stack != [] {
      var init, e := stack[..|stack| - 1], ErrorOf(stack[|stack| - 1]);
      FoldWrapsAllErrors(init, Nest(error, e));
      var first := if error.Some? then [error.value] else [];
      if e.Some? && error.Some? {
        var all := first + ([e.value] + Errors(init));
        WrapFirst(all);
        assert [Suppressed(all[1], all[0])] + all[2..] == [Suppressed(e.value, error.value)] + Errors(init);
      } else if e.Some? {
        assert first + ([e.value] + Errors(init)) == [e.value] + Errors(init);
      } else {
        assert first + ([] + Errors(init)) == first + Errors(init);
      }
    }
  }

  // ---------- a block with several declarations ----------

  datatype Declaration = Declaration(value: Value, async: bool)

  /** The stack after the declarations, up to the first that throws. */
  function RegisterAll(ds: seq<Declaration>): (seq<Entry>, Option<Error>) {
    if ds == [] then ([], None)
    else
      var (stack, error) := RegisterAll(ds[..|ds| - 1]);
      if error.Some? then (stack, error)
      else match Register(ds[|ds| - 1].value, ds[|ds| - 1].async)
           case Pushed(entries) => (stack + entries, None)
           case Refused(e) => (stack, Some(e))
  }

  /** The resources that were declared before the first declaration that is refused. */
  function Accepted(ds: seq<Declaration>): seq<nat> {
    if ds == [] || Register(ds[0].value, ds[0].async).Refused? then []
    else (if ds[0].value.Resource? then [ds[0].value.id] else []) + Accepted(ds[1..])
  }

  ghost predicate AllAccepted(ds: seq<Declaration>) {
    forall i :: 0 <= i < |ds| ==> !Register(ds[i].value, ds[i].async).Refused?
  }

  lemma AllAcceptedFirst(ds: seq<Declaration>)
    requires ds != []
    ensures AllAccepted(ds) <==> !Register(ds[0].value, ds[0].async).Refused? && AllAccepted(ds[1..])
  {
    assert forall i :: 1 <= i < |ds| ==> ds[i] == ds[1..][i - 1];
  }

  lemma {:induction false} AcceptedAppend(ds: seq<Declaration>, d: Declaration)
    ensures Accepted(ds + [d]) == Accepted(ds) +
      if AllAccepted(ds) && !Register(d.value, d.async).Refused? && d.value.Resource? then [d.value.id] else []
  {
    if ds == [] {
      assert ds + [d] == [d];
    } else {
      assert (ds + [d])[1..] == ds[1..] + [d];
      AcceptedAppend(ds[1..], d);
      AllAcceptedFirst(ds);
    }
  }

  /** The stack holds the accepted resources in the order of their declarations. */
  lemma {:induction false} StackHoldsAccepted(ds: seq<Declaration>)
    ensures Resources(RegisterAll(ds).0) == Accepted(ds)
    ensures RegisterAll(ds).1 == None <==> AllAccepted(ds)
  {
    if ds != [] {
      var init, d := ds[..|ds| - 1], ds[|ds| - 1];
      assert ds == init + [d];
      StackHoldsAccepted(init);
      AcceptedAppend(init, d);
      var (stack, error) := RegisterAll(init);
      match Register(d.value, d.async)
      case Refused(_) =>
      case Pushed(entries) =>
        if entries == [] {
          assert stack + entries == stack;
        } else {
          assert entries == [entries[0]];
          ResourcesAppend(stack, entries[0]);
        }
    }
  }

  /** Whatever the declarations are and however their disposers behave, a block disposes each
      resource that it accepted once, last declared first. */
  method RunBlock(ds: seq<Declaration>, bodyError: Option<Error>) returns (r: Option<Error>, ghost calls: seq<nat>)
    ensures calls == Reverse(Accepted(ds))
    ensures var (stack, refused) := RegisterAll(ds);
            r == Fold(stack, if refused.Some? then refused else bodyError)
  {
    var (stack, refused) := RegisterAll(ds);
    StackHoldsAccepted(ds);
    CallsReverseRegistration(stack);
    var dispose := new Dispose(stack, if refused.Some? then refused else bodyError);
    var atOnce;
    r, atOnce := dispose.Run();
    calls := dispose.calls;
  }
}
