/** The delimited-continuation evaluator: `reset`, `shift`, `evaluate`, the
    once-only continuation `k` that `evaluate` hands to a shift block, and
    the `race` combinator built on it. */
module Continuations {
  import opened Results

  /** A suspendable computation as `evaluate` sees it: it completes with a
      value, performs an observable host effect, or yields a control record
      and waits to be resumed with a value. */
  datatype Proc<!V, E> =
    | Done(value: V)
    | Emit(effect: E, next: Proc<V, E>)
    | Yield(control: Control<V, E>, resume: V -> Proc<V, E>)

  /** The two control records, `{type: 'reset', block}` and `{type: 'shift', block}`. */
  datatype Control<!V, E> =
    | Reset(block: Proc<V, E>)
    | Shift(handler: ShiftBlock<V>)

  /** A shift block that invokes the captured continuation `k` once per element
      of `calls`, in order, and then returns `ret`. The model keeps shift blocks
      first-order; blocks that store `k` away are modelled by `Continuation`. */
  datatype ShiftBlock<V> = ShiftBlock(calls: seq<V>, ret: V)

  /** What a finished evaluation produced: its value and its effects in order. */
  datatype Run<V, E> = Run(value: V, trace: seq<E>)

  /** What the calls of a shift block received: one answer per call, and the
      effects of the rest of the program that the calls caused. */
  datatype KCalls<V, E> = KCalls(answers: seq<V>, trace: seq<E>)

  /** `reset(block)`: yields one reset record and returns what it is resumed with. */
  function ResetOf<V, E>(block: Proc<V, E>): Proc<V, E> {
    Yield(Reset(block), v => Done(v))
  }

  /** `evaluate(block)` with the identity `done`. A reset evaluates its block and
      feeds the block's value to the suspended program; a shift runs its block
      with a fresh `k` whose rest is the suspended program up to the enclosing
      reset, and the block's return value is the value of that reset. `fuel`
      bounds the number of nested steps; `None` means it ran out. */
  function Evaluate<V, E>(p: Proc<V, E>, fuel: nat): Option<Run<V, E>>
    decreases fuel, 0
  {
    if fuel == 0 then None
    else match p
      case Done(v) => Some(Run(v, []))
      case Emit(e, next) =>
        (match Evaluate(next, fuel - 1)
         case None => None
         case Some(r) => Some(Run(r.value, [e] + r.trace)))
      case Yield(Reset(block), resume) =>
        (match Evaluate(block, fuel - 1)
         case None => None
         case Some(b) =>
           (match Evaluate(resume(b.value), fuel - 1)
            case None => None
            case Some(r) => Some(Run(r.value, b.trace + r.trace))))
      case Yield(Shift(handler), resume) =>
        (match CallK(handler.calls, resume, None, fuel - 1)
         case None => None
         case Some(c) => Some(Run(handler.ret, c.trace)))
  }

  /** The calls a shift block makes on its `k`. The first call runs the rest of
      the program and caches its value; every later call answers with the cache. */
  function CallK<V, E>(calls: seq<V>, rest: V -> Proc<V, E>, cached: Option<V>, fuel: nat): Option<KCalls<V, E>>
    decreases fuel, |calls|
  {
    if calls == [] then Some(KCalls([], []))
    else if cached.Some? then
      (match CallK(calls[1..], rest, cached, fuel)
       case None => None
       case Some(c) => Some(KCalls([cached.value] + c.answers, c.trace)))
    else
      (match Evaluate(rest(calls[0]), fuel)
       case None => None
       case Some(r) =>
         (match CallK(calls[1..], rest, Some(r.value), fuel)
          case None => None
          case Some(c) => Some(KCalls([r.value] + c.answers, r.trace + c.trace))))
  }

  /** Fuel only cuts a run short: once an evaluation finishes, more fuel
      gives the same value and the same effects. */
  lemma {:induction false} EvaluateMoreFuel<V, E>(p: Proc<V, E>, fuel: nat, more: nat)
    requires Evaluate(p, fuel).Some?
    ensures Evaluate(p, fuel + more) == Evaluate(p, fuel)
    decreases fuel, 0
  {
    match p
    case Done(_) =>
    case Emit(e, next) =>
      EvaluateMoreFuel(next, fuel - 1, more);
    case Yield(Reset(block), resume) =>
      EvaluateMoreFuel(block, fuel - 1, more);
      var b := Evaluate(block, fuel - 1).value;
      EvaluateMoreFuel(resume(b.value), fuel - 1, more);
    case Yield(Shift(handler), resume) =>
      CallKMoreFuel(handler.calls, resume, None, fuel - 1, more);
  }

  /** The same for the calls of a shift block on its `k`. */
  lemma {:induction false} CallKMoreFuel<V, E>(calls: seq<V>, rest: V -> Proc<V, E>, cached: Option<V>, fuel: nat, more: nat)
    requires CallK(calls, rest, cached, fuel).Some?
    ensures CallK(calls, rest, cached, fuel + more) == CallK(calls, rest, cached, fuel)
    decreases fuel, |calls|
  {
    if calls != [] {
      if cached.Some? {
        CallKMoreFuel(calls[1..], rest, cached, fuel, more);
      } else {
        EvaluateMoreFuel(rest(calls[0]), fuel, more);
        var r := Evaluate(rest(calls[0]), fuel).value;
        CallKMoreFuel(calls[1..], rest, Some(r.value), fuel, more);
      }
    }
  }

  /** A block that completes without yielding evaluates to its own value. */
  lemma EvaluateDone<V, E>(v: V, fuel: nat)
    requires fuel >= 1
    ensures Evaluate(Proc<V, E>.Done(v), fuel) == Some(Run(v, []))
  {
  }

  /** The final value of a reset's block is fed back into the suspended program
      as the value of the reset, after the block's effects. */
  lemma ResetFeedsBack<V, E>(block: Proc<V, E>, resume: V -> Proc<V, E>, fuel: nat, b: Run<V, E>, r: Run<V, E>)
    requires Evaluate(block, fuel) == Some(b)
    requires Evaluate(resume(b.value), fuel) == Some(r)
    ensures Evaluate(Yield(Reset(block), resume), fuel + 1) == Some(Run(r.value, b.trace + r.trace))
  {
  }

  /** `yield* reset(block)` is the block itself: same value, same effects. */
  lemma ResetOfIsTransparent<V, E>(block: Proc<V, E>, fuel: nat)
    requires fuel >= 2
    ensures Evaluate(ResetOf(block), fuel) == Evaluate(block, fuel - 1)
  {
    match Evaluate(block, fuel - 1)
    case None =>
    case Some(b) =>
      assert ResetOf(block).resume(b.value) == Done(b.value);
      assert Evaluate(Proc<V, E>.Done(b.value), fuel - 1) == Some(Run(b.value, []));
      assert b.trace + [] == b.trace;
  }

  /** Every answer is `c` and nothing ran. */
  ghost predicate AllCached<V, E>(k: Option<KCalls<V, E>>, n: nat, c: V, trace: seq<E>) {
    && k.Some?
    && k.value.trace == trace
    && |k.value.answers| == n
    && forall i :: 0 <= i < n ==> k.value.answers[i] == c
  }

  /** Once `k` has run, every further call answers with the cached value and
      runs nothing. */
  lemma {:induction false} CachedCallsRunNothing<V, E>(calls: seq<V>, rest: V -> Proc<V, E>, c: V, fuel: nat)
    ensures AllCached(CallK(calls, rest, Some(c), fuel), |calls|, c, [])
  {
    if calls != [] {
      CachedCallsRunNothing(calls[1..], rest, c, fuel);
    }
  }

  /** The captured continuation runs the rest of the program at most once: its
      effects appear once however often the block calls `k`, and every call
      answers with the first call's result. */
  lemma KRunsRestOnce<V, E>(calls: seq<V>, rest: V -> Proc<V, E>, fuel: nat, r: Run<V, E>)
    requires calls != []
    requires Evaluate(rest(calls[0]), fuel) == Some(r)
    ensures AllCached(CallK(calls, rest, None, fuel), |calls|, r.value, r.trace)
  {
    CachedCallsRunNothing(calls[1..], rest, r.value, fuel);
    assert r.trace + [] == r.trace;
  }

  /** A shift whose block never calls `k` discards the rest of the reset's
      block; the block's return value becomes the value of the reset. This is
      how a suspended computation (`shift(function*() {})`) behaves. */
  lemma ShiftWithoutCallAborts<V, E>(rest: V -> Proc<V, E>, ret: V, after: V -> Proc<V, E>, fuel: nat)
    requires fuel >= 2
    ensures Evaluate(Yield(Reset(Yield(Shift(ShiftBlock([], ret)), rest)), after), fuel)
         == Evaluate(after(ret), fuel - 1)
  {
    var inner: Proc<V, E> := Yield(Shift(ShiftBlock([], ret)), rest);
    assert Evaluate(inner, fuel - 1) == Some(Run(ret, []));
    match Evaluate(after(ret), fuel - 1)
    case None =>
    case Some(r) => assert [] + r.trace == r.trace;
  }

  /** The continuation `k` of one shift: a once-only latch over the rest of
      the program. The first call runs the rest and caches its result; every
      later call returns the cache without running anything. */
  class Continuation<V> {
    /** The rest of the program up to the enclosing reset, run with the identity `done`. */
    const rest: V -> V
    var continued: bool
    var result: Option<V>
    /** How many times the rest of the program has run. */
    ghost var runs: nat
    /** The value the rest of the program was resumed with, once it has run. */
    ghost var resumedWith: Option<V>

    ghost predicate Valid()
      reads this
    {
      && runs == (if continued then 1 else 0)
      && (continued <==> resumedWith.Some?)
      && (continued ==> result == Some(rest(resumedWith.value)))
      && (!continued ==> result == None)
    }

    constructor (rest: V -> V)
      ensures Valid() && this.rest == rest
      ensures !continued && runs == 0
    {
      this.rest := rest;
      continued := false;
      result := None;
      runs := 0;
      resumedWith := None;
    }

    method Call(value: V) returns (r: V)
      requires Valid()
      modifies this
      ensures Valid() && runs <= 1 && continued
      ensures old(continued) ==> r == old(result).value && unchanged(this)
      ensures !old(continued) ==> r == rest(value) && resumedWith == Some(value) && runs == 1
    {
      if !continued {
        continued := true;
        r := rest(value);
        result := Some(r);
        runs := runs + 1;
        resumedWith := Some(value);
      } else {
        r := result.value;
      }
    }
  }

  /** How a proc behaves when `race` starts it: it completes at once with a
      result, or it suspends and may complete later. */
  datatype Start<V> = Completes(result: V) | Suspends

  /** The results of the procs that complete as soon as they are started, in
      array order. */
  function Synchronous<V>(procs: seq<Start<V>>): (r: seq<V>)
    ensures |r| <= |procs|
  {
    if procs == [] then []
    else
      var last := procs[|procs| - 1];
      Synchronous(procs[..|procs| - 1]) + (if last.Completes? then [last.result] else [])
  }

  function First<V>(s: seq<V>): Option<V> {
    if s == [] then None else Some(s[0])
  }

  lemma FirstOfAppend<V>(a: seq<V>, b: seq<V>)
    ensures First(a + b) == if a == [] then First(b) else First(a)
  {
    if a == [] { assert a + b == b; } else { assert (a + b)[0] == a[0]; }
  }

  /** No proc completes at start exactly when none of them does. */
  lemma {:induction false} SynchronousEmpty<V>(procs: seq<Start<V>>)
    ensures Synchronous(procs) == [] <==> forall i :: 0 <= i < |procs| ==> procs[i].Suspends?
  {
    if procs != [] {
      var n := |procs| - 1;
      SynchronousEmpty(procs[..n]);
      assert forall i :: 0 <= i < n ==> procs[..n][i] == procs[i];
    }
  }

  /** The first synchronous completion is that of the first proc, in array
      order, that completes as soon as it is started. */
  lemma {:induction false} FirstSynchronous<V>(procs: seq<Start<V>>, v: V)
    ensures First(Synchronous(procs)) == Some(v) <==>
              exists i :: 0 <= i < |procs| && procs[i] == Completes(v) && forall j :: 0 <= j < i ==> procs[j].Suspends?
  {
    if procs != [] {
      var n := |procs| - 1;
      var init := procs[..n];
      var last := procs[n];
      var tail := if last.Completes? then [last.result] else [];
      assert Synchronous(procs) == Synchronous(init) + tail;
      FirstOfAppend(Synchronous(init), tail);
      FirstSynchronous(init, v);
      SynchronousEmpty(init);
      assert forall i :: 0 <= i < n ==> init[i] == procs[i];
      if Synchronous(init) != [] {
        if exists i :: 0 <= i < |procs| && procs[i] == Completes(v) && forall j :: 0 <= j < i ==> procs[j].Suspends? {
          var i :| 0 <= i < |procs| && procs[i] == Completes(v) && forall j :: 0 <= j < i ==> procs[j].Suspends?;
          if i < n {
            assert init[i] == Completes(v);
          }
        }
      }
    }
  }

  /** `race(procs)`: starts every proc in array order and resumes the rest of
      the program with the first completion, where completions happen first
      for the procs that complete as soon as they start (in array order), then
      as `later` lists them. `outcome` is what the rest of the program produced.
      Every proc is started even after one has won, the rest of the program
      runs at most once, and later completions are ignored. */
  method Race<V>(procs: seq<Start<V>>, later: seq<V>, rest: V -> V)
    returns (outcome: Option<V>, started: nat, ghost winner: Option<V>, ghost runs: nat)
    ensures started == |procs|
    ensures winner == First(Synchronous(procs) + later)
    ensures outcome == if winner.Some? then Some(rest(winner.value)) else None
    ensures runs <= 1
  {
    var k := new Continuation(rest);
    started := 0;
    while started < |procs|
      invariant started <= |procs|
      invariant k.Valid() && k.rest == rest
      invariant k.resumedWith == First(Synchronous(procs[..started]))
    {
      assert procs[..started + 1][..started] == procs[..started];
      FirstOfAppend(Synchronous(procs[..started]), if procs[started].Completes? then [procs[started].result] else []);
      if procs[started].Completes? {
        var _ := k.Call(procs[started].result);
      }
      started := started + 1;
    }
    assert procs[..started] == procs;
    var j := 0;
    while j < |later|
      invariant j <= |later|
      invariant k.Valid() && k.rest == rest
      invariant k.resumedWith == First(Synchronous(procs) + later[..j])
    {
      assert later[..j + 1] == later[..j] + [later[j]];
      assert Synchronous(procs) + later[..j + 1] == (Synchronous(procs) + later[..j]) + [later[j]];
      FirstOfAppend(Synchronous(procs) + later[..j], [later[j]]);
      var _ := k.Call(later[j]);
      j := j + 1;
    }
    assert later[..j] == later;
    outcome := k.result;
    winner := k.resumedWith;
    runs := k.runs;
  }
}
