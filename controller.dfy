/** The task controller: how `run` classifies an operation and drives it to a
    settled result, and what `halt()` on the resulting task does. */
module Controllers {
  import opened Results
  import opened Futures

  /** What the controller asks of an operation function's generator:
      `next()`, `next(value)`, `return()` or `throw(error)`. */
  datatype Action<V> = Start | Next(value: V) | Return | Throw(error: Exception)

  /** What a generator does when asked: yields a sub-operation, completes with
      a value, or lets an exception escape. */
  datatype Response<!V> = Yielded(operation: Operation<V>) | Completed(value: V) | Raised(error: Exception)

  /** A generator, as the function from the actions it has received so far
      (the last one being the current request) to its response. */
  type Generator<!V> = seq<Action<V>> -> Response<V>

  /** Calling an operation function either constructs its generator or throws. */
  datatype Body<!V> = Constructs(generator: Generator<V>) | ThrowsOnCall(exception: Exception)

  /** The three kinds of operation: a future (given by its result so far), an
      operation function, or an operator whose capability holds another operation. */
  datatype Operation<!V> = Fut(settled: Option<Result<V>>) | Fn(body: Body<V>) | Op(delegate: Operation<V>)

  /** The controller `createController` builds. */
  datatype Controller<!V> = FutureController(settled: Option<Result<V>>) | GeneratorController(body: Body<V>)

  /** `createController`: an operator is unwrapped and classified again; a
      future gets the future controller; anything else is an operation function. */
  function Classify<V>(op: Operation<V>): Controller<V> {
    match op
    case Op(inner) => Classify(inner)
    case Fut(settled) => FutureController(settled)
    case Fn(body) => GeneratorController(body)
  }

  /** `op` wrapped in `n` operators. */
  function Delegated<V>(op: Operation<V>, n: nat): (r: Operation<V>)
    ensures n > 0 ==> r.Op?
  {
    if n == 0 then op else Op(Delegated(op, n - 1))
  }

  /** However deeply an operation is wrapped in operators, it gets the
      controller of the operation inside. */
  lemma {:induction false} ClassifyIgnoresDelegation<V>(op: Operation<V>, n: nat)
    ensures Classify(Delegated(op, n)) == Classify(op)
  {
    if n > 0 {
      ClassifyIgnoresDelegation(op, n - 1);
    }
  }

  /** The `TypeError` a call of a non-function raises. */
  const NotCallable: Exception := Exception("operation is not a function")

  /** `createController` as written: `isFuture` (scope.ts:144-146) compares
      the future's tag with `Future`, but every future is tagged
      `[object Future]` (future.ts:69), so a future is never recognised and
      goes to the generator controller, where calling it throws. Every
      operation ends up with the generator controller. */
  function ClassifyAsWritten<V>(op: Operation<V>): (c: Controller<V>)
    ensures c.GeneratorController?
    ensures op.Fut? ==> c.body == ThrowsOnCall(NotCallable)
  {
    match op
    case Op(inner) => ClassifyAsWritten(inner)
    case Fut(_) => GeneratorController(ThrowsOnCall(NotCallable))
    case Fn(body) => GeneratorController(body)
  }

  /** The two classifications agree on everything but futures. */
  lemma {:induction false} ClassifyAsWrittenAgreesOffFutures<V>(op: Operation<V>, n: nat)
    requires op.Fn?
    ensures ClassifyAsWritten(Delegated(op, n)) == Classify(Delegated(op, n))
  {
    if n > 0 {
      ClassifyAsWrittenAgreesOffFutures(op, n - 1);
    }
  }

  /** The exception `run` throws for an operation with controller `c`, if any:
      calling the operation function failed. */
  function RunFails<V>(c: Controller<V>): (e: Option<Exception>)
    ensures e.Some? <==> c.GeneratorController? && c.body.ThrowsOnCall?
  {
    if c.GeneratorController? && c.body.ThrowsOnCall? then Some(c.body.exception) else None
  }

  /** What a task does on the events that reach it while it is suspended.
      `Settles(outcome, teardown)`: the yielded sub-task settled first (for a
      future-backed task: the wrapped future settled) and destroying the yield
      scope reported `teardown`. `HaltCalled(teardown)`: `halt()` was called;
      if it interrupts the current race, destroying the yield scope reported
      `teardown`. */
  datatype TaskEvent<V> = Settles(outcome: Result<V>, teardown: Result<Unit>) | HaltCalled(teardown: Result<Unit>)

  /** Where a task stands once the events so far have been handled. `Thrown`:
      `run` itself threw while constructing the generator. */
  datatype Status<V> = Pending | Settled(result: Result<V>) | Thrown(exception: Exception)

  /** The outcome the resume policy acts on: an error from tearing down the
      yield scope replaces the race's outcome. */
  function Outcome<V>(race: Result<V>, teardown: Result<Unit>): Result<V> {
    if teardown.Error? then Error(teardown.error) else race
  }

  /** The resume policy: the interrupt's signal resumes via `return`, any other
      value via `next(value)`, an error via `throw(error)` and a halt of the
      sub-task via `throw(Error("halt"))`. */
  function ResumeAction<V(==)>(outcome: Result<V>, signal: V): Action<V> {
    match outcome
    case Value(v) => if v == signal then Return else Next(v)
    case Error(e) => Throw(e)
    case Halt => Throw(HaltError)
  }

  /** The resume policy, case by case and in both directions. */
  lemma ResumePolicy<V>(race: Result<V>, teardown: Result<Unit>, signal: V)
    ensures teardown.Error? ==> ResumeAction(Outcome(race, teardown), signal) == Throw(teardown.error)
    ensures !teardown.Error? ==> ResumeAction(Outcome(race, teardown), signal) == ResumeAction(race, signal)
    ensures ResumeAction(race, signal) == Return <==> race == Value(signal)
    ensures forall v :: ResumeAction(race, signal) == Next(v) <==> race == Value(v) && v != signal
    ensures forall e :: ResumeAction(race, signal) == Throw(e) <==> race == Error(e) || (race == Halt && e == HaltError)
  {
  }

  /** The generator controller after the generator has been asked for its
      last action in `actions`. `halted`: `halt()` has been called, so the
      settle path is retargeted to `{halt}` and the interrupt is spent. A
      yielded operation function that throws when called makes `run` throw
      inside the controller's `try`; the catch settles the task with that
      error, which the generator never sees. */
  function Step<V(==)>(gen: Generator<V>, signal: V, actions: seq<Action<V>>, events: seq<TaskEvent<V>>, halted: bool): Status<V>
    decreases |events|, 1
  {
    match gen(actions)
    case Completed(v) => Settled(if halted then Halt else Value(v))
    case Raised(e) => Settled(Error(e))
    case Yielded(op) =>
      match RunFails(Classify(op))
      case Some(e) => Settled(Error(e))
      case None => Wait(gen, signal, actions, events, halted)
  }

  /** The generator controller waiting for the race of its yielded sub-task
      against the interrupt. */
  function Wait<V(==)>(gen: Generator<V>, signal: V, actions: seq<Action<V>>, events: seq<TaskEvent<V>>, halted: bool): Status<V>
    decreases |events|, 0
  {
    if events == [] then Pending
    else match events[0]
      case Settles(outcome, teardown) =>
        Step(gen, signal, actions + [ResumeAction(Outcome(outcome, teardown), signal)], events[1..], halted)
      case HaltCalled(teardown) =>
        if halted then Wait(gen, signal, actions, events[1..], true)
        else Step(gen, signal, actions + [ResumeAction(Outcome(Value(signal), teardown), signal)], events[1..], true)
  }

  /** How many of `events` the controller handles before `Step` gives its
      status: the rest arrive after the task has settled. */
  function StepConsumed<V(==)>(gen: Generator<V>, signal: V, actions: seq<Action<V>>, events: seq<TaskEvent<V>>, halted: bool): (n: nat)
    ensures n <= |events|
    decreases |events|, 1
  {
    match gen(actions)
    case Yielded(op) => if RunFails(Classify(op)).Some? then 0 else WaitConsumed(gen, signal, actions, events, halted)
    case _ => 0
  }

  function WaitConsumed<V(==)>(gen: Generator<V>, signal: V, actions: seq<Action<V>>, events: seq<TaskEvent<V>>, halted: bool): (n: nat)
    ensures n <= |events|
    decreases |events|, 0
  {
    if events == [] then 0
    else match events[0]
      case Settles(outcome, teardown) =>
        1 + StepConsumed(gen, signal, actions + [ResumeAction(Outcome(outcome, teardown), signal)], events[1..], halted)
      case HaltCalled(teardown) =>
        if halted then 1 + WaitConsumed(gen, signal, actions, events[1..], true)
        else 1 + StepConsumed(gen, signal, actions + [ResumeAction(Outcome(Value(signal), teardown), signal)], events[1..], true)
  }

  /** A task is still pending only once it has handled every event. */
  lemma {:induction false} PendingConsumesAll<V>(gen: Generator<V>, signal: V, actions: seq<Action<V>>, events: seq<TaskEvent<V>>, halted: bool)
    ensures Step(gen, signal, actions, events, halted).Pending? ==> StepConsumed(gen, signal, actions, events, halted) == |events|
    ensures Wait(gen, signal, actions, events, halted).Pending? ==> WaitConsumed(gen, signal, actions, events, halted) == |events|
    decreases |events|
  {
    if events != [] {
      match events[0]
      case Settles(outcome, teardown) =>
        PendingConsumesAll(gen, signal, actions + [ResumeAction(Outcome(outcome, teardown), signal)], events[1..], halted);
      case HaltCalled(teardown) =>
        PendingConsumesAll(gen, signal, actions, events[1..], true);
        PendingConsumesAll(gen, signal, actions + [ResumeAction(Outcome(Value(signal), teardown), signal)], events[1..], true);
    }
    assert Wait(gen, signal, actions, events, halted).Pending? ==> WaitConsumed(gen, signal, actions, events, halted) == |events|;
  }

  /** A yielded operation function that throws when called settles the task
      with that error at once, halted or not: the generator cannot catch it. */
  lemma YieldedRunFails<V>(gen: Generator<V>, signal: V, actions: seq<Action<V>>, events: seq<TaskEvent<V>>, halted: bool, e: Exception, n: nat)
    requires gen(actions) == Yielded(Delegated(Operation<V>.Fn(ThrowsOnCall(e)), n))
    ensures Step(gen, signal, actions, events, halted) == Settled(Error(e))
    ensures StepConsumed(gen, signal, actions, events, halted) == 0
  {
    ClassifyIgnoresDelegation(Operation<V>.Fn(ThrowsOnCall(e)), n);
  }

  /** The events answer the task faithfully wherever it yields a future that
      has already settled: such a sub-task settles as soon as it runs, before
      anything else can happen, so the race is decided at once by its result
      and tearing down the empty yield scope succeeds. */
  predicate StepAnswered<V(==)>(gen: Generator<V>, signal: V, actions: seq<Action<V>>, events: seq<TaskEvent<V>>, halted: bool)
    decreases |events|, 1
  {
    match gen(actions)
    case Yielded(op) => RunFails(Classify(op)).Some? || WaitAnswered(gen, signal, actions, events, halted, Classify(op))
    case _ => true
  }

  predicate WaitAnswered<V(==)>(gen: Generator<V>, signal: V, actions: seq<Action<V>>, events: seq<TaskEvent<V>>, halted: bool, c: Controller<V>)
    decreases |events|, 0
  {
    if c.FutureController? && c.settled.Some? then
      && events != [] && events[0] == Settles(c.settled.value, Value(()))
      && StepAnswered(gen, signal, actions + [ResumeAction(c.settled.value, signal)], events[1..], halted)
    else if events == [] then true
    else match events[0]
      case Settles(outcome, teardown) =>
        StepAnswered(gen, signal, actions + [ResumeAction(Outcome(outcome, teardown), signal)], events[1..], halted)
      case HaltCalled(teardown) =>
        if halted then WaitAnswered(gen, signal, actions, events[1..], true, c)
        else StepAnswered(gen, signal, actions + [ResumeAction(Outcome(Value(signal), teardown), signal)], events[1..], true)
  }

  /** A yielded future that has already settled, however deeply wrapped in
      operators, resumes the generator with its own result at once. */
  lemma SettledYieldResumes<V>(gen: Generator<V>, signal: V, actions: seq<Action<V>>, events: seq<TaskEvent<V>>, halted: bool, r: Result<V>, n: nat)
    requires gen(actions) == Yielded(Delegated(Fut(Some(r)), n))
    requires StepAnswered(gen, signal, actions, events, halted)
    ensures events != [] && events[0] == Settles(r, Value(()))
    ensures Step(gen, signal, actions, events, halted) == Step(gen, signal, actions + [ResumeAction(r, signal)], events[1..], halted)
    ensures StepAnswered(gen, signal, actions + [ResumeAction(r, signal)], events[1..], halted)
  {
    ClassifyIgnoresDelegation(Fut(Some(r)), n);
  }

  /** A settlement of the raced sub-task resumes the generator with the
      action the resume policy picks for it. */
  lemma SettlementResumes<V>(gen: Generator<V>, signal: V, actions: seq<Action<V>>, outcome: Result<V>, teardown: Result<Unit>, later: seq<TaskEvent<V>>, halted: bool)
    ensures Wait(gen, signal, actions, [Settles(outcome, teardown)] + later, halted)
         == Step(gen, signal, actions + [ResumeAction(Outcome(outcome, teardown), signal)], later, halted)
  {
    assert ([Settles(outcome, teardown)] + later)[1..] == later;
  }

  /** Once halted, a task never settles with a value: completing the
      generator settles `{halt}`, an escaping exception `{error}`. */
  lemma {:induction false} HaltedNeverSettlesValue<V>(gen: Generator<V>, signal: V, actions: seq<Action<V>>, events: seq<TaskEvent<V>>)
    ensures var s := Step(gen, signal, actions, events, true); s.Settled? ==> !s.result.Value?
    ensures var s := Wait(gen, signal, actions, events, true); s.Settled? ==> !s.result.Value?
    decreases |events|
  {
    if events != [] {
      match events[0]
      case Settles(outcome, teardown) =>
        HaltedNeverSettlesValue(gen, signal, actions + [ResumeAction(Outcome(outcome, teardown), signal)], events[1..]);
      case HaltCalled(_) =>
        HaltedNeverSettlesValue(gen, signal, actions, events[1..]);
    }
  }

  /** The first `halt()` interrupts the race the task is waiting on: the
      generator is resumed via `return` (unless tearing down the yield scope
      failed) and from then on the task is halted. */
  lemma HaltInterruptsRace<V>(gen: Generator<V>, signal: V, actions: seq<Action<V>>, teardown: Result<Unit>, later: seq<TaskEvent<V>>)
    ensures Wait(gen, signal, actions, [HaltCalled(teardown)] + later, false)
         == Step(gen, signal, actions + [if teardown.Error? then Throw(teardown.error) else Return], later, true)
  {
    assert ([HaltCalled(teardown)] + later)[1..] == later;
  }

  /** A second `halt()` is a no-op: the race waits on as before. */
  lemma HaltInterruptsOnce<V>(gen: Generator<V>, signal: V, actions: seq<Action<V>>, teardown: Result<Unit>, later: seq<TaskEvent<V>>)
    ensures Wait(gen, signal, actions, [HaltCalled(teardown)] + later, true) == Wait(gen, signal, actions, later, true)
  {
    assert ([HaltCalled(teardown)] + later)[1..] == later;
  }

  /** `createFutureController`: the task settles with the wrapped future's
      result or, if `halt()` comes first, with `{halt}`; whichever is first wins. */
  function FutureTask<V>(settled: Option<Result<V>>, events: seq<TaskEvent<V>>): (s: Status<V>)
    ensures settled.Some? ==> s == Settled(settled.value)
    ensures settled.None? && events != [] && events[0].HaltCalled? ==> s == Settled(Halt)
    ensures settled.None? && events != [] && events[0].Settles? ==> s == Settled(events[0].outcome)
    ensures s.Pending? <==> settled.None? && events == []
  {
    if settled.Some? then Settled(settled.value)
    else if events == [] then Pending
    else match events[0]
      case Settles(outcome, _) => Settled(outcome)
      case HaltCalled(_) => Settled(Halt)
  }

  /** The status after `events` of a task whose controller is `c`. `signal`
      is the private object that the interrupt is resolved with. */
  function RunController<V(==)>(c: Controller<V>, signal: V, events: seq<TaskEvent<V>>): Status<V> {
    match c
    case FutureController(settled) => FutureTask(settled, events)
    case GeneratorController(ThrowsOnCall(e)) => Thrown(e)
    case GeneratorController(Constructs(gen)) => Step(gen, signal, [Start], events, false)
  }

  /** `run(operation)`: the status of the task after `events`. */
  function RunTask<V(==)>(op: Operation<V>, signal: V, events: seq<TaskEvent<V>>): Status<V> {
    RunController(Classify(op), signal, events)
  }

  /** As written, `run` throws for every future, however deeply it is wrapped
      in operators and whatever it settles with; and a future yielded by a
      generator makes the controller's `run` throw, so the task settles with
      that error. As intended, a settled future gives its result. */
  lemma {:induction false} FutureRunThrowsAsWritten<V>(settled: Option<Result<V>>, signal: V, events: seq<TaskEvent<V>>, n: nat)
    ensures RunController(ClassifyAsWritten(Delegated(Fut(settled), n)), signal, events) == Thrown(NotCallable)
    ensures RunFails(ClassifyAsWritten(Delegated(Fut(settled), n))) == Some(NotCallable)
    ensures settled.Some? ==> RunTask(Delegated(Fut(settled), n), signal, events) == Settled(settled.value)
  {
    if n > 0 {
      FutureRunThrowsAsWritten(settled, signal, events, n - 1);
    }
    ClassifyIgnoresDelegation(Fut(settled), n);
  }

  /** The future `halt()` returns on a generator-backed task: it settles
      once the task has settled, rejecting with the task's error and
      resolving otherwise. */
  function Acknowledge<V>(settled: Result<V>): (ack: Result<Unit>)
    ensures ack.Error? <==> settled.Error?
    ensures settled.Error? ==> ack == Error(settled.error)
    ensures !settled.Error? ==> ack == Value(())
  {
    if settled.Error? then Error(settled.error) else Value(())
  }

  /** The acknowledgment `halt()` returns on a task with controller `c`
      whose status is now `status`: the future controller's is already
      resolved (scope.ts:156-159); the generator controller's settles once
      the task has settled (scope.ts:225-233). */
  function HaltAck<V>(c: Controller<V>, status: Status<V>): Option<Result<Unit>> {
    if c.FutureController? then Some(Value(()))
    else if status.Settled? then Some(Acknowledge(status.result))
    else None
  }

  /** A halted future-backed task has settled, and its halt is acknowledged
      at once and never rejects, whatever the future did. */
  lemma FutureHaltAcknowledged<V>(settled: Option<Result<V>>, signal: V, later: seq<TaskEvent<V>>, teardown: Result<Unit>, n: nat)
    ensures var c := Classify(Delegated(Fut(settled), n));
            var status := RunController(c, signal, [HaltCalled(teardown)] + later);
            && status.Settled?
            && (settled.None? ==> status.result == Halt)
            && HaltAck(c, status) == Some(Value(()))
  {
    ClassifyIgnoresDelegation(Fut(settled), n);
  }

  /** The acknowledgment of halting a generator-backed task rejects exactly
      when the task settled with an error, such as one raised by its cleanup
      or by tearing down its yield scope; a halted task that settles
      otherwise settles `{halt}`, and its acknowledgment resolves. */
  lemma GeneratorHaltAcknowledged<V>(gen: Generator<V>, signal: V, actions: seq<Action<V>>, events: seq<TaskEvent<V>>)
    ensures var status := Step(gen, signal, actions, events, true);
            var ack := HaltAck(GeneratorController(Constructs(gen)), status);
            && (ack.Some? <==> status.Settled?)
            && (ack.Some? ==> (ack.value.Error? <==> status.result.Error?))
            && (ack.Some? && !ack.value.Error? ==> status.result == Halt && ack.value == Value(()))
  {
    HaltedNeverSettlesValue(gen, signal, actions, events);
  }

  /** The part of `createGeneratorController` that `halt()` changes. */
  class GeneratorController<V(==)> {
    /** The private object the interrupt is resolved with. */
    const signal: V
    /** The future that `interrupt.resolve` produces. */
    const interrupt: Future<V>
    /** `interrupt.future`: the future that the next race runs against. */
    var interruptFuture: Future<V>
    /** `settleWith` retargeted to settle `{halt}`. */
    var settleWithHalt: bool

    ghost predicate Valid()
      reads this, interrupt, interruptFuture
    {
      if settleWithHalt then
        interruptFuture != interrupt && interruptFuture.result == None && interrupt.result == Some(Value(signal))
      else
        interruptFuture == interrupt && interrupt.result == None
    }

    constructor (signal: V)
      ensures Valid() && !settleWithHalt && this.signal == signal
      ensures fresh(interrupt)
    {
      this.signal := signal;
      var f := new Future<V>();
      interrupt := f;
      interruptFuture := f;
      settleWithHalt := false;
    }

    /** `halt()`: retargets the settle path, replaces the interrupt future
        that later races see with one that never settles, and resolves the
        interrupt with the signal, which only the first call does. */
    method Halt() returns (delivered: seq<Notification<V>>)
      requires Valid()
      modifies this, interrupt
      ensures Valid() && settleWithHalt
      ensures fresh(interruptFuture)
      ensures interrupt.result == Some(Value(signal))
      ensures old(settleWithHalt) ==> delivered == [] && interrupt.watchers == old(interrupt.watchers)
      ensures !old(settleWithHalt) ==> delivered == Deliveries(old(interrupt.watchers), Value(signal)) && interrupt.watchers == []
    {
      settleWithHalt := true;
      interruptFuture := Suspended();
      var log;
      delivered, log := interrupt.Resolve(signal, NoReawait);
    }

    /** The controller's loop: ask the generator for its next step, race each
        yielded sub-task against the interrupt, tear down the yield scope and
        pick the next action by the resume policy, until the generator
        completes, throws, the yielded operation cannot be run, or the events
        run out. The controller ends halted exactly when one of the events it
        handled was a `halt()`. */
    method Drive(gen: Generator<V>, events: seq<TaskEvent<V>>) returns (status: Status<V>)
      requires Valid() && !settleWithHalt
      modifies this, interrupt
      ensures Valid()
      ensures status == Step(gen, signal, [Start], events, false)
      ensures var n := StepConsumed(gen, signal, [Start], events, false);
              settleWithHalt <==> exists j :: 0 <= j < n && events[j].HaltCalled?
      ensures interrupt.result == if settleWithHalt then Some(Value(signal)) else None
      ensures settleWithHalt ==> fresh(interruptFuture)
      ensures !settleWithHalt ==> interruptFuture == interrupt
    {
      var actions: seq<Action<V>> := [Start];
      var i := 0;
      ghost var total := StepConsumed(gen, signal, [Start], events, false);
      while true
        invariant i <= |events|
        invariant Valid()
        invariant Step(gen, signal, actions, events[i..], settleWithHalt) == Step(gen, signal, [Start], events, false)
        invariant i + StepConsumed(gen, signal, actions, events[i..], settleWithHalt) == total
        invariant settleWithHalt <==> exists j :: 0 <= j < i && events[j].HaltCalled?
        invariant settleWithHalt ==> fresh(interruptFuture)
        decreases |events| - i
      {
        var next := gen(actions);
        if next.Completed? {
          return Settled(if settleWithHalt then Results.Halt else Value(next.value));
        } else if next.Raised? {
          return Settled(Error(next.error));
        }
        var failure := RunFails(Classify(next.operation));
        if failure.Some? {
          return Settled(Error(failure.value));
        }
        // race the sub-task against the current interrupt future
        var watched := interruptFuture;
        ghost var start := i;
        ghost var haltedAtStart := settleWithHalt;
        var outcome: Option<Result<V>> := None;
        var teardown: Result<Unit> := Value(());
        while outcome.None?
          invariant start <= i <= |events|
          invariant Valid()
          invariant watched == interrupt <==> !haltedAtStart
          invariant outcome.None? ==> settleWithHalt == haltedAtStart
          invariant watched != interrupt ==> watched.result == None
          invariant outcome.None? ==> Wait(gen, signal, actions, events[i..], settleWithHalt) == Step(gen, signal, [Start], events, false)
          invariant outcome.None? ==> i + WaitConsumed(gen, signal, actions, events[i..], settleWithHalt) == total
          invariant outcome.Some? ==> i > start && Step(gen, signal, actions + [ResumeAction(Outcome(outcome.value, teardown), signal)], events[i..], settleWithHalt) == Step(gen, signal, [Start], events, false)
          invariant outcome.Some? ==> i + StepConsumed(gen, signal, actions + [ResumeAction(Outcome(outcome.value, teardown), signal)], events[i..], settleWithHalt) == total
          invariant settleWithHalt <==> exists j :: 0 <= j < i && events[j].HaltCalled?
          invariant settleWithHalt ==> fresh(interruptFuture)
          decreases |events| - i, if outcome.None? then 1 else 0
        {
          if i == |events| {
            return Pending;
          }
          assert events[i..][1..] == events[i + 1..];
          var event := events[i];
          i := i + 1;
          match event
          case Settles(o, td) =>
            outcome, teardown := Some(o), td;
          case HaltCalled(td) =>
            var _ := Halt();
            if watched.result.Some? {
              outcome, teardown := Some(watched.result.value), td;
            }
        }
        var result := outcome.value;
        if teardown.Error? {
          result := Error(teardown.error);
        }
        actions := actions + [ResumeAction(result, signal)];
      }
    }
  }
}
