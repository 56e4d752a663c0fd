/** The behaviours that the repository's tests of `run` and of operators
    exercise, stated about the task controller model. Values are a small
    universe of JavaScript values that includes the controller's private
    signal object. */
module TaskScenarios {
  import opened Results
  import opened Futures
  import opened Controllers
  import opened Scopes

  datatype JsValue = Num(n: int) | Str(s: string) | Undefined | SignalObject

  const Boom: Exception := Exception("boom")
  const Ok: Result<Unit> := Value(())

  /** The number a generator was resumed with (0 for anything else). */
  function Received(a: Action<JsValue>): int {
    if a.Next? && a.value.Num? then a.value.n else 0
  }

  function Last<X>(s: seq<X>): X
    requires s != []
  {
    s[|s| - 1]
  }

  /** A generator that yields `first`, then `second`, and returns the sum of
      the two numbers it is resumed with; an error thrown into it escapes. */
  function Compose(first: Operation<JsValue>, second: Operation<JsValue>, a: seq<Action<JsValue>>): Response<JsValue> {
    if |a| <= 1 then Yielded(first)
    else if Last(a).Throw? then Raised(Last(a).error)
    else if Last(a).Return? then Completed(Undefined)
    else if |a| == 2 then Yielded(second)
    else Completed(Num(Received(a[1]) + Received(a[2])))
  }

  /** Yields a future already resolved with 12, then one already resolved
      with 55, and returns the sum of the two numbers it receives. */
  function ComposeGenerator(a: seq<Action<JsValue>>): Response<JsValue> {
    Compose(Fut(Some(Value(Num(12)))), Fut(Some(Value(Num(55)))), a)
  }

  /** A sub-operation that waits for a timer and then returns `n` (`ok`) or
      throws the error "boom" (`!ok`); resumed via `return`, it completes. */
  function TimedGenerator(n: int, ok: bool, a: seq<Action<JsValue>>): Response<JsValue> {
    if |a| <= 1 then Yielded(Fut(None))
    else if Last(a).Throw? then Raised(Last(a).error)
    else if Last(a).Return? then Completed(Undefined)
    else if ok then Completed(Num(n))
    else Raised(Boom)
  }

  /** `createNumber(n)` */
  function CreateNumber(n: int): Operation<JsValue> {
    Fn(Constructs(a => TimedGenerator(n, true, a)))
  }

  /** `blowUp()` */
  function BlowUp(): Operation<JsValue> {
    Fn(Constructs(a => TimedGenerator(0, false, a)))
  }

  /** Yields the timed operation that gives 12, then the one that fails with
      "boom", and would return the sum of the two numbers it receives. */
  function BlowUpGenerator(a: seq<Action<JsValue>>): Response<JsValue> {
    Compose(CreateNumber(12), BlowUp(), a)
  }

  /** Yields a future already resolved with 12, then a future that is never
      produced, and would return the sum of the two numbers it receives. */
  function HaltableGenerator(a: seq<Action<JsValue>>): Response<JsValue> {
    Compose(Fut(Some(Value(Num(12)))), Fut(None), a)
  }

  /** The sub-operations themselves: `createNumber(12)` settles with 12 once
      its timer fires, `blowUp()` with the error "boom". */
  lemma TimedOperations()
    ensures RunTask(CreateNumber(12), SignalObject, [Settles(Value(Undefined), Ok)]) == Settled(Value(Num(12)))
    ensures RunTask(BlowUp(), SignalObject, [Settles(Value(Undefined), Ok)]) == Settled(Error(Boom))
  {
    var later: seq<TaskEvent<JsValue>> := [];
    SettlementResumes((a: seq<Action<JsValue>>) => TimedGenerator(12, true, a), SignalObject, [Start], Value(Undefined), Ok, later, false);
    SettlementResumes((a: seq<Action<JsValue>>) => TimedGenerator(0, false, a), SignalObject, [Start], Value(Undefined), Ok, later, false);
    assert [Settles(Value(Undefined), Ok)] + later == [Settles(Value(Undefined), Ok)];
  }

  /** Two yielded futures, resolved with 12 and 55, compose to 67: every
      stream of events that answers each settled future with its own result
      settles the task with 67, and the stream of those two settlements is one. */
  lemma ComposesTwoFutures(events: seq<TaskEvent<JsValue>>)
    requires StepAnswered(ComposeGenerator, SignalObject, [Start], events, false)
    ensures RunTask(Fn(Constructs(ComposeGenerator)), SignalObject, events) == Settled(Value(Num(67)))
    ensures StepAnswered(ComposeGenerator, SignalObject, [Start], [Settles(Value(Num(12)), Ok), Settles(Value(Num(55)), Ok)], false)
  {
    var g, s := ComposeGenerator, SignalObject;
    var a1 := [Start, Next(Num(12))];
    SettledYieldResumes(g, s, [Start], events, false, Value(Num(12)), 0);
    assert [Start] + [ResumeAction(Value(Num(12)), s)] == a1;
    SettledYieldResumes(g, s, a1, events[1..], false, Value(Num(55)), 0);
    assert a1 + [ResumeAction(Value(Num(55)), s)] == [Start, Next(Num(12)), Next(Num(55))];
    var answers: seq<TaskEvent<JsValue>> := [Settles(Value(Num(12)), Ok), Settles(Value(Num(55)), Ok)];
    assert answers[1..][1..] == [];
    assert StepAnswered(g, s, a1, answers[1..], false) by {
      assert WaitAnswered(g, s, a1, answers[1..], false, FutureController(Some(Value(Num(55)))));
    }
    assert WaitAnswered(g, s, [Start], answers, false, FutureController(Some(Value(Num(12)))));
  }

  /** A sub-operation that fails: the error is thrown into the generator,
      escapes it, and the task settles with it. */
  lemma RejectsWhenSubtaskFails()
    ensures RunTask(Fn(Constructs(BlowUpGenerator)), SignalObject,
                    [Settles(Value(Num(12)), Ok), Settles(Error(Boom), Ok)])
         == Settled(Error(Boom))
  {
    var g, s := BlowUpGenerator, SignalObject;
    var a1 := [Start, Next(Num(12))];
    var later: seq<TaskEvent<JsValue>> := [Settles(Error(Boom), Ok)];
    SettlementResumes(g, s, a1, Error(Boom), Ok, [], false);
    assert later + [] == later;
    SettlementResumes(g, s, [Start], Value(Num(12)), Ok, later, false);
    assert [Start] + [Next(Num(12))] == a1;
    assert [Settles(Value(Num(12)), Ok)] + later == [Settles(Value(Num(12)), Ok), Settles(Error(Boom), Ok)];
  }

  /** Receives 12 from a resolved future, then yields a future rejected with
      "boom" inside a guarded block. Had that yield succeeded it would count 9;
      when the error is thrown in instead, the handler yields a future resolved
      with 8 and counts that. It then receives 55 and returns the sum of the
      three numbers. */
  function RecoveringGenerator(a: seq<Action<JsValue>>): Response<JsValue> {
    if |a| <= 1 then Yielded(Fut(Some(Value(Num(12)))))
    else if |a| == 2 then Yielded(Fut(Some(Error(Boom))))
    else if |a| == 3 then
      if Last(a).Throw? then Yielded(Fut(Some(Value(Num(8))))) else Yielded(Fut(Some(Value(Num(55)))))
    else if |a| == 4 && a[2].Throw? then Yielded(Fut(Some(Value(Num(55)))))
    else if |a| == 4 then Completed(Num(Received(a[1]) + 9 + Received(a[3])))
    else Completed(Num(Received(a[1]) + Received(a[3]) + Received(a[4])))
  }

  /** An error delivered into the generator is caught there; the generator
      carries on and the task still succeeds, with 12 + 8 + 55, for every
      stream of events that answers each settled future with its own result. */
  lemma RecoversFromFailedFuture(events: seq<TaskEvent<JsValue>>)
    requires StepAnswered(RecoveringGenerator, SignalObject, [Start], events, false)
    ensures RunTask(Fn(Constructs(RecoveringGenerator)), SignalObject, events) == Settled(Value(Num(75)))
  {
    var g, s := RecoveringGenerator, SignalObject;
    var a1 := [Start, Next(Num(12))];
    var a2 := a1 + [Throw(Boom)];
    var a3 := a2 + [Next(Num(8))];
    SettledYieldResumes(g, s, [Start], events, false, Value(Num(12)), 0);
    assert [Start] + [ResumeAction(Value(Num(12)), s)] == a1;
    var e1 := events[1..];
    SettledYieldResumes(g, s, a1, e1, false, Error(Boom), 0);
    assert a1 + [ResumeAction(Error(Boom), s)] == a2;
    var e2 := e1[1..];
    SettledYieldResumes(g, s, a2, e2, false, Value(Num(8)), 0);
    assert a2 + [ResumeAction(Value(Num(8)), s)] == a3;
    var e3 := e2[1..];
    SettledYieldResumes(g, s, a3, e3, false, Value(Num(55)), 0);
  }

  /** Waits on a future that is never produced, inside a block with cleanup;
      the cleanup runs when the generator is resumed via `return`, after which
      it completes. */
  function SuspendingGenerator(a: seq<Action<JsValue>>): Response<JsValue> {
    if |a| <= 1 then Yielded(Fut(None))
    else if Last(a).Throw? then Raised(Last(a).error)
    else Completed(Undefined)
  }

  /** Halting a suspended task resumes its generator via `return`, so its
      cleanup runs; the task settles with `{halt}`, its promise rejects with
      the halt error and the halt acknowledgment resolves. */
  lemma InterruptsRunningGenerator()
    ensures var status := RunTask(Fn(Constructs(SuspendingGenerator)), SignalObject, [HaltCalled(Ok)]);
            && status == Settled(Halt)
            && Settle(status.result) == Rejected(HaltError)
            && HaltAck(GeneratorController(Constructs(SuspendingGenerator)), status) == Some(Value(()))
    ensures Wait(SuspendingGenerator, SignalObject, [Start], [HaltCalled(Ok)], false)
         == Step(SuspendingGenerator, SignalObject, [Start, Return], [], true)
  {
    HaltInterruptsRace(SuspendingGenerator, SignalObject, [Start], Ok, []);
    var events: seq<TaskEvent<JsValue>> := [HaltCalled(Ok)];
    assert events == [HaltCalled(Ok)] + [];
  }

  /** Waits on a future that is never produced, inside a block whose cleanup
      itself waits for a timer before it completes. */
  function CleanupGenerator(a: seq<Action<JsValue>>): Response<JsValue> {
    if |a| <= 1 then Yielded(Fut(None))
    else if |a| == 2 && Last(a).Throw? then Raised(Last(a).error)
    else if |a| == 2 then Yielded(Fut(None))
    else if Last(a).Throw? then Raised(Last(a).error)
    else Completed(Undefined)
  }

  /** Once halted, a task whose cleanup yields keeps waiting on that yield
      (a further `halt()` does not interrupt it) and settles `{halt}` only
      when the cleanup is done. */
  lemma CleanupMaySuspend()
    ensures RunTask(Fn(Constructs(CleanupGenerator)), SignalObject, [HaltCalled(Ok)]) == Pending
    ensures RunTask(Fn(Constructs(CleanupGenerator)), SignalObject, [HaltCalled(Ok), HaltCalled(Ok)]) == Pending
    ensures RunTask(Fn(Constructs(CleanupGenerator)), SignalObject, [HaltCalled(Ok), Settles(Value(Undefined), Ok)]) == Settled(Halt)
  {
    var g, s := CleanupGenerator, SignalObject;
    var a1 := [Start, Return];
    var none: seq<TaskEvent<JsValue>> := [];
    var halt: seq<TaskEvent<JsValue>> := [HaltCalled(Ok)];
    var timer: seq<TaskEvent<JsValue>> := [Settles(Value(Undefined), Ok)];
    HaltInterruptsRace(g, s, [Start], Ok, none);
    assert halt == [HaltCalled(Ok)] + none;
    HaltInterruptsRace(g, s, [Start], Ok, halt);
    HaltInterruptsOnce(g, s, a1, Ok, none);
    HaltInterruptsRace(g, s, [Start], Ok, timer);
    SettlementResumes(g, s, a1, Value(Undefined), Ok, none, true);
    assert timer + none == timer;
    assert [Start] + [Return] == a1;
    assert [HaltCalled(Ok)] + halt == [HaltCalled(Ok), HaltCalled(Ok)];
    assert [HaltCalled(Ok)] + timer == [HaltCalled(Ok), Settles(Value(Undefined), Ok)];
  }

  /** A task halted while it waits on `suspend()` at its second yield
      settles with `{halt}`; the first yield, of a future resolved with 12,
      is answered with its own result. */
  lemma HaltsGenerator()
    ensures RunTask(Fn(Constructs(HaltableGenerator)), SignalObject,
                    [Settles(Value(Num(12)), Ok), HaltCalled(Ok)])
         == Settled(Halt)
    ensures StepAnswered(HaltableGenerator, SignalObject, [Start], [Settles(Value(Num(12)), Ok), HaltCalled(Ok)], false)
  {
    var g, s := HaltableGenerator, SignalObject;
    var a1 := [Start, Next(Num(12))];
    var later: seq<TaskEvent<JsValue>> := [HaltCalled(Ok)];
    HaltInterruptsRace(g, s, a1, Ok, []);
    assert later + [] == later;
    SettlementResumes(g, s, [Start], Value(Num(12)), Ok, later, false);
    assert [Start] + [Next(Num(12))] == a1;
    assert [Settles(Value(Num(12)), Ok)] + later == [Settles(Value(Num(12)), Ok), HaltCalled(Ok)];
    var answers: seq<TaskEvent<JsValue>> := [Settles(Value(Num(12)), Ok), HaltCalled(Ok)];
    assert answers[1..] == later && later[1..] == [];
    assert StepAnswered(g, s, a1, later, false) by {
      assert WaitAnswered(g, s, a1, later, false, FutureController(None));
    }
    assert WaitAnswered(g, s, [Start], answers, false, FutureController(Some(Value(Num(12)))));
  }

  /** An operation function that throws when called makes `run` throw. */
  lemma RejectsWhenConstructionFails()
    ensures RunTask<JsValue>(Fn(ThrowsOnCall(Boom)), SignalObject, []) == Thrown(Boom)
  {
  }

  /** Future-backed tasks: a resolved future gives its value, a rejected one
      its error, and a halted one rejects with the halt error. */
  lemma RunsFutures(e: Exception)
    ensures RunTask(Fut(Some(Value(Num(5)))), SignalObject, []) == Settled(Value(Num(5)))
    ensures Settle(RunTask<JsValue>(Fut(Some(Error(e))), SignalObject, []).result) == Rejected(e)
    ensures Settle(RunTask<JsValue>(Fut(Some(Halt)), SignalObject, []).result) == Rejected(HaltError)
  {
  }

  /** An operator can delegate to an operation function or to a future. */
  lemma OperatorsDelegate()
    ensures RunTask(Op(Fn(Constructs((a: seq<Action<JsValue>>) => Completed(Str("hello"))))), SignalObject, [])
         == Settled(Value(Str("hello")))
    ensures RunTask(Op(Fut(Some(Value(Str("hello"))))), SignalObject, []) == Settled(Value(Str("hello")))
  {
  }

  /** A generator that yields an operation function returning 12 at once,
      and returns what it is resumed with. */
  function ReturnsYielded(a: seq<Action<JsValue>>): Response<JsValue> {
    if |a| <= 1 then Yielded(Fn(Constructs((b: seq<Action<JsValue>>) => Completed(Num(12)))))
    else if Last(a).Next? then Completed(Last(a).value)
    else if Last(a).Throw? then Raised(Last(a).error)
    else Completed(Undefined)
  }

  /** A sub-task that settles as soon as it runs makes its parent settle
      before `run` returns: the parent's status is `{value: 12}`, and the
      parent is no longer in the root scope's task set. */
  method SettlesBeforeLink() returns (status: Status<JsValue>, linked: bool)
    ensures status == Settled(Value(Num(12))) && !linked
  {
    var g, s := ReturnsYielded, SignalObject;
    var none: seq<TaskEvent<JsValue>> := [];
    SettlementResumes(g, s, [Start], Value(Num(12)), Ok, none, false);
    assert [Settles(Value(Num(12)), Ok)] + none == [Settles(Value(Num(12)), Ok)];
    var runtime := new Runtime();
    var task;
    task, status := runtime.Run(Fn(Constructs(g)), s, None, [Settles(Value(Num(12)), Ok)]);
    linked := task.value in runtime.contexts[Root].tasks;
  }

  /** Yields an operation function that throws "boom" when called, inside a
      guarded block whose handler would complete with 1. */
  function GuardedFailingYield(a: seq<Action<JsValue>>): Response<JsValue> {
    if |a| <= 1 then Yielded(Fn(ThrowsOnCall(Boom)))
    else if Last(a).Throw? then Completed(Num(1))
    else Completed(Undefined)
  }

  /** When the yielded operation function throws as it is called, the task
      settles with that error at once; the generator's handler never runs. */
  lemma YieldedConstructionFails(events: seq<TaskEvent<JsValue>>)
    ensures RunTask(Fn(Constructs(GuardedFailingYield)), SignalObject, events) == Settled(Error(Boom))
  {
    YieldedRunFails(GuardedFailingYield, SignalObject, [Start], events, false, Boom, 0);
  }
}
