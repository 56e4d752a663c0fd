# deno-effection core, modelled in Dafny

The model covers the three layers of the deno-effection runtime.

- **Delimited continuations** (`continuation.ts`).
  - `reset` and `shift` are modelled, along with `evaluate`, which interprets them by plain recursion: a reset's block is evaluated with a `done` callback that resumes the suspended program.
  - The once-only continuation `k` that a shift block receives is modelled.
  - So is the `race` combinator built on `k`.
- **Futures** (`future.ts`).
  - A future is a single-assignment, multicast result cell.
  - Its result is `{value}`, `{error}` or `{halt}`.
  - It keeps a FIFO queue of watchers.
  - A promise bridge is registered when the future is created.
- **Tasks and scopes** (`scope.ts`).
  - `run` classifies an operation (future, operation function or operator) and builds its controller.
  - The generator controller races each yielded sub-task against an interrupt, tears down the sub-task's scope, and resumes the generator under a fixed policy.
  - `halt()` interrupts a task once.
  - Scopes form a tree, with a context per scope holding its tasks, children and listeners.
  - `destroy` tears a scope down: children first, from the last added to the first, then tasks from the last added to the first, and the last error wins.
  - `ancestryOf` lists a scope and its ancestors.

## Files

| file | module | what it holds |
|---|---|---|
| `results.dfy` | `Results` | `Result` (`Value`/`Error`/`Halt`), `Option`, `Exception`, the halt error |
| `sets.dfy` | `OrderedSets` | a JavaScript `Set` as an insertion-ordered sequence without duplicates |
| `continuation.dfy` | `Continuations` | the `Proc`/`Control` program datatype and the fuelled `Evaluate`; the `Continuation` latch class for `k`; the `Race` method |
| `future.dfy` | `Futures` | the `Future` class (result and watcher queue), with `Produce`, `Await`, settlement of the host promise, and scenarios from the future tests |
| `controller.dfy` | `Controllers` | operation classification, the resume policy, and the controller's step relation (`Step`/`Wait`/`RunTask`); the `GeneratorController` class with `Halt` and `Drive` |
| `scenarios.dfy` | `TaskScenarios` | the generators used by the tests of `run` and of operators, and what the model says they do |
| `scope.dfy` | `Scopes` | the `Runtime` class (the map from scope ids to contexts, and the id counters), with scope creation, `link`, listeners, `run`, `destroy` and `ancestryOf` |

## Where the code differs from what a reader might expect

- **`destroy` reports the LAST error.**
  - Each failing child destruction or task halt overwrites `result` (scope.ts:91-93 and 101-103), so the last error wins.
  - A reader might expect the first error to be kept.
  - `Scopes.AggregateKeepsLastError` states the behaviour as written.
- **A throwing operation function makes `run` throw.**
  - `operation()` is called at scope.ts:168, before the `try` at scope.ts:176.
  - So an operation function that throws when called makes `run` throw synchronously; no task is settled with the error.
  - The model has a separate status, `Thrown`, for this.
- **`isFuture` never recognises a future.**
  - It compares the tag with `Future` (scope.ts:144-146), while every future is tagged `[object Future]` (future.ts:69).
  - This is recorded under "## Findings".
  - The scenario lemmas, like the repository's tests, describe the intended classification, `Controllers.Classify`.
- **Every future has a promise bridge from creation.**
  - `createFuture` subscribes a bridge to the host promise as it is built (future.ts:51-62).
  - So every future's watcher queue starts with that bridge.
  - Every delivery list in the model begins with the bridge.

## Model

| member | source | states |
|---|---|---|
| `OrderedSets.Add` | scope.ts:43-44 | adding to a set: the element is present afterwards; other members are kept; a new element goes at the end of the insertion order; a present one changes nothing; no duplicates appear |
| `OrderedSets.Delete` | scope.ts:47 | deleting from a set: exactly that element is gone; an absent element changes nothing; the size drops when the element was there; no duplicates appear |
| `OrderedSets.DeleteKeepsOrder` | scope.ts:47 | deleting a member removes its one occurrence; every other element keeps its place in insertion order |
| `OrderedSets.DeleteAfterAdd` | scope.ts:42-50 | a task that is linked and then settles leaves the task set exactly as it was, order included |
| `OrderedSets.Without` | scope.ts:47 | deleting several tasks from a set: exactly the others remain, without duplicates; with nothing to delete the set is unchanged |
| `OrderedSets.WithoutKeepsOrder` | scope.ts:47 | the tasks that remain keep their insertion order: any two of them appear in the old set in the same order |
| `OrderedSets.WithoutOne` | scope.ts:47 | deleting a single task that way is `Delete` |
| `OrderedSets.WithoutWithout` | scope.ts:47 | deleting one batch of tasks and then another is deleting both at once |
| `OrderedSets.Reversed` | scope.ts:88-89 | popping a snapshot `[...set]` hands out the elements from the last inserted to the first |
| `Continuations.ResetOf` | continuation.ts:18-20 | `reset(block)` yields one reset record for the block; what `evaluate` makes of it is stated by `ResetOfIsTransparent` |
| `Continuations.Evaluate` | continuation.ts:26-50 | `evaluate`: a finished block gives its value; a reset runs its block and resumes the program with the block's value; a shift runs its block with a fresh `k`, and the block's return value becomes the reset's value; the lemmas below state these cases, and `EvaluateMoreFuel` states that the fuel bound does not change a finished result |
| `Continuations.CallK` | continuation.ts:37-46 | the calls a shift block makes on `k`: the first runs the rest of the program, later ones answer from the cache; stated by `KRunsRestOnce` and `CachedCallsRunNothing` |
| `Continuations.EvaluateMoreFuel` | continuation.ts:26-50 | once an evaluation finishes, any larger fuel gives the same value and the same effects |
| `Continuations.CallKMoreFuel` | continuation.ts:37-46 | the same for the calls of a shift block on `k` |
| `Continuations.EvaluateDone` | continuation.ts:26-31 | a block that completes without yielding evaluates to its own value, with no effects |
| `Continuations.ResetFeedsBack` | continuation.ts:34-35 | a reset's block runs first; its value resumes the suspended program as the value of the reset; the block's effects come before the program's |
| `Continuations.ResetOfIsTransparent` | continuation.ts:18-35 | `yield* reset(block)` has the same value and the same effects as the block itself |
| `Continuations.CachedCallsRunNothing` | continuation.ts:39-45 | once `k` has run, every further call answers with the cached result and runs nothing |
| `Continuations.KRunsRestOnce` | continuation.ts:36-47 | however often a shift block calls `k`, the rest of the program runs once; its effects appear once; every call answers with the first call's result |
| `Continuations.ShiftWithoutCallAborts` | continuation.ts:36-47 | a shift block that never calls `k` discards the rest of the reset's block; its return value becomes the value of the reset |
| `Continuations.Continuation.constructor` | continuation.ts:37-38 | a fresh `k` has not continued and has run nothing |
| `Continuations.Continuation.Call` | continuation.ts:39-46 | the first call runs the rest with its argument and caches the result; later calls return the cache without running it again; the rest runs at most once |
| `Continuations.SynchronousEmpty` | continuation.ts:54-59 | no proc completes at start exactly when every proc suspends |
| `Continuations.FirstSynchronous` | continuation.ts:54-59 | the first completion at start is that of the first proc, in array order, that completes as soon as it is started; both directions |
| `Continuations.Race` | continuation.ts:52-61 | every proc is started, in array order; the program resumes with the first completion (synchronous completions in array order, then later ones); later completions are ignored; the rest of the program runs at most once |
| `Futures.Deliveries` | future.ts:32-36 | the drain notifies every queued watcher exactly once, in queue order, with the same result |
| `Futures.Settle` | future.ts:51-62 | how the promise bridge settles the host promise; stated case by case by `SettleMapsResults` |
| `Futures.SettleMapsResults` | future.ts:51-62 | the host promise fulfils exactly for `{value}`, with that value; `{error}` rejects with the error; `{halt}` rejects with an error whose message is "halt" |
| `Futures.HaltLooksLikeHaltError` | future.ts:58-60 | to a promise consumer, a halted future cannot be told apart from one rejected with the error "halt" |
| `Futures.Future.constructor` | future.ts:23-62 | a new future is unsettled, and its only watcher is the promise bridge |
| `Futures.Future.Produce` | future.ts:28-47 | the first production stores the result and drains the queue in order, leaving it empty; the log of everything answered is `Drain`: a watcher that awaits the future again while it is being notified is answered at once with the same result, right after its own notification and before the next watcher, and never joins the queue; every later production changes nothing and notifies no one |
| `Futures.Future.Resolve` | future.ts:75 | `resolve(v)` is the production of `{value: v}`, with the same first-wins behaviour and the same answers to watchers that await again |
| `Futures.Future.Reject` | future.ts:76 | `reject(e)` is the production of `{error: e}`, with the same first-wins behaviour and the same answers to watchers that await again |
| `Futures.Future.Halt` | future.ts:77 | `halt()` is the production of `{halt}`, with the same first-wins behaviour and the same answers to watchers that await again |
| `Futures.Future.Await` | future.ts:39-48 | awaiting a settled future answers at once with its result and queues nothing; awaiting an unsettled one answers nothing yet and queues the awaiter at the end; the result never changes |
| `Futures.Resolved` | future.ts:81-88 | `Future.resolve(v)` is a fresh future already settled with `{value: v}`; its promise bridge alone was notified |
| `Futures.Suspended` | test/helpers.ts:25-27 | `suspend()` waits on a fresh future that is never produced |
| `Futures.ResolvesInOrderOfWaiting` | test/future.test.ts:16-29 | one `resolve` notifies the bridge, then the first awaiter, then the second |
| `Futures.ResolvesToOneValue` | test/future.test.ts:43-58 | resolved with "hello" and then with "world", the future notifies its waiter once, with "hello"; a later awaiter also gets "hello" |
| `Futures.FirstProductionWins` | test/future.test.ts:60-81 | a resolve after a reject changes nothing, and a reject after a resolve changes nothing |
| `Futures.Drain` | future.ts:28-47 | the answers of a drain: every queued watcher, each followed by at most one re-await, all with the stored result |
| `Futures.DrainAppend` | future.ts:32-36 | draining one more watcher appends its notification and then the answer to its re-await, if any |
| `Futures.DrainWithoutReawait` | future.ts:32-36 | when no watcher awaits again, the drain answers exactly the queue, in order |
| `Futures.ReawaitIsAnsweredAtOnce` | future.ts:28-47 | with the queue bridge, awaiter 1, awaiter 3, where awaiter 1 awaits again as awaiter 2: the answers come in the order bridge, 1, 2, 3, all with the stored result, and the queue is left empty |
| `Controllers.Classify` | scope.ts:115-146 | `createController` as intended: an operator is unwrapped, a future gets the future controller, anything else the generator controller; stated by `ClassifyIgnoresDelegation` |
| `Controllers.ClassifyAsWritten` | scope.ts:115-146 | `createController` as written: every operation gets the generator controller, and a future's "generator" throws when called |
| `Controllers.ClassifyAsWrittenAgreesOffFutures` | scope.ts:121-146 | the written and the intended classification agree on operation functions, however deeply operators wrap them |
| `Controllers.FutureRunThrowsAsWritten` | scope.ts:144-168 | as written, `run` throws for every future, wrapped or not, and a future yielded by a generator makes the controller's `run` throw; as intended, a settled future gives its result |
| `Controllers.ClassifyIgnoresDelegation` | scope.ts:121-146 | however many operators wrap an operation, it gets the controller of the innermost operation |
| `Controllers.Outcome` | scope.ts:191-195 | a teardown error replaces the race's outcome; stated by `ResumePolicy` |
| `Controllers.ResumeAction` | scope.ts:197-209 | the resume policy; stated in both directions by `ResumePolicy` |
| `Controllers.RunFails` | scope.ts:168 | `run` fails exactly for an operation function that throws when called, with that exception |
| `Controllers.ResumePolicy` | scope.ts:191-209 | a teardown error overrides the race's outcome; the interrupt signal resumes the generator via `return`; any other value resumes it via `next(value)`; an error is thrown in; a halt is thrown in as the "halt" error; each case holds in both directions |
| `Controllers.Step` | scope.ts:174-215 | the controller after asking the generator: completion settles (with `{halt}` once halted), an escaping error settles with it, a yielded operation that cannot be run settles with its error, any other yield waits on the race; stated by the lemmas below and by `Drive` |
| `Controllers.Wait` | scope.ts:186-222 | the controller waiting on the race: a settlement resumes the generator, the first `halt()` interrupts it, a later one changes nothing; stated by `SettlementResumes`, `HaltInterruptsRace` and `HaltInterruptsOnce` |
| `Controllers.StepConsumed` | scope.ts:174-215 | how many events the controller handles before its status is fixed: never more than there are |
| `Controllers.WaitConsumed` | scope.ts:186-215 | the same while the controller waits on a race |
| `Controllers.PendingConsumesAll` | scope.ts:174-215 | a task is still pending only once it has handled every event |
| `Controllers.YieldedRunFails` | scope.ts:184-189 | a yielded operation function that throws when called settles the task with that error at once, halted or not, and handles no event: the catch at scope.ts:212-213 settles it, and the generator never sees the error |
| `Controllers.StepAnswered` | scope.ts:184-209 | the events answer every yielded future that has already settled with its own result, as the sub-task over it settles when it runs, before anything else can happen |
| `Controllers.WaitAnswered` | scope.ts:186-209 | the same while the controller waits on a race |
| `Controllers.SettledYieldResumes` | scope.ts:184-209 | under answering events, a yielded settled future, however deeply wrapped in operators, resumes the generator with the future's own result, by the resume policy |
| `Controllers.SettlementResumes` | scope.ts:186-209 | when the raced sub-task settles, the generator is resumed under the resume policy, and the task continues from that step |
| `Controllers.HaltedNeverSettlesValue` | scope.ts:170-218 | once `halt()` has been called, the task never settles with a value: a completing generator settles it with `{halt}` instead |
| `Controllers.HaltInterruptsRace` | scope.ts:186-222 | the first `halt()` wins the race the task is waiting on; the generator is resumed via `return` |
| `Controllers.HaltInterruptsOnce` | scope.ts:217-222 | a second `halt()` does not interrupt again: the task goes on waiting as before |
| `Controllers.FutureTask` | scope.ts:148-160 | a future-backed task settles with the future's result; if it is halted first it settles with `{halt}`; it stays pending exactly while nothing has happened |
| `Controllers.RunController` | scope.ts:17-33 | the status of a task under a given controller; stated through `RunTask` by the scenario lemmas |
| `Controllers.RunTask` | scope.ts:17-33 | `run(operation)`: the status of the task after the events; stated by the scenario lemmas and by `Scopes.Runtime.Run` |
| `Controllers.Acknowledge` | scope.ts:224-234 | the future that `halt()` returns rejects exactly when the task settled with an error, with that error; otherwise it resolves |
| `Controllers.HaltAck` | scope.ts:156-234 | the acknowledgment a task's `halt()` gives, by its controller: stated by the two lemmas below |
| `Controllers.FutureHaltAcknowledged` | scope.ts:156-159 | a future-backed task's `halt()` settles the task (with `{halt}` when the future had not settled) and its acknowledgment always resolves |
| `Controllers.GeneratorHaltAcknowledged` | scope.ts:224-234 | a generator task's `halt()` acknowledgment settles exactly when the task does; it rejects exactly when the task settled with an error; otherwise the task settled with `{halt}` and it resolves |
| `Controllers.GeneratorController.constructor` | scope.ts:169-172 | a new controller has not been halted, keeps the signal it was given, and races against a fresh, unsettled interrupt future |
| `Controllers.GeneratorController.Halt` | scope.ts:217-223 | `halt()` retargets the settle path to `{halt}`; it swaps in a fresh never-produced interrupt future; the first call resolves the old interrupt with the signal, notifies its watchers in order and leaves none waiting; a second call notifies no one |
| `Controllers.GeneratorController.Drive` | scope.ts:174-215 | the controller's loop ends in the status that `Step` gives for the generator and the events; it ends halted exactly when one of the events it handled was a `halt()`; the interrupt is then resolved with the signal and replaced by a fresh future, and otherwise it is still unsettled and still the one raced against |
| `TaskScenarios.TimedOperations` | test/helpers.ts:29-41 | `createNumber(12)` settles with 12 once its timer fires; `blowUp()` settles with the error "boom" |
| `TaskScenarios.ComposesTwoFutures` | test/run.test.ts:24-33 | two yielded futures resolved with 12 and 55 compose to 67, for every stream of events that answers each yielded settled future with its own result; the stream of those two settlements is one |
| `TaskScenarios.RejectsWhenSubtaskFails` | test/run.test.ts:56-68 | a failing sub-operation's error is thrown into the generator, escapes it, and the task settles with "boom" |
| `TaskScenarios.InterruptsRunningGenerator` | test/run.test.ts:70-84 | halting a suspended task resumes its generator via `return`, so its `finally` runs; the task settles with `{halt}`; the future `halt()` returns resolves |
| `TaskScenarios.RejectsWhenConstructionFails` | test/run.test.ts:86-92 | an operation function that throws when called makes `run` throw |
| `TaskScenarios.RecoversFromFailedFuture` | test/run.test.ts:94-111 | an error thrown into the generator and caught there lets it go on yielding; 12 + 8 + 55 gives 75, for every stream of events that answers each yielded settled future with its own result |
| `TaskScenarios.HaltsGenerator` | test/run.test.ts:131-141 | a task halted while it waits on `suspend()` at its second yield settles with `{halt}`; its first yield, of a settled future, is answered with that future's result |
| `TaskScenarios.CleanupMaySuspend` | test/run.test.ts:158-173 | a halted task whose `finally` yields waits on that yield; a second `halt()` does not disturb it; once the yield settles, the task settles with `{halt}` |
| `TaskScenarios.SettlesBeforeLink` | scope.ts:17-50 | a generator whose yielded sub-task settles at once settles before `run` returns, here with 12; it is then no longer in the root scope's task set |
| `TaskScenarios.YieldedConstructionFails` | scope.ts:184-213 | a yielded operation function that throws "boom" when called settles the task with "boom", whatever events follow; the generator's own handler does not run |
| `TaskScenarios.RunsFutures` | test/run.test.ts:11-21 | a task over a resolved future gives its value; a task over a rejected future rejects with that error; a task over a halted future rejects with "halt" |
| `TaskScenarios.OperatorsDelegate` | test/operator.test.ts:5-19 | an operator delegates to an operation function, or to a future, and the task gives "hello" |
| `Scopes.AggregateFails` | scope.ts:82-104 | `destroy` reports an error exactly when some child destruction or task halt reported one |
| `Scopes.AggregateKeepsLastError` | scope.ts:90-103 | the error `destroy` reports is that of a step that failed, and no later step failed: the last error wins |
| `Scopes.Runtime.constructor` | scope.ts:52-56 | module initialisation creates the root scope with id 0, no parent and empty sets; the next id is 1 |
| `Scopes.Runtime.NewScope` | scope.ts:58-75 | `newScope(parent)`: the new scope gets the next id, larger than every existing id, and empty sets; it joins the end of its parent's child set; every other context is unchanged; the tree stays well formed |
| `Scopes.Runtime.CreateScope` | scope.ts:77-79 | `createScope(parent = root)`: a new scope whose parent is the given scope, or the root when none is given, and which is the last child of that parent |
| `Scopes.Runtime.Link` | scope.ts:42-50 | `link(task, scope)`: a pending task joins the scope's task set; a task that has already settled leaves it again at once; no other context changes |
| `Scopes.Runtime.Unlink` | scope.ts:45-48 | the watcher that `link` leaves on the task: when the task settles, exactly that task leaves the scope's task set |
| `Scopes.Runtime.Run` | scope.ts:17-33 | `run(operation, scope = root)`: the task's status is the controller's status after the events that reach it before `run` returns; a constructed task gets the next task id and is in the scope's task set exactly while it is pending; a throwing operation function creates no task and changes no context; contexts of other scopes never change, and the scope's own context changes only by that task joining its task set; the task counter moves on exactly when a task is created |
| `Scopes.Runtime.AddEvalEventListener` | scope.ts:238-243 | the listener joins the scope's listener set, once; no other context changes |
| `Scopes.Runtime.RemoveEvalEventListener` | scope.ts:244-246 | the function `addEvalEventListener` returns: exactly that listener leaves the set; no other context changes |
| `Scopes.Runtime.Destroy` | scope.ts:81-113 | on completion, the scope has neither children nor tasks, and it has left its parent's child set; its original children were destroyed from the last added to the first; then the tasks still there (those not settled by a child's destruction) were halted from the last added to the first, so a task settled by a child's destruction is never halted, and a scope left with no tasks sees only destructions; the report is the aggregate with the last error winning; every halt got its task's acknowledgment; no scope outside the subtree changes; when every halt is acknowledged at once and the fuel covers the tasks of the subtree, it succeeds with the aggregate and uses no more fuel than there are tasks |
| `Scopes.Runtime.TearDown` | scope.ts:86-106 | the loop of `destroy` empties the scope's children and tasks, in the order above: the task phase starts from the tasks left after the children phase; it touches nothing outside the subtree; with prompt acknowledgments and enough fuel it succeeds |
| `Scopes.Runtime.DestroyChildren` | scope.ts:87-95 | the children phase destroys every child in the snapshot once, from the last to the first, and leaves the child set empty; the recorded steps are exactly the destructions of the reversed snapshot; the scope's tasks are then its old tasks less those each destruction settled; it reports the aggregate of the reports; with prompt acknowledgments and enough fuel it succeeds |
| `Scopes.Runtime.DestroyNextChild` | scope.ts:89-93 | one iteration of the children phase: it records the destruction of the next child from the end, destroys it and folds its report into the aggregate |
| `Scopes.Runtime.DestroyChildScope` | scope.ts:89-93 | destroying one popped child removes exactly that child from the child set and the tasks it settled from the task set, and changes nothing else outside its subtree; with prompt acknowledgments and enough fuel it succeeds |
| `Scopes.Runtime.DropSettled` | scope.ts:45-48 | the tasks that settled leave the scope's task set through `link`'s watchers; nothing outside the subtree changes |
| `Scopes.Runtime.HaltTasks` | scope.ts:97-105 | the task phase changes only the scope's task set, and leaves it empty; the first pass halts the tasks from the last added to the first; every halt is acknowledged; it reports the aggregate; with prompt acknowledgments and enough fuel it succeeds |
| `Scopes.AfterHalt` | scope.ts:44-48 | after a task's halt, it has left the task set and the tasks that an outside `run(op, s)` linked meanwhile have joined |
| `Scopes.HaltAll` | scope.ts:97-105 | passes over the task set continue until it is empty; the first pass halts the original tasks from the last added to the first; the report is the aggregate of the acknowledgments; with prompt acknowledgments and fuel for every task it succeeds after one pass |
| `Scopes.HaltPass` | scope.ts:98-104 | one pass over a snapshot halts each task once, from the last to the first, and records each acknowledgment; with prompt acknowledgments and enough fuel it empties the set |
| `Scopes.HaltLast` | scope.ts:98-104 | a halt that links nothing new takes the halted task, the last of the snapshot prefix, off the set |
| `Scopes.DestroyYieldScopeOfSleep` | scope.ts:81-105 | a task halted while it waits on `sleep`: when every halt is acknowledged at once, `destroy` of its yield scope succeeds, and its only own step is destroying the sleep task's yield scope, which holds the timer task; the sleep task settles as a result and is never halted itself |
| `Scopes.SleepTree` | scope.ts:17-33 | the scopes and tasks of that example: scope 1 holds the sleep task 0 and has the child 2, which holds the timer task 1; two tasks in all |
| `Scopes.Ancestry` | scope.ts:265-275 | the ancestry of a scope starts with the scope; each next element is the parent of the one before; it ends at a scope without a parent |
| `Scopes.Runtime.AncestryOf` | scope.ts:265-275 | `ancestryOf(scope)` as evidently intended returns the scope followed by its ancestors up to the root |
| `Scopes.Runtime.AncestryAsWritten` | scope.ts:265-275 | the loop as written: a parentless scope gives `[scope]`; a scope with a parent never returns, and pushes that same parent on every iteration |
| `Scopes.AncestryOfGrandchild` | scope.ts:265-275 | for the scope 2 under the scope 1 under the root, the intended ancestry is `[2, 1, root]` |
| `Scopes.AncestryAsWrittenLoops` | scope.ts:265-275 | for the same scope 2, three iterations of the loop as written give `[2, 1, 1, 1]` and have not returned |

## Left out

- The host promise methods `then`/`catch`/`finally` (future.ts:66-68) are not modelled. How the promise settles is modelled, by `Futures.Settle`.
- Operations are a datatype, and scopes are ids into a map. The `$operation` symbol and the `WeakMap` keyed by scope objects are not modelled.
  - The `Symbol.toStringTag` check is modelled both ways: `Controllers.ClassifyAsWritten` as the code compares it, `Controllers.Classify` as intended (see "## Findings").
  - Everything else in the model uses `Classify`. In particular, futures yielded inside generators are classified as intended.
- `Future.suspend`, `Future.reject` and `Future.halt` are not defined in future.ts, which exports only `resolve` (future.ts:90-92). They are called at scope.ts:221 and by the tests.
  - The model takes `suspend` to be a future that is never produced.
  - It takes `reject` and `halt` to behave like `resolve` with `{error}` and `{halt}`.
- `dispatchEvalEvent` (scope.ts:250-263) is not modelled: nothing in the core calls it. With it go listener invocation and the console warning for a throwing listener.
- Generators are modelled as functions from the actions received so far to a response. Language-level `try`/`finally` is encoded in those functions.
- `Controllers.GeneratorController.Drive`, like `Controllers.Step`, does not model a `halt()` that arrives after a race has settled but before the yield scope's teardown finishes.
  - In the source, the interrupt that such a halt resolves has no race watching it, and the next race waits on the never-produced replacement, so the task is not interrupted.
  - The events cannot express this timing. In the model, a halt is always handled by the current or the next race.
  - Reaching it needs a yield scope that still holds tasks after its sub-task settled. Nothing in the core links such a task, so only a second `halt()` arrives then, and that one is a no-op in both.
- `Controllers.GeneratorController.Drive` gets each yielded sub-task's settlement and its scope's teardown result as given events, rather than running `run` and `destroy` itself. The scope side is modelled separately by `Scopes.Runtime.Destroy`.
- `Scopes.Runtime.Run` does not create or destroy the per-yield scopes (scope.ts:184 and 191). It does not add a task's sub-tasks to the map of contexts.
  - The events that reach the task before `run` returns are a parameter: sub-tasks that settle as soon as they run, with their yield scopes torn down at once.
- `Continuations.Evaluate` takes fuel. It answers `None` when nesting is deeper than the fuel.
  - Shift blocks are first-order: a list of calls on `k` and a return value.
  - Blocks that store `k` for later are modelled by the `Continuation` class.
- `Continuations.Race` is modelled on completion events: which procs complete when they are started, and which complete later. It does not model the procs' own code.
- `Scopes.Runtime.Destroy` is bounded by fuel and driven by oracles:
  - Each task's halt is given by an oracle: the acknowledgment and the tasks that an outside `run(op, s)` links into the scope meanwhile.
  - It answers `None` when an acknowledgment never comes (the source would wait forever) or when the fuel runs out.
  - Each child's destruction is given the scope's tasks it settles (`settledBy`). A generator task of the scope waits on a yield scope that is a child of the scope (scope.ts:184). Destroying that child halts the task's sub-task, the task is resumed and settles, and it leaves the task set before the task phase begins. Such a task is never halted.
- `Scopes.Runtime.Destroy` does not model child scopes that join the scope while it is being destroyed. A halted task whose cleanup yields creates a new yield scope under the scope (scope.ts:184). The model makes one children pass and then the task phase. It does not repeat the inner loop at scope.ts:87 or the outer loop at scope.ts:86 for such late children; a task's own cleanup scopes are counted as part of its acknowledgment.
- `Scopes.Runtime.Destroy` takes each task's acknowledgment from the `react` oracle. The arena does not record which operation a task runs, so these acknowledgments are not tied to `Controllers.HaltAck`. `Controllers.FutureHaltAcknowledged` and `Controllers.GeneratorHaltAcknowledged` state what the acknowledgment is for each kind of task.
- `Scopes.Runtime.HaltTasks` works on a copy of the task set and stores it back at the end. While a halt runs, the scope's other contexts do not change.
- `Scopes.Runtime.HaltTasks` does not issue the tasks an outside `run` links while the scope's tasks are halted one by one through `Run`. It raises the task counter past them at the end instead. So `Destroy` and its phases promise only that the counter never goes down.
- `Scopes.DestroyYieldScopeOfSleep` does not list the timer task's halt. That halt is a step of the nested `destroy(2)`, and `stages` lists only the steps of `destroy(1)` itself.
- The success of `Scopes.Runtime.Destroy` is promised only when every halt is acknowledged at once with no task linked meanwhile (`Prompt`), and the fuel is at least the number of tasks in all scopes (`Load`). Otherwise only the shape of a successful run is promised.
- The `withinContext` assertion (scope.ts:36-40) becomes a precondition: the scope has a context. Every scope the model hands out has one.
- Scope and task ids are unbounded integers. The source's `ids++` is a JavaScript number.
- api.ts holds only types, and mod.ts is not part of this model. test/asserts.ts is not part of this model either.

## Findings

| source | as written | input that shows it | evidently intended | confidence | as-written member | corrected member |
|---|---|---|---|---|---|---|
| scope.ts:144-146 | `isFuture` compares the future's tag with `Future`, but `createFuture` tags every future `[object Future]` (future.ts:69), so no future is recognised; it goes to the generator controller, whose call `operation()` (scope.ts:168) throws a `TypeError` | `run(Future.resolve(5))` throws instead of giving a task that settles with 5; a generator that yields `Future.resolve(12)` settles with that `TypeError` (the controller's `run` at scope.ts:187 throws inside the `try`) | compare with the tag futures carry, so futures get the future controller | high, not executed | `Controllers.ClassifyAsWritten` (with `Controllers.FutureRunThrowsAsWritten`) | `Controllers.Classify` (with `Controllers.ClassifyIgnoresDelegation`, `TaskScenarios.RunsFutures`) |
| scope.ts:265-275 | the loop reads the parent of `scope` and pushes it, but never moves `scope` up, so every iteration pushes the same parent | scope 2 under scope 1 under the root: the list grows 2, 1, 1, 1, … and the call never returns | move to the parent after pushing it, giving 2, 1, root | high, not executed | `Scopes.Runtime.AncestryAsWritten` (with `Scopes.AncestryAsWrittenLoops`) | `Scopes.Runtime.AncestryOf` (with `Scopes.AncestryOfGrandchild`) |
