# simple_coro task runtime core, modelled in Dafny

This project models the core of simple_coro, a small C++20 coroutine task
runtime. It covers two parts.

- The result capsule (`simple_coro/try.hpp`). `Try<R>` holds nothing, a value
  or an exception. `Try<void>` holds success or an exception.
- The task machinery (`simple_coro/task.hpp`). This is `Task`,
  `RescheduleTask`, the three awaiters (`RescheAwaiter`, `SaveCallerAwaiter`,
  `ValueAwaiter`), the final awaiter, the promise's storage (`caller_`,
  `pool_`, `val_`, `_exception`) and `syncAwait`, with the exception
  handling of the `DummyCoro` coroutine type (`simple_coro/dummy.hpp`) that
  the `start` functions spawn.

The task machinery is modelled as an ownership and hand-off state machine
over coroutine frames:

- A frame and its promise form one object, `Tasks.Frame`. Its state is
  suspended at start, running, suspended at its final point, or destroyed.
  A ghost counter `destroys` records how often it was destroyed.
- `Task`, `RescheduleTask` and each awaiter are classes holding one handle
  slot, `coro: Frame?<T>`. Consuming operations move the handle out and
  leave the source slot null, as `std::exchange(coro_, nullptr)` does.
- `Frame.Destroy` requires a live frame, so every verified path destroys a
  frame at most once. The lifecycle methods (`CoAwait`, `Task.Start`,
  `DetachedStart.RunJob`, `SyncAwait`, `SyncAwaitTask`, `CallAndDiscard`)
  state `destroys == 1` on the success path and the failure path, whenever
  they were handed a frame.
  `SetExAndDiscard` states `destroys == 0`: a dropped `RescheduleTask` leaks
  its frame, because that class declares no destructor.
- An executor is the sequence of resume jobs it has accepted
  (`Executors.Executor.jobs`). Worker threads are not modelled.
- User code is a parameter. `Bodies.Body` either finishes with a value or an
  exception, or first `co_await`s the Task of another body. Resuming a frame
  runs its body. Any Task the body awaits is created and driven inside that
  run (`Frame.Resume` and `CoAwait` call each other). The final awaiter then
  names the continuation to resume. `Bodies.Run` gives the outcome a body
  reaches. Every method that delivers a result is proved equal to it.

Exceptions are opaque values (`Utils.Exception`). A call either returns or
throws (`Utils.Outcome`). A `logicAssert` failure is a `Throws(LogicError(..))`
outcome. Undefined behaviour in the C++ code becomes a precondition. This
covers dereferencing a null coroutine handle (in `Task::setEx`, `Task::start`
and the awaiters other than `RescheAwaiter`), reading `pool_` before
`setPool`, rethrowing a null `exception_ptr`, and destroying a frame twice.
A null handle in a `RescheduleTask` is not undefined: `RescheAwaiter`'s
`await_suspend` checks it with `logicAssert` (task.hpp:91), and the model
covers that path.

The `destroys` counter always equals one for a destroyed frame and zero
otherwise (`Frame.Valid`). So the guarantee that no frame is destroyed twice
rests on the precondition of `Frame.Destroy`, which every caller must meet.
The `destroys == 1` clauses of the lifecycle methods state that the frame
ends destroyed on that path.

Failures do not reach the `start` callbacks. Every awaiter's `await_resume`
throws the stored `exception_ptr` object (task.hpp:101-103, 146-149,
190-193). Returning a failed `Try` instead is the alternative left commented
out at lines 148 and 192. `DummyCoro`'s `unhandled_exception` (dummy.hpp:19-26)
catches only `std::exception`, and an `exception_ptr` object is not one. So
the exception leaves the `DummyCoro`:
- `Task::start` runs on the calling thread, so the exception leaves `start`,
  and `syncAwait` on a `Task` throws it.
- For a `RescheduleTask`, the exception leaves the worker's job
  (`DetachedStart.RunJob`). The callback never runs and the semaphore is
  never released, so `syncAwait` never returns (`Tasks.SyncAwait` returns
  `None`). The process does not hang, though: the exception escapes `first()`
  in `runLoop` (threadpool.hpp:65) and the thread's entry function, which
  calls `std::terminate`; the `noexcept` on `await_resume` (task.hpp:99)
  calls it even earlier. This is listed under "## Findings".

A `logicAssert` failure in `RescheAwaiter`'s `await_suspend` (no handle, or
no executor) is a `std::logic_error`. `DummyCoro` catches and logs it, and
`RescheduleTask::start` returns normally. The awaiter's destructor has by
then destroyed the frame, if it held one.

## Model

| member | source | states |
|---|---|---|
| `Utils.LogicAssert` | simple_coro/utils.h:7-16 | returns normally exactly when the condition holds, and otherwise fails with std::logic_error carrying the message |
| `TryCapsule.Try.constructor` | simple_coro/try.hpp:10-12 | a default Try holds nothing: bool is false and value() throws runtime_error "no value" |
| `TryCapsule.Try.Of` | simple_coro/try.hpp:18-21 | the value constructor holds v: bool is true and value() returns v |
| `TryCapsule.Try.Value` | simple_coro/try.hpp:31-43 | value() returns normally iff operator bool is true, and then returns the held value; otherwise it rethrows the held exception, or throws runtime_error "no value" when empty |
| `TryCapsule.Try.Emplace` | simple_coro/try.hpp:24-27 | whatever was held before, afterwards exactly v is held, bool is true and value() returns v (the last write wins) |
| `TryCapsule.Try.SetException` | simple_coro/try.hpp:28-30 | whatever was held before, afterwards exactly e is held, bool is false and value() rethrows e |
| `TryCapsule.Try.MoveAssign` | simple_coro/try.hpp:15-16 | move assignment makes this capsule hold the other's alternative |
| `TryCapsule.TryVoid.constructor` | simple_coro/try.hpp:49 | a default Try<void> is success: bool is true and value() returns normally |
| `TryCapsule.TryVoid.FromException` | simple_coro/try.hpp:57 | the exception constructor holds eptr; bool is true only for a null eptr |
| `TryCapsule.TryVoid.Value` | simple_coro/try.hpp:59-66 | value() rethrows iff an exception is held, rethrows exactly that exception, and returns normally iff bool is true |
| `TryCapsule.TryVoid.Clear` | simple_coro/try.hpp:69 | clear resets to success |
| `TryCapsule.TryVoid.SetException` | simple_coro/try.hpp:72 | setException stores eptr; with a non-null eptr bool becomes false and value() rethrows it |
| `TryCapsule.TryVoid.Take` | simple_coro/try.hpp:75-79 | take returns the held exception without throwing and leaves the capsule in success |
| `TryCapsule.TakeTwice` | simple_coro/try.hpp:75-79 | a first take returns the held exception and a second take returns null |
| `Executors.Executor.constructor` | simple_coro/threadpool.hpp:21-27 | a new executor has no pending jobs |
| `Executors.Executor.Push` | simple_coro/threadpool.hpp:29-35 | push appends exactly one job at the end of the queue and runs nothing |
| `Executors.Executor.Dequeue` | simple_coro/threadpool.hpp:62-63 | a worker takes one job out of the queue to run it, and every other job keeps its place and order |
| `Bodies.FailurePropagates` | simple_coro/task.hpp:188-193 | a failure raised by the innermost body of an arbitrarily long chain of nested awaits reaches the outermost frame unchanged, up to the `exception_ptr` wrapping each await level adds |
| `Tasks.SuspendAlways.AwaitReady` | simple_coro/task.hpp:14-17 | never ready, so tasks start lazily |
| `Tasks.FinalAwaiter.AwaitReady` | simple_coro/task.hpp:36-38 | never ready: every frame suspends at its final point |
| `Tasks.FinalAwaiter.AwaitSuspend` | simple_coro/task.hpp:40-46 | fails through logicAssert iff the continuation is unset, and otherwise transfers to exactly the recorded continuation |
| `Tasks.Frame.constructor` | simple_coro/task.hpp:52-68 | a new frame is suspended at its start with caller_ null, pool_ indeterminate, no value and a null _exception |
| `Tasks.Frame.GetReturnObject` | simple_coro/task.hpp:371-374 | get_return_object yields a new Task holding this frame's handle |
| `Tasks.Frame.SetPool` | simple_coro/task.hpp:60-63 | setPool stores the executor in pool_ and changes no other promise field |
| `Tasks.Frame.ReturnValue` | simple_coro/task.hpp:236-242 | return_value stores the value unless an exception was already captured, in which case it rethrows that exception and stores nothing |
| `Tasks.Frame.UnhandledException` | simple_coro/task.hpp:245-247 | unhandled_exception records the current exception and changes nothing else |
| `Tasks.Frame.Destroy` | simple_coro/task.hpp:331-335 | destroying needs a live frame (a second destroy is undefined); afterwards the frame is destroyed and its count is one higher |
| `Tasks.Frame.Complete` | simple_coro/task.hpp:236-247 | the end of a body stores the returned value, or records the exception that left the body |
| `Tasks.Frame.Resume` | simple_coro/task.hpp:35-58 | resuming a frame at its start runs the body to its final point with the body's outcome stored in the promise, and then transfers to exactly the recorded caller, or fails through logicAssert if none was recorded |
| `Tasks.RescheAwaiter.constructor` | simple_coro/task.hpp:73 | the awaiter holds the given handle |
| `Tasks.RescheAwaiter.Move` | simple_coro/task.hpp:75-76 | the move constructor takes the handle and nulls the source |
| `Tasks.RescheAwaiter.Drop` | simple_coro/task.hpp:78-82 | the destructor destroys the frame once if the handle is still held, and does nothing otherwise |
| `Tasks.RescheAwaiter.AwaitReady` | simple_coro/task.hpp:84-86 | never ready |
| `Tasks.RescheAwaiter.AwaitSuspend` | simple_coro/task.hpp:88-97 | fails with logic_error "coro is nullptr" without a handle, and with " coro_.promise().pool_ is nullptr" without an executor; otherwise records the caller as continuation and pushes exactly one job resuming the callee onto that executor |
| `Tasks.RescheAwaiter.AwaitResume` | simple_coro/task.hpp:99-115 | with a captured exception it throws that exception and keeps the frame for the destructor; otherwise it returns a Try holding the stored value, destroys the frame once and nulls the handle |
| `Tasks.RescheAwaiter.AwaitResumeIntended` | simple_coro/task.hpp:144-149 | a reading of the intent behind the commented-out alternative, which sets the exception on an empty Try and destroys the frame in place: the frame is destroyed once on both paths and the handle nulled, and value() of the returned Try is exactly the outcome the body reached, its exception included |
| `Tasks.SaveCallerAwaiter.constructor` | simple_coro/task.hpp:121 | the awaiter holds the given handle |
| `Tasks.SaveCallerAwaiter.Move` | simple_coro/task.hpp:123-124 | the move constructor takes the handle and nulls the source |
| `Tasks.SaveCallerAwaiter.Drop` | simple_coro/task.hpp:126-130 | the destructor destroys the frame once if the handle is still held, and does nothing otherwise |
| `Tasks.SaveCallerAwaiter.AwaitReady` | simple_coro/task.hpp:132-134 | never ready |
| `Tasks.SaveCallerAwaiter.AwaitSuspend` | simple_coro/task.hpp:136-142 | records the caller as continuation and transfers straight to the callee frame, with no executor involved |
| `Tasks.SaveCallerAwaiter.AwaitResume` | simple_coro/task.hpp:144-160 | with a captured exception it throws that exception and keeps the frame for the destructor; otherwise it returns a Try holding the moved value, destroys the frame once and nulls the handle |
| `Tasks.ValueAwaiter.constructor` | simple_coro/task.hpp:166 | the awaiter holds the given handle |
| `Tasks.ValueAwaiter.Move` | simple_coro/task.hpp:168-169 | the move constructor takes the handle and nulls the source |
| `Tasks.ValueAwaiter.Drop` | simple_coro/task.hpp:171-175 | the destructor destroys the frame once if the handle is still held, and does nothing otherwise |
| `Tasks.ValueAwaiter.AwaitReady` | simple_coro/task.hpp:177-179 | never ready |
| `Tasks.ValueAwaiter.AwaitSuspend` | simple_coro/task.hpp:181-186 | records the caller as continuation and transfers straight to the callee frame, with no executor involved |
| `Tasks.ValueAwaiter.AwaitResume` | simple_coro/task.hpp:188-204 | with a captured exception it throws that exception and keeps the frame for the destructor; otherwise it returns the stored value, destroys the frame once and nulls the handle |
| `Tasks.DummyCoro.UnhandledException` | simple_coro/dummy.hpp:19-26 | a std::exception leaving a DummyCoro body is caught, and the coroutine ends normally; an exception_ptr object is not caught and leaves it unchanged |
| `Tasks.DetachedStart.constructor` | simple_coro/task.hpp:315-318 | the detached coroutine holds the awaiter it co_awaits, and its own fresh DummyCoro promise |
| `Tasks.DetachedStart.RunJob` | simple_coro/task.hpp:315-318 | when a worker runs the job start pushed, the frame's body runs and hands back to the detached coroutine; the callback receives a Try holding the body's value, or the body's exception passes DummyCoro's handler and leaves the job; the frame is destroyed exactly once and the job leaves the queue |
| `Tasks.DetachedStart.RunJobIntended` | simple_coro/task.hpp:315-318 | with the intended await_resume the callback always runs, and value() of the Try it receives is exactly the body's outcome, failure included; the frame is destroyed exactly once and the job leaves the queue |
| `Tasks.Task.constructor` | simple_coro/task.hpp:329 | the Task holds the given handle |
| `Tasks.Task.Move` | simple_coro/task.hpp:343-345 | the move constructor takes the handle and nulls the source |
| `Tasks.Task.Drop` | simple_coro/task.hpp:331-335 | the destructor destroys the frame once if the handle is still held, started or not, and does nothing otherwise |
| `Tasks.Task.SetEx` | simple_coro/task.hpp:337-341 | setEx stores the executor in the promise's pool_ and moves the handle into a new RescheduleTask, leaving the Task null |
| `Tasks.Task.CoAwaitTry` | simple_coro/task.hpp:347-350 | coAwaitTry moves the handle into a new SaveCallerAwaiter, leaving the Task null |
| `Tasks.Task.OperatorCoAwait` | simple_coro/task.hpp:361-365 | co_await moves the handle into a new ValueAwaiter, leaving the Task null |
| `Tasks.Task.Start` | simple_coro/task.hpp:352-359 | start runs the chain on the calling thread; the callback receives a Try holding the body's value, or the body's exception passes DummyCoro's handler and leaves start; the Task ends null and the frame is destroyed exactly once |
| `Tasks.RescheduleTask.constructor` | simple_coro/task.hpp:301 | the RescheduleTask holds the given handle |
| `Tasks.RescheduleTask.Move` | simple_coro/task.hpp:303-304 | the move constructor takes the handle and nulls the source |
| `Tasks.RescheduleTask.CoAwaitTry` | simple_coro/task.hpp:307-310 | coAwaitTry moves the handle into a new RescheAwaiter, leaving the RescheduleTask null |
| `Tasks.RescheduleTask.Start` | simple_coro/task.hpp:312-319 | start pushes exactly one resume job to the bound executor and runs nothing, with the detached coroutine recorded as continuation; without a handle or without an executor the logicAssert failure is caught and logged by the detached coroutine, start returns, and a held frame is destroyed once |
| `Tasks.Call` | simple_coro/task.hpp:208-214 | calling a coroutine function yields a Task owning a new frame whose body has not run (the start is lazy) |
| `Tasks.CoAwait` | simple_coro/task.hpp:163-205 | co_await of a Task inside a body yields exactly the callee's outcome; the callee's continuation is the caller, the callee frame is destroyed exactly once on both paths, and the Task ends null |
| `Tasks.SyncAwait` | simple_coro/task.hpp:381-396 | syncAwait returns exactly when a handle and an executor were present and the body returned normally, and then it returns the body's value, taken from the Try the callback delivered; on every other path the semaphore is never released and it never returns; a held frame is destroyed exactly once and the executor's queue is as before |
| `Tasks.SyncAwaitOfFailingBody` | simple_coro/task.hpp:381-396 | syncAwait on a RescheduleTask whose body throws never returns |
| `Tasks.SyncAwaitIntended` | simple_coro/task.hpp:381-396 | over the intended await_resume, syncAwait returns whenever a handle and an executor were present, and returns exactly the body's outcome, value or exception; a held frame is destroyed exactly once |
| `Tasks.SyncAwaitIntendedOfFailingBody` | simple_coro/task.hpp:381-396 | over the intended await_resume, syncAwait on a body that throws e returns, and value() rethrows e |
| `Tasks.SyncAwaitTask` | simple_coro/task.hpp:381-396 | syncAwait on a plain Task returns value() of the Try the callback delivered, which is the body's outcome up to the `exception_ptr` wrapping of a failure, and destroys the frame exactly once |
| `Tasks.SetExAndDiscard` | simple_coro/task.hpp:297-322 | a RescheduleTask dropped unconsumed never destroys its frame (it has no destructor), and the Task it came from no longer does either |
| `Tasks.CallAndDiscard` | simple_coro/task.hpp:331-335 | a Task dropped unconsumed destroys its frame exactly once and the body never runs |

## Left out

- Worker threads, the mutex, the condition variable and the stop flag of `ThreadPool`, and `AsioExecutor`, are not modelled. An executor is only the queue of resume jobs it holds. `simple_coro/asio_coro.hpp`, `simple_coro/dummy.hpp`'s logging and the example programs are not part of this model.
- Tasks.SyncAwait: the binary semaphore becomes one sequential step, in which a worker runs the job this call pushed; a wait that never ends is the result `None`. Jobs queued earlier belong to other chains; the model leaves them queued and does not run them.
- Executors.Executor.Dequeue: `runLoop` always pops the front of the queue, but the model lets the job at any position be taken. Several workers pop concurrently, and the jobs ahead of a chain's own job go to other workers running other chains, which are not modelled. With position 0 it is the front pop.
- Bodies.Body: the Task a body awaits has the awaiting body's value type. `await_transform(Task<U>&&)` accepts a Task of any value type, as when a `Task<int>` awaits a `Task<void>`.
- Tasks.SaveCallerAwaiter.AwaitResume: for a non-void `T`, task.hpp:155 copy-initialises `Try<T>` from a `T`, which needs the constructor at try.hpp:18-19, and that constructor is `explicit`. By reading, this does not compile, so `Task::start` and `syncAwait` on a `Task<T>` only compile for `T = void`. The model gives them the meaning evidently intended for every `T`.
- Real suspension, symmetric transfer and thread hops are sequential calls. A frame that awaits another Task stays `Running` while the callee runs.
- Coroutine bodies can only finish, or `co_await` a Task (the `ValueAwaiter` path) and then finish. A body that calls `coAwaitTry()` on a Task, awaits several Tasks, or awaits other awaitables passed through `await_transform` is not modelled. Awaiting a `RescheduleTask` inside a body is not modelled either. `await_transform(RescheduleTask<U>&&)` calls `awaiter->coAwaitTry()`, and `RescheduleTask` has no `operator->`, so that overload cannot be instantiated.
- The `void` specialisations (`promise<void>`, `Task<void>`) are modelled as the unit type `()`. `return_void` is `ReturnValue(())`, and an awaiter's `Try<void>{}` result is a Try holding `()`. `Try<void>` itself is modelled separately as `TryCapsule.TryVoid`.
- `promise<void>`'s `await_transform` passes the same Task through. `promise<T>`'s version moves it into a temporary, and the model always moves. Nothing differs, since the moved-from Task's destructor does nothing.
- An exception thrown in a `noexcept` function (`await_resume`, and a failing `logicAssert` inside `await_suspend`) calls `std::terminate`. The model treats it as an ordinary throw: the destructors of the awaiter temporaries run, and `DummyCoro`'s handler then sees the exception. Under `std::terminate` none of this happens, and no frame is destroyed.
- Exceptions are opaque values, and the identity of a `std::exception_ptr` is not modelled. Every `await_resume` throws the pointer object itself (`throw coro_.promise()._exception;` at task.hpp:102, 147 and 191), so the awaiting body's `unhandled_exception` stores a pointer to that pointer object, not to the original failure. Each await level adds one such wrapper: after a chain k awaits deep, the outermost `_exception` reaches the failure only through k nested `exception_ptr` objects, and what leaves `Task::start` (and `syncAwait` on a `Task`) is such a pointer object, which a `catch (std::exception &)` does not match. `Utils.Exception` treats the wrapped failure as the failure itself; only `DummyCoro`'s handler tells the two apart, through `Tasks.Thrown.PointerObject`.
- TryCapsule.Try.MoveAssign: copies the other capsule's alternative and leaves the source unchanged. A moved-from value or `exception_ptr` is not modelled, because the runtime never reads the source again.
- `Try<R>::value()` returns a reference; the model returns the value.
- The `debug()` tracing macro, spdlog output and `source_location` reports are not modelled.

## Findings

| source | as written | input that shows it | evidently intended | confidence | as-written member | corrected member |
|---|---|---|---|---|---|---|
| simple_coro/task.hpp:99-103 | `RescheAwaiter::await_resume` throws the captured exception, so `syncAwait`'s callback never runs, the semaphore is never released, and `syncAwait` on a `RescheduleTask` never returns: the exception escapes `first()` in `runLoop` (threadpool.hpp:65) and the thread's entry function, which calls `std::terminate`, and the `noexcept` on `await_resume` already calls it before that | a body that throws, bound to an executor with `setEx` and passed to `syncAwait` | a `Try` holding the exception reaches the callback (the alternative commented out at task.hpp:148 and 192), and `syncAwait` rethrows it from `value()` | high, not executed | `Tasks.SyncAwaitOfFailingBody` | `Tasks.SyncAwaitIntendedOfFailingBody` |
