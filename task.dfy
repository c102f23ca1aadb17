/** The task machinery of simple_coro/task.hpp as an ownership and hand-off
    state machine. A coroutine frame (with its promise) is an object; Task,
    RescheduleTask and the three awaiters each hold a handle slot that is
    either null or points at a frame; consuming operations move the handle
    out of its slot, and the slot that still holds it destroys the frame.
    Coroutine suspension and resumption are sequential calls: resuming a
    frame runs its body up to the final awaiter, whose answer names the
    continuation to resume next. */
module Tasks {
  import opened Utils
  import opened TryCapsule
  import opened Executors
  import opened Bodies

  /** Where a coroutine frame is in its life: suspended at its initial
      suspend point (body not started), running its body, suspended at its
      final suspend point (result stored), or destroyed. */
  datatype FrameState = Suspended | Running | FinalSuspended | Destroyed

  /** promise_base::pool_ has no initialiser: until setPool runs its value
      is indeterminate, and reading it is undefined. */
  datatype PoolField = Indeterminate | Pool(executor: Executor?)

  /** The awaiter initial_suspend returns. */
  datatype SuspendAlways = SuspendAlwaysAwaiter {
    /** Never ready, so a coroutine suspends before running its body. */
    method AwaitReady() returns (ready: bool)
      ensures !ready
    {
      ready := false;
    }
  }

  /** The awaiter final_suspend returns. */
  datatype FinalAwaiter = FinalAwaiterValue {
    method AwaitReady() returns (ready: bool)
      ensures !ready
    {
      ready := false;
    }

    /** The continuation to transfer to: the recorded caller, or a
        logicAssert failure when none was recorded. */
    function AwaitSuspend<T>(coro: Frame<T>): (next: Outcome<object>)
      reads coro
      ensures next.Normal? <==> coro.caller != null
      ensures next.Normal? ==> next.value == coro.caller
      ensures next.Throws? ==> next.exception == LogicError("coro.promise().caller_")
    {
      var check := LogicAssert(coro.caller != null, "coro.promise().caller_");
      if check.Throws? then Throws(check.exception) else Normal(coro.caller)
    }
  }

  /** The executor a frame's pool_ names, when the frame exists and pool_ was set. */
  function PoolOf<T>(f: Frame?<T>): Executor?
    reads f
  {
    if f != null && f.pool.Pool? then f.pool.executor else null
  }

  /** A coroutine frame together with its promise (promise_base<T> and
      promise<T>): caller_, pool_, val_ and _exception. The body is the code
      the coroutine was called with. The ghost counter records how often the
      frame was destroyed. */
  class Frame<T> {
    const body: Body<T>
    var state: FrameState
    var caller: object?
    var pool: PoolField
    var val: Option<T>
    var exception: Option<Exception>
    ghost var destroys: nat

    ghost predicate Valid()
      reads this
    {
      && destroys == (if state == Destroyed then 1 else 0)
      && (state == Suspended ==> val == None && exception == None)
      && (state == FinalSuspended ==> Settled())
    }

    /** The promise stores what the body reached: the returned value, or the
        exception that left the body. */
    ghost predicate Settled()
      reads this
    {
      match Run(body)
      case Normal(v) => val == Some(v) && exception == None
      case Throws(e) => exception == Some(e)
    }

    /** The promise fields keep their values; only the frame's state may
        have changed. */
    twostate predicate PromiseKept()
      reads this
    {
      caller == old(caller) && pool == old(pool) && val == old(val) && exception == old(exception)
    }

    /** Calling a coroutine function allocates its frame: caller_ is null,
        pool_ indeterminate, val_ unset and _exception null. */
    constructor (body: Body<T>)
      ensures Valid() && this.body == body && state == Suspended
      ensures caller == null && pool == Indeterminate
    {
      this.body := body;
      state := Suspended;
      caller := null;
      pool := Indeterminate;
      val := None;
      exception := None;
      destroys := 0;
    }

    /** get_return_object: a Task holding the handle of this frame. */
    method GetReturnObject() returns (t: Task<T>)
      ensures fresh(t) && t.coro == this
    {
      t := new Task(this);
    }

    /** setPool: records the executor; no other promise field changes. */
    method SetPool(ex: Executor?)
      modifies this
      ensures pool == Pool(ex)
      ensures state == old(state) && caller == old(caller) && val == old(val)
      ensures exception == old(exception) && destroys == old(destroys)
    {
      pool := Pool(ex);
    }

    /** return_value: stores the value unless an exception was already
        captured, which it rethrows instead. */
    method ReturnValue(v: T) returns (o: Outcome<()>)
      modifies this
      ensures old(exception).None? ==> o == Normal(()) && val == Some(v)
      ensures old(exception).Some? ==> o == Throws(old(exception).value) && val == old(val)
      ensures state == old(state) && caller == old(caller) && pool == old(pool)
      ensures exception == old(exception) && destroys == old(destroys)
    {
      if exception.Some? {
        o := Throws(exception.value);
        return;
      }
      val := Some(v);
      o := Normal(());
    }

    /** unhandled_exception: records the exception that left the body. */
    method UnhandledException(e: Exception)
      modifies this
      ensures exception == Some(e)
      ensures state == old(state) && caller == old(caller) && pool == old(pool)
      ensures val == old(val) && destroys == old(destroys)
    {
      exception := Some(e);
    }

    /** coroutine_handle::destroy. Destroying a frame twice is undefined, so
        every caller must show the frame is still alive. */
    method Destroy()
      requires Valid() && state != Destroyed
      modifies this
      ensures Valid() && state == Destroyed && destroys == old(destroys) + 1
      ensures PromiseKept()
    {
      state := Destroyed;
      destroys := destroys + 1;
    }

    /** The end of the body: co_return v goes through return_value, and an
        exception leaving the body through unhandled_exception. */
    method Complete(o: Outcome<T>)
      requires state == Running && exception == None
      modifies this
      ensures o.Normal? ==> val == Some(o.value) && exception == None
      ensures o.Throws? ==> exception == Some(o.exception) && val == old(val)
      ensures state == old(state) && caller == old(caller) && pool == old(pool)
      ensures destroys == old(destroys)
    {
      match o
      case Normal(v) =>
        var stored := ReturnValue(v);
      case Throws(e) =>
        UnhandledException(e);
    }

    /** coroutine_handle::resume on a frame suspended at its start: the body
        runs (awaiting the Tasks it calls), its outcome lands in the promise,
        and at the final suspend point the final awaiter names the
        continuation: exactly the recorded caller, or a logicAssert failure
        when no caller was recorded. */
    method Resume() returns (next: Outcome<object>)
      requires Valid() && state == Suspended
      modifies this
      decreases body, 0
      ensures Valid() && state == FinalSuspended && Settled()
      ensures caller == old(caller) && pool == old(pool)
      ensures old(caller) != null ==> next == Normal(old(caller))
      ensures old(caller) == null ==> next == Throws(LogicError("coro.promise().caller_"))
    {
      state := Running;
      match body {
        case Finish(o) =>
          Complete(o);
        case AwaitThen(callee, k) =>
          var t := Call(callee);
          var x := CoAwait(this, t);
          if x.Throws? {
            UnhandledException(x.exception);
          } else {
            Complete(k(x.value));
          }
      }
      state := FinalSuspended;
      var final := FinalAwaiterValue;
      var ready := final.AwaitReady();
      next := final.AwaitSuspend(this);
    }
  }

  /** The result a Try-returning awaiter hands over, against the outcome the
      awaited body reached: a capsule holding the value, or the exception. */
  ghost predicate Delivers<T>(r: Outcome<Try<T>>, expected: Outcome<T>)
    reads if r.Normal? then {r.value} else {}
  {
    match expected
    case Normal(v) => r.Normal? && r.value.result == Holds(v)
    case Throws(e) => r == Throws(e)
  }

  /** The awaiter of RescheduleTask::coAwaitTry: it resumes the callee
      through the callee's executor. */
  class RescheAwaiter<T> {
    var coro: Frame?<T>

    ghost predicate Valid()
      reads this, coro
    {
      coro != null ==> coro.Valid() && coro.state != Destroyed
    }

    constructor (h: Frame?<T>)
      ensures coro == h
    {
      coro := h;
    }

    /** The move constructor takes the handle and leaves the source null. */
    constructor Move(other: RescheAwaiter<T>)
      modifies other
      ensures coro == old(other.coro) && other.coro == null
    {
      coro := other.coro;
      other.coro := null;
    }

    /** The destructor destroys the frame only if the handle is still held. */
    method Drop()
      requires Valid()
      modifies coro
      ensures coro == old(coro)
      ensures coro != null ==> coro.state == Destroyed && coro.destroys == 1 && coro.PromiseKept()
    {
      if coro != null {
        coro.Destroy();
      }
    }

    method AwaitReady() returns (ready: bool)
      ensures !ready
    {
      ready := false;
    }

    /** Fails through logicAssert without a handle or without an executor;
        otherwise records the caller as continuation and pushes exactly one
        job, resuming the callee, onto the callee's executor. */
    method AwaitSuspend(caller: object) returns (o: Outcome<()>)
      requires coro != null ==> coro.pool.Pool?
      modifies coro, PoolOf(coro)
      ensures coro == old(coro)
      ensures coro == null ==> o == Throws(LogicError("coro is nullptr"))
      ensures coro != null && old(coro.pool).executor == null ==>
        o == Throws(LogicError(" coro_.promise().pool_ is nullptr")) && coro.caller == old(coro.caller)
      ensures coro != null && old(coro.pool).executor != null ==>
        && o == Normal(())
        && coro.caller == caller
        && old(coro.pool).executor.jobs == old(coro.pool.executor.jobs) + [ResumeJob(coro)]
      ensures coro != null ==>
        && coro.state == old(coro.state) && coro.pool == old(coro.pool) && coro.val == old(coro.val)
        && coro.exception == old(coro.exception) && coro.destroys == old(coro.destroys)
    {
      var check := LogicAssert(coro != null, "coro is nullptr");
      if check.Throws? {
        o := check;
        return;
      }
      var ex := coro.pool.executor;
      check := LogicAssert(ex != null, " coro_.promise().pool_ is nullptr");
      if check.Throws? {
        o := check;
        return;
      }
      coro.caller := caller;
      ex.Push(ResumeJob(coro));
      o := Normal(());
    }

    /** After the callee finished: a captured exception is thrown, leaving
        the frame to the destructor; otherwise the value is copied into a
        Try, the frame destroyed and the handle nulled. */
    method AwaitResume() returns (r: Outcome<Try<T>>)
      requires coro != null && coro.Valid() && coro.state == FinalSuspended
      modifies this, coro
      ensures r.Normal? ==> fresh(r.value)
      ensures Delivers(r, Run(old(coro).body))
      ensures r.Normal? ==> coro == null && old(coro).state == Destroyed && old(coro).destroys == 1
      ensures old(coro).PromiseKept()
      ensures r.Throws? ==> coro == old(coro) && coro.Valid() && coro.state == FinalSuspended
    {
      if coro.exception.Some? {
        r := Throws(coro.exception.value);
        return;
      }
      var ret := new Try<T>.Of(coro.val.value);
      coro.Destroy();
      coro := null;
      r := Normal(ret);
    }

    /** A reading of the intent behind the alternative left commented out
        in the other awaiters: a captured exception is handed over inside the
        Try instead of thrown. As written, that line would return before the
        frame is destroyed (the destructor would then destroy it) and, for a
        non-void T, would build the value from the exception_ptr; this
        method instead sets the exception on an empty Try and destroys the
        frame in place. The frame is destroyed on both paths, and value() of
        the Try is exactly the outcome the body reached. */
    method AwaitResumeIntended() returns (r: Try<T>)
      requires coro != null && coro.Valid() && coro.state == FinalSuspended
      modifies this, coro
      ensures fresh(r) && coro == null
      ensures old(coro).state == Destroyed && old(coro).destroys == 1
      ensures old(coro).PromiseKept()
      ensures !(r.result.Failed? && r.result.eptr.None?)
      ensures r.Value() == Run(old(coro).body)
    {
      if coro.exception.Some? {
        r := new Try<T>();
        r.SetException(coro.exception);
      } else {
        r := new Try<T>.Of(coro.val.value);
      }
      coro.Destroy();
      coro := null;
    }
  }

  /** The awaiter of Task::coAwaitTry: it transfers straight to the callee
      and hands back a Try. */
  class SaveCallerAwaiter<T> {
    var coro: Frame?<T>

    ghost predicate Valid()
      reads this, coro
    {
      coro != null ==> coro.Valid() && coro.state != Destroyed
    }

    constructor (h: Frame?<T>)
      ensures coro == h
    {
      coro := h;
    }

    /** The move constructor takes the handle and leaves the source null. */
    constructor Move(other: SaveCallerAwaiter<T>)
      modifies other
      ensures coro == old(other.coro) && other.coro == null
    {
      coro := other.coro;
      other.coro := null;
    }

    /** The destructor destroys the frame only if the handle is still held. */
    method Drop()
      requires Valid()
      modifies coro
      ensures coro == old(coro)
      ensures coro != null ==> coro.state == Destroyed && coro.destroys == 1 && coro.PromiseKept()
    {
      if coro != null {
        coro.Destroy();
      }
    }

    method AwaitReady() returns (ready: bool)
      ensures !ready
    {
      ready := false;
    }

    /** Records the caller as continuation and names the callee as the
        frame to transfer to; no executor is involved. Using a null handle
        is undefined. */
    method AwaitSuspend(caller: object) returns (h: Frame<T>)
      requires coro != null
      modifies coro
      ensures h == coro && coro == old(coro)
      ensures h.caller == caller
      ensures h.state == old(h.state) && h.pool == old(h.pool) && h.val == old(h.val)
      ensures h.exception == old(h.exception) && h.destroys == old(h.destroys)
    {
      coro.caller := caller;
      h := coro;
    }

    /** After the callee finished: a captured exception is thrown, leaving
        the frame to the destructor; otherwise the value is moved into a
        Try, the frame destroyed and the handle nulled. */
    method AwaitResume() returns (r: Outcome<Try<T>>)
      requires coro != null && coro.Valid() && coro.state == FinalSuspended
      modifies this, coro
      ensures r.Normal? ==> fresh(r.value)
      ensures Delivers(r, Run(old(coro).body))
      ensures r.Normal? ==> coro == null && old(coro).state == Destroyed && old(coro).destroys == 1
      ensures old(coro).PromiseKept()
      ensures r.Throws? ==> coro == old(coro) && coro.Valid() && coro.state == FinalSuspended
    {
      if coro.exception.Some? {
        r := Throws(coro.exception.value);
        return;
      }
      var ret := new Try<T>.Of(coro.val.value);
      coro.Destroy();
      coro := null;
      r := Normal(ret);
    }
  }

  /** The awaiter of Task's operator co_await: it transfers straight to the
      callee and hands back the bare value. */
  class ValueAwaiter<T> {
    var coro: Frame?<T>

    ghost predicate Valid()
      reads this, coro
    {
      coro != null ==> coro.Valid() && coro.state != Destroyed
    }

    constructor (h: Frame?<T>)
      ensures coro == h
    {
      coro := h;
    }

    /** The move constructor takes the handle and leaves the source null. */
    constructor Move(other: ValueAwaiter<T>)
      modifies other
      ensures coro == old(other.coro) && other.coro == null
    {
      coro := other.coro;
      other.coro := null;
    }

    /** The destructor destroys the frame only if the handle is still held. */
    method Drop()
      requires Valid()
      modifies coro
      ensures coro == old(coro)
      ensures coro != null ==> coro.state == Destroyed && coro.destroys == 1 && coro.PromiseKept()
    {
      if coro != null {
        coro.Destroy();
      }
    }

    method AwaitReady() returns (ready: bool)
      ensures !ready
    {
      ready := false;
    }

    /** Records the caller as continuation and names the callee as the
        frame to transfer to; no executor is involved. Using a null handle
        is undefined. */
    method AwaitSuspend(caller: object) returns (h: Frame<T>)
      requires coro != null
      modifies coro
      ensures h == coro && coro == old(coro)
      ensures h.caller == caller
      ensures h.state == old(h.state) && h.pool == old(h.pool) && h.val == old(h.val)
      ensures h.exception == old(h.exception) && h.destroys == old(h.destroys)
    {
      coro.caller := caller;
      h := coro;
    }

    /** After the callee finished: a captured exception is thrown, leaving
        the frame to the destructor; otherwise the value is moved out, the
        frame destroyed and the handle nulled. */
    method AwaitResume() returns (r: Outcome<T>)
      requires coro != null && coro.Valid() && coro.state == FinalSuspended
      modifies this, coro
      ensures r == Run(old(coro).body)
      ensures r.Normal? ==> coro == null && old(coro).state == Destroyed && old(coro).destroys == 1
      ensures old(coro).PromiseKept()
      ensures r.Throws? ==> coro == old(coro) && coro.Valid() && coro.state == FinalSuspended
    {
      if coro.exception.Some? {
        r := Throws(coro.exception.value);
        return;
      }
      var v := coro.val.value;
      coro.Destroy();
      coro := null;
      r := Normal(v);
    }
  }

  /** What leaves the body of a DummyCoro coroutine: a std::exception
      object thrown by value (logicAssert throws std::logic_error), or the
      std::exception_ptr object itself, which every await_resume throws. */
  datatype Thrown = StdException(e: Exception) | PointerObject(e: Exception)

  /** The fire-and-forget coroutine type both start functions spawn. It
      suspends neither at its start nor at its end, so it runs as soon as it
      is called and frees its own frame when its body ends. */
  class DummyCoro {
    constructor ()
    {
    }

    /** unhandled_exception rethrows the current exception and catches
        std::exception: such an exception is logged and the coroutine ends
        normally. An exception_ptr object is no std::exception, so it leaves
        the coroutine towards whoever resumed it. */
    method UnhandledException(thrown: Thrown) returns (escapes: Option<Exception>)
      ensures escapes.None? <==> thrown.StdException?
      ensures escapes.Some? ==> escapes.value == thrown.e
    {
      match thrown
      case StdException(_) =>
        escapes := None;
      case PointerObject(e) =>
        escapes := Some(e);
    }
  }

  /** The DummyCoro coroutine RescheduleTask::start spawns: it runs at once,
      suspends on the RescheAwaiter it holds, and when resumed passes the
      resulting Try to the callback and ends, freeing its own frame. */
  class DetachedStart<T> {
    const awaiter: RescheAwaiter<T>
    const promise: DummyCoro

    constructor (a: RescheAwaiter<T>)
      ensures awaiter == a && fresh(promise)
    {
      awaiter := a;
      promise := new DummyCoro();
    }

    /** Suspended on its awaiter, which owns frame f: f has not run yet and
        its continuation is this coroutine. */
    ghost predicate Waiting(f: Frame<T>)
      reads this, awaiter, f
    {
      awaiter.coro == f && f.Valid() && f.state == Suspended && f.caller == this
    }

    /** A worker runs the job at position i, which resumes f: f's body runs,
        its final awaiter transfers back here, and the awaiter hands over the
        Try the callback receives; the awaiter's destructor runs as the
        coroutine ends. The frame is destroyed exactly once whether the body
        returned or failed. On failure await_resume throws, the destructor
        runs during unwinding, unhandled_exception lets the exception_ptr
        object through, and it leaves the worker's job instead of reaching
        the callback. */
    method RunJob(ex: Executor, i: nat) returns (delivered: Outcome<Try<T>>)
      requires awaiter.coro != null && Waiting(awaiter.coro)
      requires i < |ex.jobs| && ex.jobs[i] == ResumeJob(awaiter.coro)
      modifies ex, awaiter, awaiter.coro
      ensures ex.jobs == old(ex.jobs)[..i] + old(ex.jobs)[i + 1..]
      ensures old(awaiter.coro).state == Destroyed && old(awaiter.coro).destroys == 1
      ensures delivered.Normal? ==> fresh(delivered.value)
      ensures Delivers(delivered, Run(old(awaiter.coro).body))
    {
      var f := awaiter.coro;
      var job := ex.Dequeue(i);
      var next := f.Resume();
      assert next == Normal(this);
      var resumed := awaiter.AwaitResume();
      awaiter.Drop();
      if resumed.Throws? {
        var escapes := promise.UnhandledException(PointerObject(resumed.exception));
        delivered := Throws(escapes.value);
      } else {
        delivered := resumed;
      }
    }

    /** RunJob with the intended await_resume: the callback receives a Try
        whose value() is exactly the outcome the body reached, failure
        included, and the frame is destroyed exactly once. */
    method RunJobIntended(ex: Executor, i: nat) returns (delivered: Try<T>)
      requires awaiter.coro != null && Waiting(awaiter.coro)
      requires i < |ex.jobs| && ex.jobs[i] == ResumeJob(awaiter.coro)
      modifies ex, awaiter, awaiter.coro
      ensures ex.jobs == old(ex.jobs)[..i] + old(ex.jobs)[i + 1..]
      ensures old(awaiter.coro).state == Destroyed && old(awaiter.coro).destroys == 1
      ensures fresh(delivered)
      ensures !(delivered.result.Failed? && delivered.result.eptr.None?)
      ensures delivered.Value() == Run(old(awaiter.coro).body)
    {
      var f := awaiter.coro;
      var job := ex.Dequeue(i);
      var next := f.Resume();
      assert next == Normal(this);
      delivered := awaiter.AwaitResumeIntended();
      awaiter.Drop();
    }
  }

  /** A lazily started computation owning one frame. */
  class Task<T> {
    var coro: Frame?<T>

    ghost predicate Valid()
      reads this, coro
    {
      coro != null ==> coro.Valid() && coro.state != Destroyed
    }

    constructor (h: Frame?<T>)
      ensures coro == h
    {
      coro := h;
    }

    /** The move constructor takes the handle and leaves the source null. */
    constructor Move(other: Task<T>)
      modifies other
      ensures coro == old(other.coro) && other.coro == null
    {
      coro := other.coro;
      other.coro := null;
    }

    /** The destructor destroys the frame only if the handle is still held,
        whether or not the body has run. */
    method Drop()
      requires Valid()
      modifies coro
      ensures coro == old(coro)
      ensures coro != null ==> coro.state == Destroyed && coro.destroys == 1 && coro.PromiseKept()
    {
      if coro != null {
        coro.Destroy();
      }
    }

    /** setEx: stores the executor in the promise's pool_ and moves the
        handle into a new RescheduleTask. Using a null handle is undefined. */
    method SetEx(ex: Executor?) returns (rt: RescheduleTask<T>)
      requires coro != null
      modifies this, coro
      ensures fresh(rt) && rt.coro == old(coro) && coro == null
      ensures rt.coro.pool == Pool(ex)
      ensures rt.coro.state == old(coro.state) && rt.coro.caller == old(coro.caller)
      ensures rt.coro.val == old(coro.val) && rt.coro.exception == old(coro.exception)
      ensures rt.coro.destroys == old(coro.destroys)
    {
      coro.SetPool(ex);
      rt := new RescheduleTask(coro);
      coro := null;
    }

    /** coAwaitTry: moves the handle into a SaveCallerAwaiter. */
    method CoAwaitTry() returns (a: SaveCallerAwaiter<T>)
      modifies this
      ensures fresh(a) && a.coro == old(coro) && coro == null
    {
      a := new SaveCallerAwaiter(coro);
      coro := null;
    }

    /** operator co_await: moves the handle into a ValueAwaiter. */
    method OperatorCoAwait() returns (a: ValueAwaiter<T>)
      modifies this
      ensures fresh(a) && a.coro == old(coro) && coro == null
    {
      a := new ValueAwaiter(coro);
      coro := null;
    }

    /** start: the Task moves into a DummyCoro that co_awaits coAwaitTry() on
        the calling thread. The callback receives a Try holding the value the
        body returned. When the body failed, await_resume throws the
        exception_ptr object, which DummyCoro's unhandled_exception does not
        catch, so it leaves start and the callback never runs. Either way the
        frame is destroyed exactly once and this Task no longer holds it. */
    method Start() returns (delivered: Outcome<Try<T>>)
      requires coro != null && coro.Valid() && coro.state == Suspended
      modifies this, coro
      ensures coro == null
      ensures old(coro).state == Destroyed && old(coro).destroys == 1
      ensures old(coro).caller != null
      ensures delivered.Normal? ==> fresh(delivered.value)
      ensures Delivers(delivered, Run(old(coro).body))
    {
      var lazy := new Task.Move(this);
      var driver := new DummyCoro();
      var a := lazy.CoAwaitTry();
      var ready := a.AwaitReady();
      var h := a.AwaitSuspend(driver);
      var next := h.Resume();
      assert next == Normal(driver);
      var resumed := a.AwaitResume();
      a.Drop();
      if resumed.Throws? {
        var escapes := driver.UnhandledException(PointerObject(resumed.exception));
        delivered := Throws(escapes.value);
      } else {
        delivered := resumed;
      }
      lazy.Drop();
    }
  }

  /** A Task bound to an executor. It declares no destructor: a
      RescheduleTask dropped while it still holds its handle never destroys
      the frame. */
  class RescheduleTask<T> {
    var coro: Frame?<T>

    constructor (h: Frame?<T>)
      ensures coro == h
    {
      coro := h;
    }

    /** The move constructor takes the handle and leaves the source null. */
    constructor Move(other: RescheduleTask<T>)
      modifies other
      ensures coro == old(other.coro) && other.coro == null
    {
      coro := other.coro;
      other.coro := null;
    }

    /** coAwaitTry: moves the handle into a RescheAwaiter. */
    method CoAwaitTry() returns (a: RescheAwaiter<T>)
      modifies this
      ensures fresh(a) && a.coro == old(coro) && coro == null
    {
      a := new RescheAwaiter(coro);
      coro := null;
    }

    /** start: the RescheduleTask moves into a detached DummyCoro that
        co_awaits coAwaitTry(). Without a handle, or without an executor,
        the awaiter's logicAssert fails; the awaiter, unwound, destroys the
        frame it holds, DummyCoro's unhandled_exception catches and logs the
        std::logic_error, and start returns normally. Otherwise exactly one
        job resuming the frame is pushed, the frame records the detached
        coroutine as its continuation, and nothing has run yet. */
    method Start() returns (started: Started<T>)
      requires coro != null ==> coro.Valid() && coro.state == Suspended && coro.pool.Pool?
      modifies this, coro, PoolOf(coro)
      ensures coro == null
      ensures old(coro) != null ==> old(coro).pool == old(coro.pool)
      ensures old(coro) == null ==> started == Ended(LogicError("coro is nullptr"))
      ensures old(coro) != null && old(PoolOf(coro)) == null ==>
        && started == Ended(LogicError(" coro_.promise().pool_ is nullptr"))
        && old(coro).state == Destroyed && old(coro).destroys == 1
      ensures old(PoolOf(coro)) != null ==>
        && started.Detached? && fresh(started.driver) && fresh(started.driver.awaiter)
        && started.driver.Waiting(old(coro))
        && old(PoolOf(coro)).jobs == old(PoolOf(coro).jobs) + [ResumeJob(old(coro))]
    {
      var lazy := new RescheduleTask.Move(this);
      var a := lazy.CoAwaitTry();
      var d := new DetachedStart(a);
      var ready := a.AwaitReady();
      var suspended := a.AwaitSuspend(d);
      if suspended.Throws? {
        a.Drop();
        var escapes := d.promise.UnhandledException(StdException(suspended.exception));
        started := Ended(suspended.exception);
        return;
      }
      started := Detached(d);
    }
  }

  /** How RescheduleTask::start returns: the detached coroutine is suspended
      waiting for its job to run, or it already ended after logging the
      logicAssert failure that stopped it. */
  datatype Started<T> = Detached(driver: DetachedStart<T>) | Ended(logged: Exception)

  /** Calling a coroutine function: the frame is created, get_return_object
      wraps its handle in a Task, and initial_suspend suspends at once, so
      the body has not run. */
  method Call<T>(body: Body<T>) returns (t: Task<T>)
    ensures fresh(t) && t.coro != null && fresh(t.coro)
    ensures t.coro.Valid() && t.coro.body == body && t.coro.state == Suspended
    ensures t.coro.caller == null && t.coro.pool == Indeterminate
  {
    var f := new Frame(body);
    t := f.GetReturnObject();
    var initial := SuspendAlwaysAwaiter;
    var ready := initial.AwaitReady();
    assert !ready;
  }

  /** co_await of a Task inside a coroutine body: promise<T>::await_transform
      moves the Task into a temporary, operator co_await moves the handle
      into a ValueAwaiter, the awaiter records the caller and transfers to
      the callee, whose body runs; its final awaiter transfers back, and
      await_resume yields the value or throws. The temporaries are then
      destroyed in reverse order. The callee frame is destroyed exactly once
      on both paths, and the caller sees exactly the callee's outcome. */
  method CoAwait<T>(caller: object, t: Task<T>) returns (r: Outcome<T>)
    requires t.coro != null && t.coro.Valid() && t.coro.state == Suspended
    modifies t, t.coro
    decreases t.coro.body, 1
    ensures t.coro == null
    ensures old(t.coro).state == Destroyed && old(t.coro).destroys == 1
    ensures old(t.coro).caller == caller
    ensures r == Run(old(t.coro).body)
  {
    var transformed := new Task.Move(t);
    var a := transformed.OperatorCoAwait();
    var ready := a.AwaitReady();
    var h := a.AwaitSuspend(caller);
    var next := h.Resume();
    assert next == Normal(caller);
    r := a.AwaitResume();
    a.Drop();
    transformed.Drop();
    t.Drop();
  }

  /** syncAwait on a RescheduleTask: start with a callback that moves its
      Try into a local capsule and releases the semaphore, then acquire the
      semaphore and return value() of the capsule. The executor runs the job
      start pushed; jobs queued earlier belong to other chains and stay
      queued. The result None means the call never returns: the callback
      never ran, so the semaphore is never released. That happens when the
      handle or the executor is missing (start ended after logging the
      logicAssert failure) and when the body failed (the exception left the
      worker's job). Otherwise the call returns exactly the value the body
      returned. The frame is destroyed exactly once on every path. */
  method SyncAwait<T>(lazy: RescheduleTask<T>) returns (r: Option<T>, ghost delivered: Option<Try<T>>)
    requires lazy.coro != null ==> lazy.coro.Valid() && lazy.coro.state == Suspended && lazy.coro.pool.Pool?
    modifies lazy, lazy.coro, PoolOf(lazy.coro)
    ensures lazy.coro == null
    ensures old(lazy.coro) != null ==> old(lazy.coro).state == Destroyed && old(lazy.coro).destroys == 1
    ensures old(PoolOf(lazy.coro)) != null ==> old(PoolOf(lazy.coro)).jobs == old(PoolOf(lazy.coro).jobs)
    ensures r.Some? <==> old(PoolOf(lazy.coro)) != null && Run(old(lazy.coro).body).Normal?
    ensures r.Some? ==> old(lazy.coro) != null && Run(old(lazy.coro).body) == Normal(r.value)
    ensures delivered.Some? <==> r.Some?
    ensures delivered.Some? ==> delivered.value.HasValue() && delivered.value.Value() == Normal(r.value)
  {
    var f := lazy.coro;
    var ex := PoolOf(f);
    var value := new Try<T>();
    var started := lazy.Start();
    if started.Ended? {
      r, delivered := None, None;
      return;
    }
    var pending := ex.jobs;
    var result := started.driver.RunJob(ex, |ex.jobs| - 1);
    assert ex.jobs == pending[..|pending| - 1];
    if result.Throws? {
      r, delivered := None, None;
      return;
    }
    delivered := Some(result.value);
    value.MoveAssign(result.value);
    var o := value.Value();
    r := Some(o.value);
  }

  /** A body that throws, bound to an executor and passed to syncAwait:
      the call never returns. */
  method SyncAwaitOfFailingBody(ex: Executor, e: Exception) returns (r: Option<int>)
    modifies ex
    ensures r == None
  {
    var t := Call<int>(Finish(Throws(e)));
    var rt := t.SetEx(ex);
    ghost var delivered;
    r, delivered := SyncAwait(rt);
  }

  /** syncAwait over the intended await_resume: whenever start got its job
      queued, the call returns, and it returns exactly the outcome the body
      reached, value or exception; the frame is destroyed exactly once. */
  method SyncAwaitIntended<T>(lazy: RescheduleTask<T>) returns (r: Option<Outcome<T>>)
    requires lazy.coro != null ==> lazy.coro.Valid() && lazy.coro.state == Suspended && lazy.coro.pool.Pool?
    modifies lazy, lazy.coro, PoolOf(lazy.coro)
    ensures lazy.coro == null
    ensures old(lazy.coro) != null ==> old(lazy.coro).state == Destroyed && old(lazy.coro).destroys == 1
    ensures old(PoolOf(lazy.coro)) != null ==> old(PoolOf(lazy.coro)).jobs == old(PoolOf(lazy.coro).jobs)
    ensures r.Some? <==> old(PoolOf(lazy.coro)) != null
    ensures r.Some? ==> old(lazy.coro) != null && r.value == Run(old(lazy.coro).body)
  {
    var f := lazy.coro;
    var ex := PoolOf(f);
    var value := new Try<T>();
    var started := lazy.Start();
    if started.Ended? {
      r := None;
      return;
    }
    var pending := ex.jobs;
    var result := started.driver.RunJobIntended(ex, |ex.jobs| - 1);
    assert ex.jobs == pending[..|pending| - 1];
    value.MoveAssign(result);
    r := Some(value.Value());
  }

  /** The same failing body under the intended await_resume: syncAwait
      returns, and value() rethrows the body's exception. */
  method SyncAwaitIntendedOfFailingBody(ex: Executor, e: Exception) returns (r: Option<Outcome<int>>)
    modifies ex
    ensures r == Some(Throws(e))
  {
    var t := Call<int>(Finish(Throws(e)));
    var rt := t.SetEx(ex);
    r := SyncAwaitIntended(rt);
  }

  /** syncAwait on a plain Task: start runs the whole chain on the calling
      thread, the callback moves its Try into the local capsule, and
      value() of that capsule is returned. */
  method SyncAwaitTask<T>(lazy: Task<T>) returns (r: Outcome<T>, ghost delivered: Option<Try<T>>)
    requires lazy.coro != null && lazy.coro.Valid() && lazy.coro.state == Suspended
    modifies lazy, lazy.coro
    ensures lazy.coro == null
    ensures old(lazy.coro).state == Destroyed && old(lazy.coro).destroys == 1
    ensures r == Run(old(lazy.coro).body)
    ensures delivered.Some? ==> delivered.value.HasValue() && r == delivered.value.Value()
  {
    var value := new Try<T>();
    var result := lazy.Start();
    if result.Throws? {
      r, delivered := Throws(result.exception), None;
      return;
    }
    delivered := Some(result.value);
    value.MoveAssign(result.value);
    r := value.Value();
  }

  /** A Task bound with setEx whose RescheduleTask is then dropped
      unconsumed: RescheduleTask has no destructor and the Task's destructor
      finds its handle null, so the frame is never destroyed. */
  method SetExAndDiscard<T>(t: Task<T>, ex: Executor?)
    requires t.coro != null && t.coro.Valid() && t.coro.state == Suspended
    modifies t, t.coro
    ensures t.coro == null
    ensures old(t.coro).state == Suspended && old(t.coro).destroys == 0
  {
    var rt := t.SetEx(ex);
    t.Drop();
  }

  /** A coroutine function called and its Task dropped unconsumed: the
      Task's destructor destroys the frame exactly once, and the body never
      ran. */
  method CallAndDiscard<T>(body: Body<T>) returns (ghost frame: Frame<T>)
    ensures fresh(frame) && frame.body == body
    ensures frame.state == Destroyed && frame.destroys == 1
    ensures frame.val == None && frame.exception == None
  {
    var t := Call(body);
    frame := t.coro;
    t.Drop();
  }
}
