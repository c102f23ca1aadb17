/** The executor capability of simple_coro/threadpool.hpp, seen only as the
    sequence of work items it has accepted and not yet run. Every work item
    the task runtime submits resumes one coroutine frame. */
module Executors {

  /** The closure [h] { h.resume(); } over a type-erased coroutine handle. */
  datatype Job = ResumeJob(handle: object)

  class Executor {
    /** Accepted work items, oldest first. */
    var jobs: seq<Job>

    constructor ()
      ensures jobs == []
    {
      jobs := [];
    }

    /** push: the work item joins the end of the queue; nothing runs yet. */
    method Push(job: Job)
      modifies this
      ensures jobs == old(jobs) + [job]
    {
      jobs := jobs + [job];
    }

    /** A worker takes the work item at position i out of the queue to run
        it; every other item keeps its place and order. */
    method Dequeue(i: nat) returns (job: Job)
      requires i < |jobs|
      modifies this
      ensures job == old(jobs)[i]
      ensures jobs == old(jobs)[..i] + old(jobs)[i + 1..]
    {
      job := jobs[i];
      jobs := jobs[..i] + jobs[i + 1..];
    }
  }
}
