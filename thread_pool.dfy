/** ThreadPool: a FIFO queue of tasks with an optional capacity, drained by
    worker threads while the pool runs. Each critical section (admission,
    one dequeue by a worker, the empty-queue check of wait_for_tasks) is one
    method call; the threads themselves and their blocking waits are not
    modelled. */
module ThreadPools {
  import opened Base

  class ThreadPool<T> {
    /** tasks_ */
    var tasks: seq<T>
    /** running_ */
    var running: bool
    /** maximum_tasks_; 0 means no limit. */
    const maximumTasks: nat
    /** The number of worker threads started. */
    const threadCount: nat

    /** Admission keeps the queue within its capacity, if it has one. */
    predicate Valid()
      reads this
    {
      maximumTasks > 0 ==> |tasks| <= maximumTasks
    }

    /** A wait_for_tasks call made in this state returns at once: the pool
        has stopped or its queue is empty. Otherwise the caller blocks. */
    predicate WaitReturns()
      reads this
    {
      !running || tasks == []
    }

    /** ThreadPool(thread_count): no capacity. */
    constructor (threadCount: nat)
      ensures Valid()
      ensures tasks == [] && running && maximumTasks == 0 && this.threadCount == threadCount
    {
      tasks := [];
      running := true;
      maximumTasks := 0;
      this.threadCount := threadCount;
    }

    /** ThreadPool(thread_count, maximum_tasks) */
    constructor WithCapacity(threadCount: nat, maximumTasks: nat)
      ensures Valid()
      ensures tasks == [] && running && this.maximumTasks == maximumTasks && this.threadCount == threadCount
    {
      tasks := [];
      running := true;
      this.maximumTasks := maximumTasks;
      this.threadCount := threadCount;
    }

    /** add_task: refused (false, queue unchanged) when there is a capacity
        and the queue is full; otherwise the task joins the back. */
    method AddTask(task: T) returns (added: bool)
      requires Valid()
      modifies this
      ensures Valid()
      ensures added <==> maximumTasks == 0 || |old(tasks)| < maximumTasks
      ensures added ==> tasks == old(tasks) + [task]
      ensures !added ==> tasks == old(tasks)
      ensures running == old(running)
      ensures added && running ==> !WaitReturns()
    {
      if maximumTasks > 0 && |tasks| >= maximumTasks {
        return false;
      }
      tasks := tasks + [task];
      return true;
    }

    /** stop: the pool no longer runs (joining the workers is not modelled). */
    method Stop()
      modifies this
      ensures !running && tasks == old(tasks)
      ensures WaitReturns()
    {
      running := false;
    }

    /** One turn of a worker in process: when the pool has stopped, or there
        is nothing to run (the worker would wait), nothing is taken;
        otherwise the task at the front is removed and returned to be run. */
    method TakeTask() returns (task: Option<T>)
      requires Valid()
      modifies this
      ensures Valid()
      ensures !old(running) || old(tasks) == [] ==> task == None && tasks == old(tasks)
      ensures old(running) && old(tasks) != [] ==> task == Some(old(tasks)[0]) && tasks == old(tasks)[1..]
      ensures running == old(running)
    {
      if !running || tasks == [] {
        return None;
      }
      task := Some(tasks[0]);
      tasks := tasks[1..];
    }
  }

  /** Submitting a run of tasks: the admitted ones are the run up to the
      point where the queue fills, appended in order; with no capacity every
      one of them is admitted. */
  method SubmitAll<T>(pool: ThreadPool<T>, submitted: seq<T>) returns (admitted: seq<T>)
    requires pool.Valid()
    modifies pool
    ensures pool.Valid()
    ensures pool.tasks == old(pool.tasks) + admitted
    ensures |admitted| <= |submitted|
    ensures admitted <= submitted
    ensures |admitted| < |submitted| ==> pool.maximumTasks > 0 && |pool.tasks| == pool.maximumTasks
    ensures pool.maximumTasks == 0 ==> admitted == submitted
    ensures pool.running == old(pool.running)
  {
    admitted := [];
    for i := 0 to |submitted|
      invariant pool.Valid()
      invariant pool.tasks == old(pool.tasks) + admitted
      invariant |admitted| <= i && admitted == submitted[..|admitted|]
      invariant |admitted| < i ==> pool.maximumTasks > 0 && |pool.tasks| == pool.maximumTasks
      invariant pool.maximumTasks == 0 ==> admitted == submitted[..i]
      invariant pool.running == old(pool.running)
    {
      var added := pool.AddTask(submitted[i]);
      if added {
        assert submitted[..i + 1] == submitted[..i] + [submitted[i]];
        admitted := admitted + [submitted[i]];
      }
    }
    assert submitted[..|submitted|] == submitted;
  }

  /** The workers of a running pool that has at least one of them take
      every queued task, in submission order, and leave the queue empty. */
  method Drain<T>(pool: ThreadPool<T>) returns (ran: seq<T>)
    requires pool.Valid() && pool.running
    requires pool.threadCount > 0
    modifies pool
    ensures ran == old(pool.tasks)
    ensures pool.tasks == [] && pool.running
    ensures pool.WaitReturns()
  {
    ran := [];
    while pool.tasks != []
      invariant pool.Valid() && pool.running
      invariant ran + pool.tasks == old(pool.tasks)
      decreases |pool.tasks|
    {
      ghost var before := pool.tasks;
      var task := pool.TakeTask();
      ran := ran + [task.value];
      assert ran + pool.tasks == (ran[..|ran| - 1] + [before[0]]) + before[1..];
      assert before == [before[0]] + before[1..];
    }
    assert ran + [] == ran;
  }
}
