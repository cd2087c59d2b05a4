/** The paced FIFO task queue. A single consumer takes one job at a time
    from the head of the queue, spawns it as its own task and then sleeps
    for the pacing interval; the sleep is dropped here, so one consumer
    step is one dequeue-and-spawn. Every job carries a future that the
    spawned task resolves. Futures are kept in a table owned by the queue:
    the future handed out by `add_task` is its index in that table. */
module TaskQueues {
  import opened Base

  type FutureId = nat

  /** Spawned tasks are numbered in the order the consumer starts them. */
  type TaskId = nat

  /** The state of an asyncio future. */
  datatype FutureState<+V> = Pending | Resolved(value: V) | Failed(exc: Exc) | Cancelled
  {
    predicate Done() { !Pending? }
  }

  /** `_CustomTask`: the awaitable to run and the future it resolves. */
  datatype Job<+W> = Job(work: W, future: FutureId)

  /** `asyncio.QueueFull`, raised by `put_nowait` on a full bounded queue. */
  datatype QueueFull = QueueFull

  /** The future state a job's outcome produces when the future can still
      be set: its value, or the `Exception` it raised. */
  function Settle<V>(outcome: Outcome<V>): (s: FutureState<V>)
    requires outcome != Raised(Exc.Cancelled)
    ensures s.Done() && !s.Cancelled?
    ensures outcome.Returned? ==> s == Resolved(outcome.value)
    ensures outcome.Raised? ==> s == Failed(outcome.exc)
  {
    match outcome
    case Returned(v) => Resolved(v)
    case Raised(e) => Failed(e)
  }

  class TaskQueue<W, V> {
    /** Seconds between two job starts; stored, never used by the model. */
    const interval: real
    /** `Queue(size)`: a size of zero or less makes the queue unbounded. */
    const maxSize: int

    /** `_task_queue`: jobs not yet taken by the consumer, head first. */
    var queue: seq<Job<W>>
    var running: bool
    /** `_running_task_num`. */
    var runningTaskNum: int
    /** `_running_task`: spawned tasks that are not done yet. */
    var runningTasks: set<TaskId>
    /** `_finish_task_event`. */
    var finishEvent: bool
    /** Every future handed out so far, indexed by its id. */
    var futures: seq<FutureState<V>>
    /** The jobs the consumer has started, indexed by task id. */
    var spawned: seq<Job<W>>

    /** Spawned tasks whose completion has not decremented the counter. */
    ghost var counted: set<TaskId>
    /** Consumer loops started by `schedule`. */
    ghost var consumers: nat

    ghost predicate Valid()
      reads this
    {
      // FIFO: task t runs the t-th job enqueued, the queue holds the rest in order
      && |spawned| + |queue| == |futures|
      && (forall t :: 0 <= t < |spawned| ==> spawned[t].future == t)
      && (forall k :: 0 <= k < |queue| ==> queue[k].future == |spawned| + k)
      // the counter counts the jobs dispatched and not yet completed
      && runningTasks <= counted
      && (forall t :: t in counted ==> t < |spawned|)
      && runningTaskNum == |counted|
      // a pending future belongs to a queued job or to a counted task
      && (forall f :: 0 <= f < |futures| && futures[f].Pending? ==> f >= |spawned| || f in counted)
      && (forall f :: |spawned| <= f < |futures| ==> !futures[f].Resolved? && !futures[f].Failed?)
      && (forall t :: t in runningTasks ==> !futures[t].Resolved? && !futures[t].Failed?)
      && (forall t :: 0 <= t < |spawned| && t !in counted ==> futures[t].Resolved? || futures[t].Failed?)
      && (running <==> consumers > 0)
      && (maxSize > 0 ==> |queue| <= maxSize)
    }

    /** Nothing queued, nothing in flight. */
    ghost predicate Idle()
      reads this
    {
      queue == [] && runningTaskNum == 0
    }

    constructor(interval: real, size: int)
      ensures Valid()
      ensures this.interval == interval && maxSize == size
      ensures queue == [] && !running && runningTaskNum == 0 && runningTasks == {}
      ensures !finishEvent && futures == [] && spawned == [] && consumers == 0
    {
      this.interval := interval;
      maxSize := size;
      queue := [];
      running := false;
      runningTaskNum := 0;
      runningTasks := {};
      finishEvent := false;
      futures := [];
      spawned := [];
      counted := {};
      consumers := 0;
    }

    /** `add_task`: appends a job holding a fresh, unresolved future to the
        tail of the queue and returns that future; on a full bounded queue
        `put_nowait` raises instead. */
    method AddTask(work: W) returns (r: Result<FutureId, QueueFull>)
      requires Valid()
      modifies this
      ensures Valid()
      ensures r.Err? <==> old(maxSize > 0 && |queue| >= maxSize)
      ensures r.Err? ==> r.error == QueueFull && queue == old(queue) && futures == old(futures)
      ensures r.Ok? ==> (r.value == old(|futures|)
                         && queue == old(queue) + [Job(work, r.value)]
                         && futures == old(futures) + [Pending])
      ensures spawned == old(spawned) && running == old(running) && consumers == old(consumers)
      ensures runningTaskNum == old(runningTaskNum) && runningTasks == old(runningTasks)
      ensures counted == old(counted) && finishEvent == old(finishEvent)
    {
      if maxSize > 0 && |queue| >= maxSize {
        return Err(QueueFull);
      }
      var future := |futures|;
      futures := futures + [Pending];
      queue := queue + [Job(work, future)];
      r := Ok(future);
    }

    /** `schedule`: starts a consumer loop and sets `running`. It has no
        guard of its own: a second call starts a second consumer. */
    method Schedule()
      requires Valid()
      modifies this
      ensures Valid()
      ensures running && consumers == old(consumers) + 1
      ensures queue == old(queue) && futures == old(futures) && spawned == old(spawned)
      ensures runningTaskNum == old(runningTaskNum) && runningTasks == old(runningTasks)
      ensures counted == old(counted) && finishEvent == old(finishEvent)
    {
      running := true;
      consumers := consumers + 1;
    }

    /** One iteration of the consumer loop `_schedule`, without its sleep.
        On an empty queue `get` suspends and nothing changes; otherwise the
        head job is removed, counted and spawned as task `t`. */
    method ConsumerStep() returns (t: Option<TaskId>)
      requires Valid() && running
      modifies this
      ensures Valid()
      ensures old(queue) == [] ==>
        (t == None && spawned == old(spawned) && queue == old(queue)
         && runningTaskNum == old(runningTaskNum) && runningTasks == old(runningTasks)
         && counted == old(counted))
      ensures old(queue) != [] ==>
        (t == Some(old(|spawned|))
         && spawned == old(spawned) + [old(queue)[0]]
         && queue == old(queue)[1..]
         && runningTaskNum == old(runningTaskNum) + 1
         && runningTasks == old(runningTasks) + {t.value}
         && counted == old(counted) + {t.value})
      ensures futures == old(futures) && running == old(running) && consumers == old(consumers)
      ensures finishEvent == old(finishEvent)
    {
      if queue == [] {
        return None;
      }
      var job := queue[0];
      queue := queue[1..];
      var task := |spawned|;
      assert task !in counted && |counted + {task}| == |counted| + 1;
      spawned := spawned + [job];
      runningTaskNum := runningTaskNum + 1;
      runningTasks := runningTasks + {task};
      counted := counted + {task};
      t := Some(task);
      assert forall k :: 0 <= k < |queue| ==> queue[k].future == |spawned| + k;
    }

    /** `_execute_task` finishing for spawned task `t` with the outcome of
        its awaitable. If the future is still pending and the outcome is a
        value or an `Exception`, the future is set exactly once, the
        counter is decremented and the event is set. A `CancelledError`, or
        a future the caller has already cancelled (then `set_result` and
        `set_exception` raise), escapes before the decrement. The task is
        discarded from `_running_task` in every case. */
    method CompleteTask(t: TaskId, outcome: Outcome<V>) returns (settled: bool)
      requires Valid() && t in runningTasks
      modifies this
      ensures Valid()
      ensures settled <==> old(futures[t]).Pending? && outcome != Raised(Exc.Cancelled)
      ensures settled ==>
        (futures == old(futures)[t := Settle(outcome)]
         && runningTaskNum == old(runningTaskNum) - 1
         && counted == old(counted) - {t}
         && finishEvent)
      ensures !settled ==>
        (futures == old(futures)
         && runningTaskNum == old(runningTaskNum)
         && counted == old(counted)
         && finishEvent == old(finishEvent))
      ensures runningTasks == old(runningTasks) - {t}
      ensures queue == old(queue) && spawned == old(spawned)
      ensures running == old(running) && consumers == old(consumers)
    {
      runningTasks := runningTasks - {t};
      if outcome == Raised(Exc.Cancelled) || !futures[t].Pending? {
        return false;
      }
      futures := futures[t := Settle(outcome)];
      assert |counted - {t}| == |counted| - 1;
      runningTaskNum := runningTaskNum - 1;
      counted := counted - {t};
      finishEvent := true;
      settled := true;
    }

    /** `future.cancel()` by the caller awaiting future `f`: a pending
        future becomes cancelled; a done one is left alone. */
    method CancelFuture(f: FutureId) returns (cancelled: bool)
      requires Valid() && f < |futures|
      modifies this
      ensures Valid()
      ensures cancelled <==> old(futures[f]).Pending?
      ensures futures == if cancelled then old(futures)[f := FutureState.Cancelled] else old(futures)
      ensures queue == old(queue) && spawned == old(spawned) && running == old(running)
      ensures runningTaskNum == old(runningTaskNum) && runningTasks == old(runningTasks)
      ensures counted == old(counted) && consumers == old(consumers)
      ensures finishEvent == old(finishEvent)
    {
      cancelled := futures[f].Pending?;
      if cancelled {
        futures := futures[f := FutureState.Cancelled];
      }
    }

    /** One iteration of `wait_until_finish`. It returns once the event is
        set while the counter is 0 and the queue is empty; otherwise the
        event is cleared (or was never set, and the wait goes on). */
    method PollFinish() returns (finished: bool)
      requires Valid()
      modifies this`finishEvent
      ensures Valid()
      ensures finished <==> old(finishEvent) && runningTaskNum == 0 && |queue| == 0
      ensures finished ==> finishEvent && forall f :: 0 <= f < |futures| ==> futures[f].Done()
      ensures !finished ==> !finishEvent
    {
      if finishEvent && runningTaskNum == 0 && |queue| == 0 {
        IdleMeansSettled();
        return true;
      }
      finishEvent := false;
      finished := false;
    }

    /** When the queue is empty and the counter is 0, every future handed
        out has been set or cancelled. */
    lemma IdleMeansSettled()
      requires Valid() && Idle()
      ensures forall f :: 0 <= f < |futures| ==> futures[f].Done()
    {
      assert counted == {};
    }

    /** Task `t` runs the `t`-th job that `add_task` accepted: start order
        is FIFO. */
    lemma StartOrderIsFifo(t: TaskId)
      requires Valid() && t < |spawned|
      ensures spawned[t].future == t
    {
    }
  }

  /** The module-level `_global_task_queue` with `get_global_task_queue`. */
  /** The interval `get_global_task_queue` passes when its caller gives
      none; Dafny has no default arguments, so callers pass it. */
  const DefaultGlobalInterval: int := 6

  class GlobalTaskQueue<W, V> {
    var instance: TaskQueue?<W, V>

    constructor()
      ensures instance == null
    {
      instance := null;
    }

    /** Creates the queue on the first call (unbounded, with the given
        interval, `DefaultGlobalInterval` when the caller omits it) and
        returns that same instance on every later call, whatever interval
        those calls pass. */
    method Get(interval: int) returns (q: TaskQueue<W, V>)
      modifies this
      ensures instance == q
      ensures old(instance) != null ==> q == old(instance)
      ensures old(instance) == null ==>
        (fresh(q) && q.Valid() && q.Idle()
         && q.interval == interval as real && q.maxSize == -1 && !q.running)
    {
      if instance == null {
        instance := new TaskQueue(interval as real, -1);
      }
      q := instance;
    }
  }
}
