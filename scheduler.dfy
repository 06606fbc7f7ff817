/**
  The scheduler: a double-ended queue of pending tasks and the scheduler's own
  view of the available resources. Dispatch takes the first task in queue
  order that fits; priority is never consulted.
*/
module Scheduling {
  import opened Prelude
  import opened Tasks

  /**
    Index of the first task in `queue` whose requirement fits `available`,
    or None when no task fits.
  */
  function FirstFit(queue: seq<Task>, available: ResourceRequirements): (k: Option<nat>)
    ensures k.Some? ==> k.value < |queue| && Fits(queue[k.value].resourceRequirements, available)
    ensures k.Some? ==> forall j :: 0 <= j < k.value ==> !Fits(queue[j].resourceRequirements, available)
    ensures k.None? ==> forall j :: 0 <= j < |queue| ==> !Fits(queue[j].resourceRequirements, available)
  {
    if queue == [] then None
    else if Fits(queue[0].resourceRequirements, available) then Some(0)
    else match FirstFit(queue[1..], available)
      case None => None
      case Some(k) => Some(k + 1)
  }

  /**
    The queue once the task at `k` is dispatched: every task behind it, then
    the tasks skipped in front of it, each group in its original order.
  */
  function AfterDispatch(queue: seq<Task>, k: nat): (r: seq<Task>)
    requires k < |queue|
    ensures |r| == |queue| - 1
    ensures forall j :: 0 <= j < |r| ==> r[j] == queue[(k + 1 + j) % |queue|]
  {
    var r := queue[k + 1..] + queue[..k];
    assert forall j :: 0 <= j < |r| ==> r[j] == queue[(k + 1 + j) % |queue|] by {
      forall j | 0 <= j < |r|
        ensures r[j] == queue[(k + 1 + j) % |queue|]
      {
        if k + 1 + j < |queue| {
          DivModUnique(k + 1 + j, |queue|, 0, k + 1 + j);
        } else {
          DivModUnique(k + 1 + j, |queue|, 1, k + 1 + j - |queue|);
        }
      }
    }
    r
  }

  /** Dispatch removes exactly the chosen task: nothing is lost or duplicated. */
  lemma DispatchIsPermutation(queue: seq<Task>, k: nat)
    requires k < |queue|
    ensures |AfterDispatch(queue, k)| == |queue| - 1
    ensures multiset(AfterDispatch(queue, k)) + multiset{queue[k]} == multiset(queue)
  {
    assert queue == queue[..k] + [queue[k]] + queue[k + 1..];
  }

  /** Two queues that differ only in priorities (or names, arguments, status) dispatch the same index. */
  lemma {:induction false} FirstFitIgnoresPriority(q1: seq<Task>, q2: seq<Task>, available: ResourceRequirements)
    requires |q1| == |q2|
    requires forall j :: 0 <= j < |q1| ==> q1[j].resourceRequirements == q2[j].resourceRequirements
    ensures FirstFit(q1, available) == FirstFit(q2, available)
  {
    if q1 != [] && !Fits(q1[0].resourceRequirements, available) {
      FirstFitIgnoresPriority(q1[1..], q2[1..], available);
    }
  }

  /** The queue after `n` iterations of the loop's failing branch: pop the front, push it to the back. */
  function Rotations(queue: seq<Task>, n: nat): (r: seq<Task>)
    ensures |r| == |queue|
    decreases n
  {
    if n == 0 || queue == [] then queue else Rotations(queue[1..] + [queue[0]], n - 1)
  }

  lemma {:induction false} RotationsSplit(queue: seq<Task>, n: nat)
    requires n <= |queue|
    ensures Rotations(queue, n) == queue[n..] + queue[..n]
    decreases n
  {
    if n > 0 {
      var next := queue[1..] + [queue[0]];
      RotationsSplit(next, n - 1);
      assert next[n - 1..] == queue[n..] + [queue[0]];
      assert next[..n - 1] == queue[1..n];
      assert queue[..n] == [queue[0]] + queue[1..n];
    }
  }

  /**
    When the queue is not empty and no task fits, a full pass of pop-front and
    push-back brings the queue back to where it started without returning a
    task: the dispatch loop then repeats forever.
  */
  lemma UnschedulableQueueCycles(queue: seq<Task>, available: ResourceRequirements)
    requires queue != [] && FirstFit(queue, available).None?
    ensures Rotations(queue, |queue|) == queue
    ensures forall j :: 0 <= j < |queue| ==> !Fits(Rotations(queue, j)[0].resourceRequirements, available)
  {
    RotationsSplit(queue, |queue|);
    forall j | 0 <= j < |queue|
      ensures !Fits(Rotations(queue, j)[0].resourceRequirements, available)
    {
      RotationsSplit(queue, j);
    }
  }

  /** Total cpu demanded by the tasks of a queue. */
  function DemandCpu(queue: seq<Task>): nat
  {
    if queue == [] then 0 else queue[0].resourceRequirements.cpu + DemandCpu(queue[1..])
  }

  /** Total memory demanded by the tasks of a queue. */
  function DemandMemory(queue: seq<Task>): nat
  {
    if queue == [] then 0 else queue[0].resourceRequirements.memory + DemandMemory(queue[1..])
  }

  lemma {:induction false} DemandConcat(a: seq<Task>, b: seq<Task>)
    ensures DemandCpu(a + b) == DemandCpu(a) + DemandCpu(b)
    ensures DemandMemory(a + b) == DemandMemory(a) + DemandMemory(b)
  {
    if a != [] {
      assert (a + b)[1..] == a[1..] + b;
      DemandConcat(a[1..], b);
    } else {
      assert a + b == b;
    }
  }

  /** Dispatching the task at `k` lowers the queue's demand by exactly that task's requirement. */
  lemma DemandAfterDispatch(queue: seq<Task>, k: nat)
    requires k < |queue|
    ensures DemandCpu(queue) == DemandCpu(AfterDispatch(queue, k)) + queue[k].resourceRequirements.cpu
    ensures DemandMemory(queue) == DemandMemory(AfterDispatch(queue, k)) + queue[k].resourceRequirements.memory
  {
    var front, back := queue[..k], queue[k + 1..];
    var rest := [queue[k]] + back;
    assert queue == front + rest;
    DemandConcat(front, rest);
    assert rest[1..] == back;
    DemandConcat(back, front);
  }

  /**
    Repeated dispatch from `queue` under `available` empties the queue: at
    every step some task fits. This is exactly when repeated calls of
    `ScheduleNextTask` all return.
  */
  predicate Drains(queue: seq<Task>, available: ResourceRequirements)
    decreases |queue|
  {
    match FirstFit(queue, available)
    case None => queue == []
    case Some(k) => Drains(AfterDispatch(queue, k), Sub(available, queue[k].resourceRequirements))
  }

  /** If the whole queue's demand fits at once, it drains: each task is taken from the front in turn. */
  lemma {:induction false} DemandWithinDrains(queue: seq<Task>, available: ResourceRequirements)
    requires DemandCpu(queue) <= available.cpu && DemandMemory(queue) <= available.memory
    ensures Drains(queue, available)
    decreases |queue|
  {
    if queue != [] {
      var req := queue[0].resourceRequirements;
      assert FirstFit(queue, available) == Some(0);
      assert AfterDispatch(queue, 0) == queue[1..];
      DemandWithinDrains(queue[1..], Sub(available, req));
    }
  }

  /**
    The scheduler's view is only ever lowered, so two tasks that each need
    the whole of a non-empty view do not drain, although each fits on its
    own: after the first, nothing fits and the dispatch loop spins.
  */
  lemma StaleViewStalls(task: Task, available: ResourceRequirements)
    requires task.resourceRequirements == available && available.cpu > 0
    ensures FirstFit([task], available) == Some(0)
    ensures !Drains([task, task], available)
  {
    var queue := [task, task];
    assert FirstFit(queue, available) == Some(0);
    assert AfterDispatch(queue, 0) == [task];
    var drained := Sub(available, available);
    assert FirstFit([task], drained) == None by {
      assert !Fits(task.resourceRequirements, drained);
    }
  }

  class Scheduler {
    var taskQueue: seq<Task>
    var availableResources: ResourceRequirements

    /** An empty queue and a local view of `available`. */
    constructor (available: ResourceRequirements)
      ensures taskQueue == [] && availableResources == available
    {
      taskQueue := [];
      availableResources := available;
    }

    /** Appends `task` at the back; earlier entries keep their places. */
    method AddTask(task: Task)
      modifies this
      ensures taskQueue == old(taskQueue) + [task]
      ensures availableResources == old(availableResources)
    {
      taskQueue := taskQueue + [task];
    }

    /** The scheduler's local feasibility test. */
    predicate CanExecuteTask(task: Task)
      reads this
      ensures CanExecuteTask(task) <==> FirstFit([task], availableResources) == Some(0)
    {
      Fits(task.resourceRequirements, availableResources)
    }

    /** Takes a feasible task's requirement out of the local view. */
    method UpdateAvailableResources(task: Task)
      requires CanExecuteTask(task)
      modifies this
      ensures availableResources == Sub(old(availableResources), task.resourceRequirements)
      ensures taskQueue == old(taskQueue)
    {
      availableResources := ResourceRequirements(
        availableResources.cpu - task.resourceRequirements.cpu,
        availableResources.memory - task.resourceRequirements.memory);
    }

    /**
      Pops tasks from the front; the first that fits is dispatched and its
      requirement taken from the local view, each one that does not fit is
      pushed to the back. None comes back only for an empty queue; a
      non-empty queue in which nothing fits would loop forever, so callers
      must not ask then.
    */
    method ScheduleNextTask() returns (next: Option<Task>)
      requires taskQueue == [] || FirstFit(taskQueue, availableResources).Some?
      modifies this
      ensures old(taskQueue) == [] ==> next == None && taskQueue == [] && availableResources == old(availableResources)
      ensures old(taskQueue) != [] ==>
        var k := FirstFit(old(taskQueue), old(availableResources)).value;
        && next == Some(old(taskQueue)[k])
        && taskQueue == AfterDispatch(old(taskQueue), k)
        && availableResources == Sub(old(availableResources), old(taskQueue)[k].resourceRequirements)
    {
      ghost var queue0, available0 := taskQueue, availableResources;
      ghost var k: nat := if taskQueue == [] then 0 else FirstFit(taskQueue, availableResources).value;
      ghost var skipped: nat := 0;
      while taskQueue != []
        invariant queue0 != [] ==> k < |queue0| && Fits(queue0[k].resourceRequirements, available0)
        invariant queue0 != [] ==> skipped <= k
        invariant queue0 == [] ==> skipped == 0
        invariant taskQueue == queue0[skipped..] + queue0[..skipped]
        invariant forall j :: 0 <= j < skipped ==> !Fits(queue0[j].resourceRequirements, available0)
        invariant availableResources == available0
        decreases k - skipped
      {
        var task := taskQueue[0];
        taskQueue := taskQueue[1..];
        if CanExecuteTask(task) {
          UpdateAvailableResources(task);
          return Some(task);
        } else {
          taskQueue := taskQueue + [task];
        }
        skipped := skipped + 1;
      }
      return None;
    }

    /** Number of tasks waiting. */
    function GetQueueLength(): (n: nat)
      reads this
      ensures n == |taskQueue|
    {
      |taskQueue|
    }
  }

  /** The scheduler's test: task1 (priority 1) then task2 (priority 2) in an 8/16000 view; task1 comes out. */
  method ScheduleInArrivalOrderScenario()
  {
    var scheduler := new Scheduler(ResourceRequirements(8, 16_000));
    var task1 := Task("task1", ["arg1", "arg2"], 1, ResourceRequirements(2, 2_000), Queued);
    var task2 := Task("task2", ["arg3", "arg4"], 2, ResourceRequirements(4, 4_000), Queued);
    scheduler.AddTask(task1);
    assert scheduler.taskQueue[0] == task1;
    scheduler.AddTask(task2);
    var scheduled := scheduler.ScheduleNextTask();
    assert scheduled == Some(task1);
    assert scheduler.availableResources == ResourceRequirements(6, 14_000);
    assert scheduler.taskQueue == [task2];
  }

  /** A higher-priority task that does not fit is passed over for a later one that does, and stays queued. */
  method PriorityInversionScenario()
  {
    var scheduler := new Scheduler(ResourceRequirements(3, 16_000));
    var high := Task("t1", [], 5, ResourceRequirements(4, 1_000), Queued);
    var low := Task("t2", [], 1, ResourceRequirements(2, 1_000), Queued);
    scheduler.AddTask(high);
    scheduler.AddTask(low);
    var scheduled := scheduler.ScheduleNextTask();
    assert scheduled == Some(low);
    assert scheduler.taskQueue == [high];
    assert scheduler.availableResources == ResourceRequirements(1, 15_000);
  }
}
