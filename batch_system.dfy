/**
  The batch runner: a scheduler and a resource pool built from one total, a
  submit operation, and the run loop that dispatches, allocates, executes,
  releases and counts until the scheduler has nothing left.
*/
module Batch {
  import opened Prelude
  import opened Tasks
  import opened Resources
  import opened Scheduling

  /** What the status report carries: queue length and the pool's availability. */
  datatype BatchSystemStatus = BatchSystemStatus(tasksQueued: nat, resourcesAvailable: ResourceRequirements)

  class BatchSystem {
    const scheduler: Scheduler
    const resourceManager: ResourceManager

    /**
      Between runs the pool is fully available and the scheduler's view never
      exceeds the pool's total.
    */
    ghost predicate Valid()
      reads this, scheduler, resourceManager
    {
      && resourceManager.availableResources == resourceManager.totalResources
      && Fits(scheduler.availableResources, resourceManager.totalResources)
    }

    /** The scheduler and the pool both start from `total`. */
    constructor (total: ResourceRequirements)
      ensures Valid() && fresh(scheduler) && fresh(resourceManager)
      ensures scheduler.taskQueue == [] && scheduler.availableResources == total
      ensures resourceManager.totalResources == total && resourceManager.availableResources == total
    {
      resourceManager := new ResourceManager(total);
      scheduler := new Scheduler(total);
    }

    /** Queues `task` behind everything already submitted. */
    method SubmitTask(task: Task)
      requires Valid()
      modifies scheduler
      ensures Valid()
      ensures scheduler.taskQueue == old(scheduler.taskQueue) + [task]
      ensures scheduler.availableResources == old(scheduler.availableResources)
    {
      scheduler.AddTask(task);
    }

    /** Stands for the task's workload, which always ends in `Completed`. */
    method ExecuteTask(task: Task) returns (status: TaskStatus)
      ensures status == Completed
    {
      status := Completed;
    }

    /** The queue length and the pool's current availability. */
    method GetStatus() returns (status: BatchSystemStatus)
      ensures status.tasksQueued == |scheduler.taskQueue|
      ensures status.resourcesAvailable == resourceManager.availableResources
    {
      var available := resourceManager.GetAvailableResources();
      status := BatchSystemStatus(scheduler.GetQueueLength(), available);
    }

    /**
      Dispatches until the scheduler returns nothing. Each dispatched task
      is allocated, executed and released, or counted as failed if the pool
      refuses it. The pool is back at its total at the top of every round,
      and since the scheduler's view only shrinks, the pool never refuses:
      every task completes. The scheduler's view ends lowered by the whole
      demand of the tasks run, for it is never given anything back.
    */
    method Run() returns (completedTasks: int, failedTasks: int)
      requires Valid()
      requires Drains(scheduler.taskQueue, scheduler.availableResources)
      modifies scheduler, resourceManager
      ensures Valid()
      ensures scheduler.taskQueue == []
      ensures completedTasks == |old(scheduler.taskQueue)| && failedTasks == 0
      ensures completedTasks + failedTasks == |old(scheduler.taskQueue)|
      ensures resourceManager.totalResources == old(resourceManager.totalResources)
      ensures scheduler.availableResources.cpu
           == old(scheduler.availableResources.cpu) - DemandCpu(old(scheduler.taskQueue))
      ensures scheduler.availableResources.memory
           == old(scheduler.availableResources.memory) - DemandMemory(old(scheduler.taskQueue))
    {
      completedTasks, failedTasks := 0, 0;
      ghost var queue0, view0 := scheduler.taskQueue, scheduler.availableResources;
      while true
        invariant Valid()
        invariant resourceManager.totalResources == old(resourceManager.totalResources)
        invariant Drains(scheduler.taskQueue, scheduler.availableResources)
        invariant completedTasks + |scheduler.taskQueue| == |queue0| && failedTasks == 0
        invariant scheduler.availableResources.cpu + DemandCpu(queue0)
               == view0.cpu + DemandCpu(scheduler.taskQueue)
        invariant scheduler.availableResources.memory + DemandMemory(queue0)
               == view0.memory + DemandMemory(scheduler.taskQueue)
        decreases |scheduler.taskQueue|
      {
        ghost var queue, view := scheduler.taskQueue, scheduler.availableResources;
        var next := scheduler.ScheduleNextTask();
        if next.Some? {
          var task := next.value;
          ghost var k := FirstFit(queue, view).value;
          DemandAfterDispatch(queue, k);
          FitsTransitive(task.resourceRequirements, view, resourceManager.totalResources);
          var granted := resourceManager.AllocateResources(task.resourceRequirements);
          if granted {
            var status := ExecuteTask(task);
            match status {
              case Completed => completedTasks := completedTasks + 1;
              case Failed => failedTasks := failedTasks + 1;
              case _ =>
            }
            resourceManager.ReleaseResources(task.resourceRequirements);
          } else {
            failedTasks := failedTasks + 1;
          }
        } else {
          break;
        }
      }
    }
  }

  /**
    The boot sequence's demonstration: a 4/1024 pool, task1 (1/256) and
    task2 (1/512); the run completes both and fails none.
  */
  method BootDemonstration()
  {
    var batchSystem := new BatchSystem(ResourceRequirements(4, 1024));
    var task1 := Task("task1", ["arg1"], 1, ResourceRequirements(1, 256), Queued);
    var task2 := Task("task2", ["arg2"], 2, ResourceRequirements(1, 512), Queued);
    batchSystem.SubmitTask(task1);
    batchSystem.SubmitTask(task2);
    assert [task1, task2][1..] == [task2] && [task2][1..] == [];
    assert DemandCpu([task2]) == 1 && DemandMemory([task2]) == 512;
    DemandWithinDrains([task1, task2], ResourceRequirements(4, 1024));
    var completed, failed := batchSystem.Run();
    assert completed == 2 && failed == 0;
    assert batchSystem.scheduler.taskQueue == [];
  }
}
