/**
 * The host state of the original single-crate simulator: the robot code's
 * competition entry points (found after the module is instantiated), sandbox
 * memory, the display, mutexes, the allocator and the task pool.
 */
module LegacyHost {
  import opened Common
  import LegacyLcd
  import Tasks
  import ThreadLocal

  /** A handle on an exported `() -> ()` function of the robot code. */
  datatype Entrypoint = Entrypoint(exportIndex: nat)

  /** A handle on the robot code's exported allocator. */
  datatype WasmAllocator = WasmAllocator(memalignIndex: nat, freeIndex: nat)

  class InnerHost {
    var autonomous: Option<Entrypoint>
    var initialize: Option<Entrypoint>
    var disabled: Option<Entrypoint>
    var competitionInitialize: Option<Entrypoint>
    var opControl: Option<Entrypoint>
    const memory: array<u8>
    const lcd: LegacyLcd.Lcd
    /** Handles of the mutexes the robot code has created. */
    var mutexes: set<nat>
    var wasmAllocator: Option<WasmAllocator>
    const tasks: Tasks.TaskPool

    /**
     * `InnerHost::new`: no entry point and no allocator known yet, a blank
     * display, no mutexes and no tasks.
     */
    constructor (memory: array<u8>)
      ensures this.memory == memory
      ensures autonomous == None && initialize == None && disabled == None
      ensures competitionInitialize == None && opControl == None
      ensures lcd.Valid() && !lcd.initialized
      ensures forall i :: 0 <= i < lcd.lines.Length ==> lcd.lines[i] == []
      ensures mutexes == {} && wasmAllocator == None
      ensures tasks.Valid() && tasks.pool == map[] && tasks.currentTask == null
    {
      autonomous := None;
      initialize := None;
      disabled := None;
      competitionInitialize := None;
      opControl := None;
      this.memory := memory;
      lcd := new LegacyLcd.Lcd();
      mutexes := {};
      wasmAllocator := None;
      tasks := new Tasks.TaskPool();
    }

    /**
     * `use_errno`: an error code goes to the current task's errno (the host
     * panics when there is no current task or the cell cannot be had); the
     * answer is whether the result was `Ok`.
     */
    method UseErrno<T>(res: Result<T, i32>, allocation: u32) returns (r: Fatal<bool>)
      modifies memory, tasks.currentTask
      ensures res.Ok? ==> r == Returns(true) && memory[..] == old(memory[..])
      ensures res.Ok? && tasks.currentTask != null ==> tasks.currentTask.errno == old(tasks.currentTask.errno)
      ensures res.Err? ==>
        r == (if old(Tasks.ErrnoWritable(tasks.currentTask, allocation, memory.Length)) then Returns(false) else Aborts)
      ensures res.Err? && tasks.currentTask != null ==>
        tasks.currentTask.errno == Tasks.ErrnoCellAfter(old(tasks.currentTask.errno), allocation)
      ensures res.Err? && r.Returns? ==>
        tasks.currentTask != null && tasks.currentTask.errno.Some? &&
        tasks.currentTask.errno.value.Written(old(memory[..]), res.error) == Returns(memory[..]) &&
        tasks.currentTask.errno.value.Value(memory[..]) == Some(res.error)
      ensures tasks.currentTask != null ==>
        tasks.currentTask.localStorage == old(tasks.currentTask.localStorage) &&
        tasks.currentTask.isFinished == old(tasks.currentTask.isFinished)
      ensures r.Aborts? ==> memory[..] == old(memory[..])
    {
      if res.Err? {
        var written := tasks.SetCurrentErrno(memory, res.error, allocation);
        if written.Aborts? {
          return Aborts;
        }
      }
      r := Returns(res.Ok?);
    }

    /**
     * `task_storage` of the original simulator: it first takes the robot
     * code's allocator, panicking while none is known, then resolves the
     * handle and hands back the task's storage block as the packaged
     * `task_storage` does.
     */
    method TaskStorageOf(handle: nat, allocation: u32) returns (r: Fatal<ThreadLocal.TaskStorage>)
      modifies tasks.Tasks()
      ensures wasmAllocator.None? ==> r.Aborts? && forall t :: t in old(tasks.Tasks()) ==> unchanged(t)
      ensures wasmAllocator.Some? && (tasks.ById(handle).Aborts? || tasks.ById(handle).value.None?) ==> r.Aborts?
      ensures wasmAllocator.Some? && tasks.ById(handle).Returns? && tasks.ById(handle).value.Some? ==>
        var t := tasks.ById(handle).value.value;
        t.localStorage == Tasks.StorageAfter(old(t.localStorage), allocation) &&
        (r.Returns? <==> t.localStorage.Some?) &&
        (r.Returns? ==> t.localStorage == Some(r.value))
      ensures wasmAllocator.Some? ==>
        forall t :: t in old(tasks.Tasks()) && (tasks.ById(handle).Aborts? || tasks.ById(handle).value != Some(t)) ==>
          unchanged(t)
    {
      if wasmAllocator.None? {
        return Aborts;
      }
      r := tasks.TaskStorageOf(handle, allocation);
    }
  }
}
