/**
 * The state a host function sees: sandbox memory, the event channel, the
 * display, the mutex and task pools, the controllers, the competition phase
 * and the smart ports; and the errno convention host functions use to
 * report an error code to the robot code.
 */
module HostState {
  import opened Common
  import opened Interface
  import Lcd
  import Tasks
  import ThreadLocal
  import Controllers
  import SmartDevices

  /** `CompetitionPhase::default()`: not autonomous, disabled, no field controller. */
  const DEFAULT_PHASE: CompetitionPhase := CompetitionPhase(false, false, false)

  class Host {
    const memory: array<u8>
    const interface: SimulatorInterface
    const lcd: Lcd.Lcd
    /** Handles of the mutexes the robot code has created. */
    var mutexes: set<nat>
    const tasks: Tasks.TaskPool
    const controllers: Controllers.Controllers
    var competitionPhase: CompetitionPhase
    const smartPorts: SmartDevices.SmartPorts

    /** The parts are well formed and share the host's event channel. */
    ghost predicate Valid()
      reads this, lcd, lcd.lines, tasks, tasks.pool.Values, controllers
    {
      lcd.Valid() && tasks.Valid() && controllers.Valid() &&
      lcd.interface == interface && smartPorts.interface == interface
    }

    /**
     * `Host::new`: a blank, uninitialised display on the host's channel, no
     * mutexes, no tasks, no controllers connected, the default phase and no
     * configured port.
     */
    constructor (memory: array<u8>, interface: SimulatorInterface)
      ensures Valid()
      ensures this.memory == memory && this.interface == interface
      ensures !lcd.initialized && lcd.Lines() == BlankLines()
      ensures mutexes == {}
      ensures tasks.pool == map[] && tasks.currentTask == null
      ensures controllers.MasterView() == None && controllers.PartnerView() == None
      ensures competitionPhase == DEFAULT_PHASE
      ensures smartPorts.devices == map[]
    {
      this.memory := memory;
      this.interface := interface;
      lcd := new Lcd.Lcd(interface);
      mutexes := {};
      tasks := new Tasks.TaskPool();
      controllers := new Controllers.Controllers(None, None);
      competitionPhase := DEFAULT_PHASE;
      smartPorts := new SmartDevices.SmartPorts(interface);
    }

    /** The errno of the current task as it stands in memory, when there is one. */
    function CurrentErrno(): Option<i32>
      reads this, tasks, tasks.currentTask, memory
    {
      var t := tasks.currentTask;
      if t == null || t.errno.None? then None else t.errno.value.Value(memory[..])
    }

    /**
     * Whether an error code can be handed to the robot code: a task is
     * running and its errno cell (allocated from `allocation` on first use)
     * lies inside memory. Otherwise reporting an error panics.
     */
    ghost predicate ErrnoSettable(allocation: u32)
      reads this, tasks, tasks.currentTask
    {
      Tasks.ErrnoWritable(tasks.currentTask, allocation, memory.Length)
    }

    /**
     * An error code has been handed to the robot code: the current task's
     * errno cell holds `code`, and every other byte of memory is as it was
     * in `before`.
     */
    ghost predicate ErrnoReported(before: seq<u8>, code: i32)
      reads this, tasks, tasks.currentTask, memory
    {
      tasks.currentTask != null && tasks.currentTask.errno.Some? &&
      tasks.currentTask.errno.value.Written(before, code) == Returns(memory[..]) &&
      CurrentErrno() == Some(code)
    }

    /** The current task's fields other than its errno cell are as they were. */
    ghost predicate TaskKept(storage: Option<ThreadLocal.TaskStorage>, finished: bool)
      reads tasks, tasks.currentTask
    {
      tasks.currentTask != null ==>
        tasks.currentTask.localStorage == storage && tasks.currentTask.isFinished == finished
    }

    /**
     * `unwrap_or_errno`: an error code goes to the current task's errno
     * (with no current task, or an errno cell that cannot be allocated or
     * written, the host panics); the answer is whether the result was `Ok`.
     * An `Ok` touches neither memory nor any task.
     */
    method UnwrapOrErrno<T>(res: Result<T, i32>, allocation: u32) returns (r: Fatal<bool>)
      modifies memory, tasks.currentTask
      ensures res.Ok? ==> r == Returns(true) && memory[..] == old(memory[..])
      ensures res.Ok? && tasks.currentTask != null ==> tasks.currentTask.errno == old(tasks.currentTask.errno)
      ensures res.Err? ==> r == (if old(ErrnoSettable(allocation)) then Returns(false) else Aborts)
      ensures res.Err? && tasks.currentTask != null ==>
        tasks.currentTask.errno == Tasks.ErrnoCellAfter(old(tasks.currentTask.errno), allocation)
      ensures res.Err? && r.Returns? ==> ErrnoReported(old(memory[..]), res.error)
      ensures tasks.currentTask != null ==>
        TaskKept(old(tasks.currentTask.localStorage), old(tasks.currentTask.isFinished))
      ensures r.Aborts? ==> memory[..] == old(memory[..])
    {
      if res.Err? {
        var written := tasks.SetCurrentErrno(memory, res.error, allocation);
        if written.Aborts? {
          return Aborts;
        }
      }
      r := Returns(res.Ok?);
    }

    /** `unwrap_or_errno_as`: like `unwrap_or_errno`, answering the value, or `errorValue` after setting errno. */
    method UnwrapOrErrnoAs<T>(res: Result<T, i32>, errorValue: T, allocation: u32) returns (r: Fatal<T>)
      modifies memory, tasks.currentTask
      ensures res.Ok? ==> r == Returns(res.value) && memory[..] == old(memory[..])
      ensures res.Ok? && tasks.currentTask != null ==> tasks.currentTask.errno == old(tasks.currentTask.errno)
      ensures res.Err? ==> r == (if old(ErrnoSettable(allocation)) then Returns(errorValue) else Aborts)
      ensures res.Err? && tasks.currentTask != null ==>
        tasks.currentTask.errno == Tasks.ErrnoCellAfter(old(tasks.currentTask.errno), allocation)
      ensures res.Err? && r.Returns? ==> ErrnoReported(old(memory[..]), res.error)
      ensures tasks.currentTask != null ==>
        TaskKept(old(tasks.currentTask.localStorage), old(tasks.currentTask.isFinished))
      ensures r.Aborts? ==> memory[..] == old(memory[..])
    {
      match res
      case Ok(value) =>
        r := Returns(value);
      case Err(code) =>
        var written := tasks.SetCurrentErrno(memory, code, allocation);
        if written.Aborts? {
          return Aborts;
        }
        r := Returns(errorValue);
    }
  }
}
