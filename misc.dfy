/**
 * The miscellaneous host functions the robot code imports: controller
 * reads, controller battery, and the competition status bits. A controller
 * error is reported through errno and answered with a default value.
 */
module MiscApi {
  import opened Common
  import opened Interface
  import opened HostState
  import Controllers

  /**
   * `controller_get_analog`: the axis value; for a bad controller id or
   * channel, 0 with `EINVAL` in errno. A disconnected controller reads 0
   * without an error.
   */
  method ControllerGetAnalog(host: Host, id: u32, channel: u32, allocation: u32) returns (r: Fatal<i32>)
    modifies host.memory, host.tasks.currentTask
    ensures var res := host.controllers.GetAnalog(id, channel);
      (res.Ok? ==> r == Returns(res.value) && host.memory[..] == old(host.memory[..])) &&
      (res.Err? ==> r == (if old(host.ErrnoSettable(allocation)) then Returns(0) else Aborts)) &&
      (res.Err? && r.Returns? ==> host.ErrnoReported(old(host.memory[..]), EINVAL))
    ensures host.controllers.ControllerFor(id) == Ok(None) ==> r == Returns(0)
    ensures host.tasks.currentTask != null ==>
      host.TaskKept(old(host.tasks.currentTask.localStorage), old(host.tasks.currentTask.isFinished))
  {
    var res := host.controllers.GetAnalog(id, channel);
    var answer: Result<i32, i32> := match res case Ok(v) => Ok(v) case Err(e) => Err(e);
    r := host.UnwrapOrErrnoAs(answer, 0, allocation);
  }

  /** `controller_get_digital`: 1 while the button is held, else 0; errors as for `controller_get_analog`. */
  method ControllerGetDigital(host: Host, id: u32, button: u32, allocation: u32) returns (r: Fatal<i32>)
    modifies host.memory, host.tasks.currentTask
    ensures var res := host.controllers.GetDigital(id, button);
      (res.Ok? ==> r == Returns(BoolToInt(res.value)) && host.memory[..] == old(host.memory[..])) &&
      (res.Err? ==> r == (if old(host.ErrnoSettable(allocation)) then Returns(0) else Aborts)) &&
      (res.Err? && r.Returns? ==> host.ErrnoReported(old(host.memory[..]), EINVAL))
    ensures host.tasks.currentTask != null ==>
      host.TaskKept(old(host.tasks.currentTask.localStorage), old(host.tasks.currentTask.isFinished))
  {
    var res := host.controllers.GetDigital(id, button);
    var held := host.UnwrapOrErrnoAs(res, false, allocation);
    r := match held case Aborts => Aborts case Returns(b) => Returns(BoolToInt(b));
  }

  /**
   * `controller_get_digital_new_press`: 1 when the button was pressed since
   * the last such call (and the press is consumed), else 0; errors as for
   * `controller_get_analog`.
   */
  method ControllerGetDigitalNewPress(host: Host, id: u32, button: u32, allocation: u32) returns (r: Fatal<i32>)
    requires host.controllers.Valid()
    modifies host.memory, host.tasks.currentTask, host.controllers.master, host.controllers.partner
    ensures var res := Controllers.NewPressOf(old(host.controllers.ControllerFor(id)), button);
      (res.Ok? ==> r == Returns(BoolToInt(res.value)) && host.memory[..] == old(host.memory[..])) &&
      (res.Err? ==> r == (if old(host.ErrnoSettable(allocation)) then Returns(0) else Aborts)) &&
      (res.Err? && r.Returns? ==> host.ErrnoReported(old(host.memory[..]), EINVAL))
    ensures host.controllers.MasterView() ==
      if id == Controllers.E_CONTROLLER_MASTER then Controllers.Consume(old(host.controllers.MasterView()), button)
      else old(host.controllers.MasterView())
    ensures host.controllers.PartnerView() ==
      if id == Controllers.E_CONTROLLER_PARTNER then Controllers.Consume(old(host.controllers.PartnerView()), button)
      else old(host.controllers.PartnerView())
    ensures host.tasks.currentTask != null ==>
      host.TaskKept(old(host.tasks.currentTask.localStorage), old(host.tasks.currentTask.isFinished))
  {
    var res := host.controllers.GetDigitalNewPress(id, button);
    var pressed := host.UnwrapOrErrnoAs(res, false, allocation);
    r := match pressed case Aborts => Aborts case Returns(b) => Returns(BoolToInt(b));
  }

  /**
   * `controller_is_connected` as the handler is written: it answers
   * whether the lookup succeeded, so any valid id gives 1, connected or not.
   */
  method ControllerIsConnectedAsWritten(host: Host, id: u32, allocation: u32) returns (r: Fatal<i32>)
    modifies host.memory, host.tasks.currentTask
    ensures host.controllers.IsConnected(id).Ok? ==> r == Returns(1) && host.memory[..] == old(host.memory[..])
    ensures id == Controllers.E_CONTROLLER_PARTNER && host.controllers.partner == null ==> r == Returns(1)
    ensures host.controllers.IsConnected(id).Err? ==>
      r == (if old(host.ErrnoSettable(allocation)) then Returns(0) else Aborts)
    ensures host.controllers.IsConnected(id).Err? && r.Returns? ==> host.ErrnoReported(old(host.memory[..]), EINVAL)
    ensures host.tasks.currentTask != null ==>
      host.TaskKept(old(host.tasks.currentTask.localStorage), old(host.tasks.currentTask.isFinished))
  {
    var res := host.controllers.IsConnected(id);
    var ok := host.UnwrapOrErrno(res, allocation);
    r := match ok case Aborts => Aborts case Returns(b) => Returns(BoolToInt(b));
  }

  /**
   * `controller_is_connected` as intended: 1 exactly when the controller
   * is connected; an invalid id gives 0 with `EINVAL` in errno.
   */
  method ControllerIsConnected(host: Host, id: u32, allocation: u32) returns (r: Fatal<i32>)
    modifies host.memory, host.tasks.currentTask
    ensures id == Controllers.E_CONTROLLER_MASTER ==> r == Returns(BoolToInt(host.controllers.master != null))
    ensures id == Controllers.E_CONTROLLER_PARTNER ==> r == Returns(BoolToInt(host.controllers.partner != null))
    ensures host.controllers.IsConnected(id).Ok? ==> host.memory[..] == old(host.memory[..])
    ensures host.controllers.IsConnected(id).Err? ==>
      r == (if old(host.ErrnoSettable(allocation)) then Returns(0) else Aborts)
    ensures host.controllers.IsConnected(id).Err? && r.Returns? ==> host.ErrnoReported(old(host.memory[..]), EINVAL)
    ensures host.tasks.currentTask != null ==>
      host.TaskKept(old(host.tasks.currentTask.localStorage), old(host.tasks.currentTask.isFinished))
  {
    var res := host.controllers.IsConnected(id);
    var connected := host.UnwrapOrErrnoAs(res, false, allocation);
    r := match connected case Aborts => Aborts case Returns(b) => Returns(BoolToInt(b));
  }

  /** `controller_get_battery_capacity`: a full battery for every id, valid or not. */
  function ControllerGetBatteryCapacity(id: u32): (r: i32)
    ensures r == 100
  {
    100
  }

  /** `controller_get_battery_level`: always the same as the capacity. */
  function ControllerGetBatteryLevel(id: u32): (r: i32)
    ensures r == ControllerGetBatteryCapacity(id)
  {
    100
  }

  /** `competition_is_autonomous`: 1 exactly in the autonomous period. */
  function CompetitionIsAutonomous(host: Host): (r: i32)
    reads host
    ensures r == 0 || r == 1
    ensures r == 1 <==> host.competitionPhase.autonomous
  {
    BoolToInt(host.competitionPhase.autonomous)
  }

  /** `competition_is_connected`: 1 exactly when a competition controller is attached. */
  function CompetitionIsConnected(host: Host): (r: i32)
    reads host
    ensures r == 0 || r == 1
    ensures r == 1 <==> host.competitionPhase.isCompetition
  {
    BoolToInt(host.competitionPhase.isCompetition)
  }

  /** `competition_is_disabled`: 1 exactly when the robot is not enabled. */
  function CompetitionIsDisabled(host: Host): (r: i32)
    reads host
    ensures r == 0 || r == 1
    ensures r == 1 <==> !host.competitionPhase.enabled
  {
    BoolToInt(!host.competitionPhase.enabled)
  }
}
