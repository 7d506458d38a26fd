/**
 * The system daemon: the host-side task that forwards frontend messages to
 * the simulated hardware and, on a competition phase change, restarts the
 * competition task with the user entry point the new phase calls for.
 */
module SystemDaemon {
  import opened Common
  import opened Interface
  import Controllers

  /** The user entry points the daemon can start on a phase change. */
  datatype UserTask = Opcontrol | Auton | Disabled | CompInit

  /** The entry point the daemon starts before any message: `initialize`. */
  const INITIALIZE_EXPORT: string := "initialize"

  /** The robot code export each user task runs. */
  function ExportName(task: UserTask): (name: string)
    ensures name != INITIALIZE_EXPORT
    ensures |name| > 0
  {
    match task
    case Opcontrol => "opcontrol"
    case Auton => "autonomous"
    case Disabled => "disabled"
    case CompInit => "competition_initialize"
  }

  /** Different user tasks run different exports. */
  lemma ExportNameInjective(a: UserTask, b: UserTask)
    requires ExportName(a) == ExportName(b)
    ensures a == b
  {
  }

  /**
   * The task for a phase change that is acted upon. `competition_initialize`
   * runs when a competition controller has just appeared (no phase seen
   * before, or the last one had none) while the robot is disabled; any
   * other disabled phase runs `disabled`; an enabled phase runs
   * `autonomous` or `opcontrol` according to its autonomous bit.
   */
  function ChooseUserTask(last: Option<CompetitionPhase>, phase: CompetitionPhase): (t: UserTask)
    ensures t == CompInit <==> (last.None? || !last.value.isCompetition) && phase.isCompetition && !phase.enabled
    ensures t == Disabled <==> !phase.enabled && !((last.None? || !last.value.isCompetition) && phase.isCompetition)
    ensures t == Auton <==> phase.enabled && phase.autonomous
    ensures t == Opcontrol <==> phase.enabled && !phase.autonomous
  {
    if (match last case None => true case Some(p) => !p.isCompetition) && phase.isCompetition && !phase.enabled then CompInit
    else if !phase.enabled then Disabled
    else if phase.autonomous then Auton
    else Opcontrol
  }

  /** A disabled phase starts `competition_initialize` or `disabled`, an enabled one never does. */
  lemma DisabledPhaseRunsDisabledOrCompInit(last: Option<CompetitionPhase>, phase: CompetitionPhase)
    ensures !phase.enabled <==> ChooseUserTask(last, phase) in {CompInit, Disabled}
  {
  }

  /** What a `PhaseChange` leads to. */
  datatype PhaseOutcome = Ignored | Restart(task: UserTask)

  /**
   * The guards of the `PhaseChange` arm: the phase already in force is
   * ignored, and so is a change between two disabled phases (whatever other
   * bits differ); otherwise the competition task is restarted.
   */
  function PhaseChangeOutcome(last: Option<CompetitionPhase>, phase: CompetitionPhase): (o: PhaseOutcome)
    ensures o.Ignored? <==> last == Some(phase) || (last.Some? && !last.value.enabled && !phase.enabled)
    ensures o.Restart? ==> o.task == ChooseUserTask(last, phase)
  {
    if last == Some(phase) then Ignored
    else if last.Some? && !last.value.enabled && !phase.enabled then Ignored
    else Restart(ChooseUserTask(last, phase))
  }

  /**
   * The outcomes of a run of phase changes in the daemon as written:
   * `last_phase` starts as `None` and is never assigned, so every change is
   * judged against `None`.
   */
  function OutcomesAsWritten(phases: seq<CompetitionPhase>): (r: seq<PhaseOutcome>)
    ensures |r| == |phases|
  {
    if phases == [] then []
    else OutcomesAsWritten(phases[..|phases| - 1]) + [PhaseChangeOutcome(None, phases[|phases| - 1])]
  }

  /** As written, no phase change is ever ignored, not even a repeat of the phase in force. */
  lemma {:induction false} AsWrittenNeverIgnores(phases: seq<CompetitionPhase>, i: nat)
    requires i < |phases|
    ensures OutcomesAsWritten(phases)[i] == Restart(ChooseUserTask(None, phases[i]))
  {
    var init := phases[..|phases| - 1];
    if i < |init| {
      AsWrittenNeverIgnores(init, i);
    }
  }

  /** As written, the same enabled phase sent twice restarts `opcontrol` twice. */
  lemma AsWrittenRepeatRestarts()
    ensures var p := CompetitionPhase(false, true, false);
      OutcomesAsWritten([p, p]) == [Restart(Opcontrol), Restart(Opcontrol)]
  {
    var p := CompetitionPhase(false, true, false);
    assert [p, p][..1] == [p];
    assert [p][..0] == [];
  }

  /** The phase the daemon remembers after a change: the new one when it restarted, else the old. */
  function Step(last: Option<CompetitionPhase>, phase: CompetitionPhase): (next: Option<CompetitionPhase>)
    ensures PhaseChangeOutcome(last, phase).Restart? ==> next == Some(phase)
    ensures PhaseChangeOutcome(last, phase).Ignored? ==> next == last
  {
    if PhaseChangeOutcome(last, phase).Restart? then Some(phase) else last
  }

  /** Once a phase has been handled, the same phase again is ignored. */
  lemma StepThenRepeatIgnored(last: Option<CompetitionPhase>, phase: CompetitionPhase)
    ensures PhaseChangeOutcome(Step(last, phase), phase) == Ignored
  {
  }

  /** The phase remembered after a run of changes, starting from `last`. */
  function Recorded(last: Option<CompetitionPhase>, phases: seq<CompetitionPhase>): Option<CompetitionPhase>
  {
    if phases == [] then last
    else Step(Recorded(last, phases[..|phases| - 1]), phases[|phases| - 1])
  }

  /** The outcomes of a run of changes when the daemon remembers the phase it acted on. */
  function Outcomes(last: Option<CompetitionPhase>, phases: seq<CompetitionPhase>): (r: seq<PhaseOutcome>)
    ensures |r| == |phases|
  {
    if phases == [] then []
    else
      var init := phases[..|phases| - 1];
      Outcomes(last, init) + [PhaseChangeOutcome(Recorded(last, init), phases[|phases| - 1])]
  }

  /** The `i`-th outcome is judged against the phase remembered after the first `i` changes. */
  lemma {:induction false} OutcomeAt(last: Option<CompetitionPhase>, phases: seq<CompetitionPhase>, i: nat)
    requires i < |phases|
    ensures Outcomes(last, phases)[i] == PhaseChangeOutcome(Recorded(last, phases[..i]), phases[i])
  {
    var init := phases[..|phases| - 1];
    if i < |init| {
      OutcomeAt(last, init, i);
      assert init[..i] == phases[..i];
    } else {
      assert init == phases[..i];
    }
  }

  /** With the phase remembered, a change that repeats the one before it is always ignored. */
  lemma RepeatedPhaseIgnored(last: Option<CompetitionPhase>, phases: seq<CompetitionPhase>, i: nat)
    requires 0 < i < |phases| && phases[i] == phases[i - 1]
    ensures Outcomes(last, phases)[i] == Ignored
  {
    OutcomeAt(last, phases, i);
    assert phases[..i][..i - 1] == phases[..i - 1];
    StepThenRepeatIgnored(Recorded(last, phases[..i - 1]), phases[i - 1]);
  }

  /** What the daemon did with one message. */
  datatype DaemonAction =
    | ControllersUpdated
    | LcdButtonsForwarded(buttons: LcdButtons)
    | PhaseIgnored
    | Restarted(deletedPrevious: bool, task: UserTask)

  /** The phase changes among a run of messages, in order. */
  function PhasesOf(messages: seq<SimulatorMessage>): (r: seq<CompetitionPhase>)
    ensures |r| <= |messages|
  {
    if messages == [] then []
    else
      var m := messages[|messages| - 1];
      PhasesOf(messages[..|messages| - 1]) + (if m.PhaseChange? then [m.phase] else [])
  }

  /** The phase outcome an action records, if it handled a phase change. */
  function ActionOutcome(a: DaemonAction): seq<PhaseOutcome>
  {
    match a
    case PhaseIgnored => [Ignored]
    case Restarted(_, t) => [Restart(t)]
    case _ => []
  }

  /** The outcomes among a run of actions, in order. */
  function OutcomesOf(actions: seq<DaemonAction>): (r: seq<PhaseOutcome>)
    ensures |r| <= |actions|
  {
    if actions == [] then []
    else OutcomesOf(actions[..|actions| - 1]) + ActionOutcome(actions[|actions| - 1])
  }

  /** Appending one message or action extends the phases or the outcomes by its own part. */
  lemma SnocParts(messages: seq<SimulatorMessage>, m: SimulatorMessage, actions: seq<DaemonAction>, a: DaemonAction)
    ensures PhasesOf(messages + [m]) == PhasesOf(messages) + (if m.PhaseChange? then [m.phase] else [])
    ensures OutcomesOf(actions + [a]) == OutcomesOf(actions) + ActionOutcome(a)
  {
    assert (messages + [m])[..|messages|] == messages;
    assert (actions + [a])[..|actions|] == actions;
  }

  /** Handling one more phase change extends the outcomes and moves the remembered phase one `Step`. */
  lemma SnocPhase(last: Option<CompetitionPhase>, phases: seq<CompetitionPhase>, p: CompetitionPhase)
    ensures Outcomes(last, phases + [p]) == Outcomes(last, phases) + [PhaseChangeOutcome(Recorded(last, phases), p)]
    ensures Recorded(last, phases + [p]) == Step(Recorded(last, phases), p)
  {
    assert (phases + [p])[..|phases|] == phases;
  }

  /** One turn of the message loop keeps the outcomes and the remembered phase in step with `Outcomes` and `Recorded`. */
  lemma DrainStep(
    start: Option<CompetitionPhase>, messages: seq<SimulatorMessage>, i: nat,
    actions: seq<DaemonAction>, action: DaemonAction,
    before: Option<CompetitionPhase>, after: Option<CompetitionPhase>)
    requires i < |messages|
    requires OutcomesOf(actions) == Outcomes(start, PhasesOf(messages[..i]))
    requires before == Recorded(start, PhasesOf(messages[..i]))
    requires ActionOutcome(action) ==
      if messages[i].PhaseChange? then [PhaseChangeOutcome(before, messages[i].phase)] else []
    requires after == if messages[i].PhaseChange? then Step(before, messages[i].phase) else before
    ensures OutcomesOf(actions + [action]) == Outcomes(start, PhasesOf(messages[..i + 1]))
    ensures after == Recorded(start, PhasesOf(messages[..i + 1]))
  {
    assert messages[..i + 1] == messages[..i] + [messages[i]];
    SnocParts(messages[..i], messages[i], actions, action);
    var phases := PhasesOf(messages[..i]);
    if messages[i].PhaseChange? {
      SnocPhase(start, phases, messages[i].phase);
    } else {
      assert PhasesOf(messages[..i + 1]) == phases + [] == phases;
      assert OutcomesOf(actions + [action]) == OutcomesOf(actions) + [] == OutcomesOf(actions);
    }
  }

  /**
   * A controller slot after a run of messages: every controller update
   * moves it one `UpdateSlot` (the master's or, with `partner`, the
   * partner's part of the update); other messages leave it alone.
   */
  function SlotAfter(slot: Option<Controllers.Latched>, messages: seq<SimulatorMessage>, partner: bool): Option<Controllers.Latched>
  {
    if messages == [] then slot
    else
      var m := messages[|messages| - 1];
      var before := SlotAfter(slot, messages[..|messages| - 1], partner);
      if m.ControllerUpdate? then Controllers.UpdateSlot(before, if partner then m.partner else m.master) else before
  }

  /** The competition task after a run of phase outcomes, starting from `task`. */
  function TaskAfter(task: Option<UserTask>, outcomes: seq<PhaseOutcome>): Option<UserTask>
  {
    if outcomes == [] then task
    else if outcomes[|outcomes| - 1].Restart? then Some(outcomes[|outcomes| - 1].task)
    else TaskAfter(task, outcomes[..|outcomes| - 1])
  }

  /** The competition task is the one of the last restart; with no restart at all it is the starting one. */
  lemma {:induction false} TaskAfterLastRestart(task: Option<UserTask>, outcomes: seq<PhaseOutcome>)
    ensures (forall k :: 0 <= k < |outcomes| ==> outcomes[k].Ignored?) ==> TaskAfter(task, outcomes) == task
    ensures forall i :: (0 <= i < |outcomes| && outcomes[i].Restart? &&
      forall k :: i < k < |outcomes| ==> outcomes[k].Ignored?) ==> TaskAfter(task, outcomes) == Some(outcomes[i].task)
  {
    if outcomes != [] {
      var init := outcomes[..|outcomes| - 1];
      TaskAfterLastRestart(task, init);
      assert forall k :: 0 <= k < |init| ==> init[k] == outcomes[k];
    }
  }

  /** Running two stretches of outcomes one after the other is running their concatenation. */
  lemma {:induction false} TaskAfterAppend(task: Option<UserTask>, a: seq<PhaseOutcome>, b: seq<PhaseOutcome>)
    ensures TaskAfter(task, a + b) == TaskAfter(TaskAfter(task, a), b)
  {
    if b == [] {
      assert a + b == a;
    } else {
      var init := b[..|b| - 1];
      TaskAfterAppend(task, a, init);
      assert (a + b)[..|a + b| - 1] == a + init;
    }
  }

  /** One more message moves a controller slot by its own update, if it is one. */
  lemma SlotStep(slot: Option<Controllers.Latched>, messages: seq<SimulatorMessage>, i: nat, partner: bool)
    requires i < |messages|
    ensures SlotAfter(slot, messages[..i + 1], partner) ==
      var before := SlotAfter(slot, messages[..i], partner);
      var m := messages[i];
      if m.ControllerUpdate? then Controllers.UpdateSlot(before, if partner then m.partner else m.master) else before
  {
    assert messages[..i + 1][..i] == messages[..i];
  }

  /** One turn of the message loop keeps both controller slots in step with `SlotAfter`. */
  lemma ControllersTurn(
    master0: Option<Controllers.Latched>, partner0: Option<Controllers.Latched>,
    messages: seq<SimulatorMessage>, i: nat,
    masterBefore: Option<Controllers.Latched>, partnerBefore: Option<Controllers.Latched>,
    masterAfter: Option<Controllers.Latched>, partnerAfter: Option<Controllers.Latched>)
    requires i < |messages|
    requires masterBefore == SlotAfter(master0, messages[..i], false)
    requires partnerBefore == SlotAfter(partner0, messages[..i], true)
    requires messages[i].ControllerUpdate? ==>
      masterAfter == Controllers.UpdateSlot(masterBefore, messages[i].master) &&
      partnerAfter == Controllers.UpdateSlot(partnerBefore, messages[i].partner)
    requires !messages[i].ControllerUpdate? ==> masterAfter == masterBefore && partnerAfter == partnerBefore
    ensures masterAfter == SlotAfter(master0, messages[..i + 1], false)
    ensures partnerAfter == SlotAfter(partner0, messages[..i + 1], true)
  {
    SlotStep(master0, messages, i, false);
    SlotStep(partner0, messages, i, true);
  }

  /** One more action moves the competition task by the outcome it records. */
  lemma TaskStep(task: Option<UserTask>, actions: seq<DaemonAction>, action: DaemonAction)
    ensures TaskAfter(task, OutcomesOf(actions + [action])) == TaskAfter(TaskAfter(task, OutcomesOf(actions)), ActionOutcome(action))
  {
    assert (actions + [action])[..|actions|] == actions;
    TaskAfterAppend(task, OutcomesOf(actions), ActionOutcome(action));
  }

  class Daemon {
    /** The phase of the last restart; `None` before the first. */
    var lastPhase: Option<CompetitionPhase>
    /** The entry point the competition task runs; `None` is `initialize`. */
    var competitionTask: Option<UserTask>
    const controllers: Controllers.Controllers

    /** `system_daemon_task` before its message loop: `initialize` is the competition task and no phase is known. */
    constructor (controllers: Controllers.Controllers)
      ensures lastPhase == None && competitionTask == None
      ensures this.controllers == controllers
    {
      lastPhase := None;
      competitionTask := None;
      this.controllers := controllers;
    }

    /**
     * One message: a controller update goes to the controllers; display
     * buttons are forwarded; a phase change is ignored or restarts the
     * competition task, deleting the previous one when it had not started
     * running (`previousReady`), and the phase is remembered.
     */
    method HandleMessage(message: SimulatorMessage, previousReady: bool) returns (action: DaemonAction)
      requires controllers.Valid()
      modifies this`lastPhase, this`competitionTask, controllers, controllers.master, controllers.partner
      ensures controllers.Valid()
      ensures controllers.master != old(controllers.master) ==> fresh(controllers.master)
      ensures controllers.partner != old(controllers.partner) ==> fresh(controllers.partner)
      ensures lastPhase == if message.PhaseChange? then Step(old(lastPhase), message.phase) else old(lastPhase)
      ensures ActionOutcome(action) ==
        if message.PhaseChange? then [PhaseChangeOutcome(old(lastPhase), message.phase)] else []
      ensures competitionTask == TaskAfter(old(competitionTask), ActionOutcome(action))
      ensures message.ControllerUpdate? ==>
        action == ControllersUpdated &&
        controllers.MasterView() == Controllers.UpdateSlot(old(controllers.MasterView()), message.master) &&
        controllers.PartnerView() == Controllers.UpdateSlot(old(controllers.PartnerView()), message.partner)
      ensures !message.ControllerUpdate? ==>
        controllers.master == old(controllers.master) && controllers.partner == old(controllers.partner) &&
        controllers.MasterView() == old(controllers.MasterView()) && controllers.PartnerView() == old(controllers.PartnerView())
      ensures message.LcdButtonsUpdate? ==> action == LcdButtonsForwarded(message.buttons)
      ensures message.PhaseChange? ==>
        match PhaseChangeOutcome(old(lastPhase), message.phase)
        case Ignored => action == PhaseIgnored
        case Restart(t) => action == Restarted(previousReady, t)
    {
      match message
      case ControllerUpdate(master, partner) =>
        controllers.Update(master, partner);
        action := ControllersUpdated;
      case LcdButtonsUpdate(buttons) =>
        action := LcdButtonsForwarded(buttons);
      case PhaseChange(phase) =>
        if lastPhase == Some(phase) {
          return PhaseIgnored;
        }
        if lastPhase.Some? && !lastPhase.value.enabled && !phase.enabled {
          return PhaseIgnored;
        }
        var task := ChooseUserTask(lastPhase, phase);
        competitionTask := Some(task);
        lastPhase := Some(phase);
        action := Restarted(previousReady, task);
    }

    /**
     * The inner `while let` loop: handle every queued message in order.
     * The phase changes among them lead to exactly the outcomes of
     * `Outcomes`, the phase remembered afterwards is `Recorded`, the
     * competition task is that of the last restart (`TaskAfter`), and each
     * controller slot has followed the controller updates in order.
     */
    method DrainMessages(messages: seq<SimulatorMessage>, ready: seq<bool>) returns (actions: seq<DaemonAction>)
      requires |ready| == |messages|
      requires controllers.Valid()
      modifies this`lastPhase, this`competitionTask, controllers, controllers.master, controllers.partner
      ensures controllers.Valid()
      ensures |actions| == |messages|
      ensures OutcomesOf(actions) == Outcomes(old(lastPhase), PhasesOf(messages))
      ensures lastPhase == Recorded(old(lastPhase), PhasesOf(messages))
      ensures competitionTask == TaskAfter(old(competitionTask), Outcomes(old(lastPhase), PhasesOf(messages)))
      ensures controllers.MasterView() == SlotAfter(old(controllers.MasterView()), messages, false)
      ensures controllers.PartnerView() == SlotAfter(old(controllers.PartnerView()), messages, true)
    {
      ghost var phase0, task0 := lastPhase, competitionTask;
      ghost var master0, partner0 := controllers.MasterView(), controllers.PartnerView();
      actions := [];
      for i := 0 to |messages|
        invariant controllers.Valid()
        invariant controllers.master != old(controllers.master) ==> fresh(controllers.master)
        invariant controllers.partner != old(controllers.partner) ==> fresh(controllers.partner)
        invariant |actions| == i
        invariant OutcomesOf(actions) == Outcomes(phase0, PhasesOf(messages[..i]))
        invariant lastPhase == Recorded(phase0, PhasesOf(messages[..i]))
        invariant competitionTask == TaskAfter(task0, OutcomesOf(actions))
        invariant controllers.MasterView() == SlotAfter(master0, messages[..i], false)
        invariant controllers.PartnerView() == SlotAfter(partner0, messages[..i], true)
      {
        ghost var before := lastPhase;
        ghost var masterBefore, partnerBefore := controllers.MasterView(), controllers.PartnerView();
        var action := HandleMessage(messages[i], ready[i]);
        DrainStep(phase0, messages, i, actions, action, before, lastPhase);
        TaskStep(task0, actions, action);
        ControllersTurn(master0, partner0, messages, i, masterBefore, partnerBefore,
          controllers.MasterView(), controllers.PartnerView());
        actions := actions + [action];
      }
      assert messages[..|messages|] == messages;
    }
  }
}
