/**
 * The master and partner controllers as the simulator keeps them: the last
 * snapshot a frontend sent, plus a "new press" flag per button that latches
 * every rising edge until the robot code reads it.
 */
module Controllers {
  import opened Common
  import opened Interface

  // Controller and channel numbers of the PROS C API.
  const E_CONTROLLER_MASTER: u32 := 0
  const E_CONTROLLER_PARTNER: u32 := 1

  const E_CONTROLLER_ANALOG_LEFT_X: u32 := 0
  const E_CONTROLLER_ANALOG_LEFT_Y: u32 := 1
  const E_CONTROLLER_ANALOG_RIGHT_X: u32 := 2
  const E_CONTROLLER_ANALOG_RIGHT_Y: u32 := 3

  const E_CONTROLLER_DIGITAL_L1: u32 := 6
  const E_CONTROLLER_DIGITAL_L2: u32 := 7
  const E_CONTROLLER_DIGITAL_R1: u32 := 8
  const E_CONTROLLER_DIGITAL_R2: u32 := 9
  const E_CONTROLLER_DIGITAL_UP: u32 := 10
  const E_CONTROLLER_DIGITAL_DOWN: u32 := 11
  const E_CONTROLLER_DIGITAL_LEFT: u32 := 12
  const E_CONTROLLER_DIGITAL_RIGHT: u32 := 13
  const E_CONTROLLER_DIGITAL_X: u32 := 14
  const E_CONTROLLER_DIGITAL_B: u32 := 15
  const E_CONTROLLER_DIGITAL_Y: u32 := 16
  const E_CONTROLLER_DIGITAL_A: u32 := 17

  /** The `match channel` of `get_analog`: the named axis, or nothing for an unknown channel. */
  function AnalogField(s: AnalogControllerState, channel: u32): (r: Option<i8>)
    ensures r.Some? <==> channel <= E_CONTROLLER_ANALOG_RIGHT_Y
    ensures r.Some? ==> r.value == s.Axes()[channel]
  {
    if channel == E_CONTROLLER_ANALOG_LEFT_X then Some(s.leftX)
    else if channel == E_CONTROLLER_ANALOG_LEFT_Y then Some(s.leftY)
    else if channel == E_CONTROLLER_ANALOG_RIGHT_X then Some(s.rightX)
    else if channel == E_CONTROLLER_ANALOG_RIGHT_Y then Some(s.rightY)
    else None
  }

  /** The `match button` of `get_digital`: the named button, or nothing for an unknown id. */
  function DigitalField(d: DigitalControllerState, button: u32): (r: Option<bool>)
    ensures r.Some? <==> E_CONTROLLER_DIGITAL_L1 <= button <= E_CONTROLLER_DIGITAL_A
  {
    if button == E_CONTROLLER_DIGITAL_L1 then Some(d.l1)
    else if button == E_CONTROLLER_DIGITAL_L2 then Some(d.l2)
    else if button == E_CONTROLLER_DIGITAL_R1 then Some(d.r1)
    else if button == E_CONTROLLER_DIGITAL_R2 then Some(d.r2)
    else if button == E_CONTROLLER_DIGITAL_UP then Some(d.up)
    else if button == E_CONTROLLER_DIGITAL_DOWN then Some(d.down)
    else if button == E_CONTROLLER_DIGITAL_LEFT then Some(d.left)
    else if button == E_CONTROLLER_DIGITAL_RIGHT then Some(d.right)
    else if button == E_CONTROLLER_DIGITAL_X then Some(d.x)
    else if button == E_CONTROLLER_DIGITAL_B then Some(d.b)
    else if button == E_CONTROLLER_DIGITAL_Y then Some(d.y)
    else if button == E_CONTROLLER_DIGITAL_A then Some(d.a)
    else None
  }

  /** Button id `L1 + k` reads the `k`-th button of `Buttons()`, so ids and sequence positions agree. */
  lemma DigitalFieldIsButton(d: DigitalControllerState, button: u32)
    ensures E_CONTROLLER_DIGITAL_L1 <= button <= E_CONTROLLER_DIGITAL_A ==>
      DigitalField(d, button) == Some(d.Buttons()[button - E_CONTROLLER_DIGITAL_L1])
  {
    if E_CONTROLLER_DIGITAL_L1 <= button < E_CONTROLLER_DIGITAL_UP {
      ShoulderButtons(d, button);
    } else if E_CONTROLLER_DIGITAL_UP <= button < E_CONTROLLER_DIGITAL_X {
      DirectionButtons(d, button);
    } else if E_CONTROLLER_DIGITAL_X <= button <= E_CONTROLLER_DIGITAL_A {
      FaceButtons(d, button);
    }
  }

  /** `DigitalFieldIsButton` for the shoulder buttons `L1`, `L2`, `R1`, `R2`. */
  lemma ShoulderButtons(d: DigitalControllerState, button: u32)
    requires E_CONTROLLER_DIGITAL_L1 <= button <= E_CONTROLLER_DIGITAL_R2
    ensures DigitalField(d, button) == Some(d.Buttons()[button - E_CONTROLLER_DIGITAL_L1])
  {
  }

  /** `DigitalFieldIsButton` for the direction pad. */
  lemma DirectionButtons(d: DigitalControllerState, button: u32)
    requires E_CONTROLLER_DIGITAL_UP <= button <= E_CONTROLLER_DIGITAL_RIGHT
    ensures DigitalField(d, button) == Some(d.Buttons()[button - E_CONTROLLER_DIGITAL_L1])
  {
  }

  /** `DigitalFieldIsButton` for the face buttons `X`, `B`, `Y`, `A`. */
  lemma FaceButtons(d: DigitalControllerState, button: u32)
    requires E_CONTROLLER_DIGITAL_X <= button <= E_CONTROLLER_DIGITAL_A
    ensures DigitalField(d, button) == Some(d.Buttons()[button - E_CONTROLLER_DIGITAL_L1])
  {
  }

  /**
   * The flags `Controller::update` stores: a button is flagged when it is
   * pressed now and was not pressed before, or when it was already flagged.
   */
  function Latch(prev: DigitalControllerState, next: DigitalControllerState, latched: DigitalControllerState)
    : (r: DigitalControllerState)
    ensures forall k :: 0 <= k < DIGITAL_BUTTON_COUNT ==>
      r.Buttons()[k] == ((next.Buttons()[k] && !prev.Buttons()[k]) || latched.Buttons()[k])
  {
    DigitalControllerState.FromButtons(
      seq(DIGITAL_BUTTON_COUNT, k requires 0 <= k < DIGITAL_BUTTON_COUNT =>
        (next.Buttons()[k] && !prev.Buttons()[k]) || latched.Buttons()[k]))
  }

  /** The value of a connected controller. */
  datatype Latched = Latched(state: ControllerState, newPresses: DigitalControllerState)

  /** `Controller::from`: a fresh controller reports every held button as newly pressed. */
  function Connect(s: ControllerState): (r: Latched)
    ensures r.state == s
    ensures forall k :: 0 <= k < DIGITAL_BUTTON_COUNT ==> r.newPresses.Buttons()[k] == s.digital.Buttons()[k]
  {
    Latched(s, s.digital)
  }

  /** What `Controllers::update` does to one controller slot. */
  function UpdateSlot(current: Option<Latched>, update: Option<ControllerState>): (r: Option<Latched>)
    ensures update.None? ==> r == current
    ensures update.Some? ==> r.Some? && r.value.state == update.value
    ensures update.Some? && current.None? ==> r == Some(Connect(update.value))
  {
    match update
    case None => current
    case Some(s) =>
      match current
      case None => Some(Connect(s))
      case Some(c) => Some(Latched(s, Latch(c.state.digital, s.digital, c.newPresses)))
  }

  /** The flags after feeding `updates`, in order, to a controller that held `state` and `flags`. */
  function FlagsAfter(state: ControllerState, flags: DigitalControllerState, updates: seq<ControllerState>)
    : DigitalControllerState
    decreases |updates|
  {
    if updates == [] then flags
    else FlagsAfter(updates[0], Latch(state.digital, updates[0].digital, flags), updates[1..])
  }

  /** The history of button `k` across `updates`. */
  function Column(updates: seq<ControllerState>, k: nat): (c: seq<bool>)
    requires k < DIGITAL_BUTTON_COUNT
    ensures |c| == |updates|
    ensures forall i :: 0 <= i < |updates| ==> c[i] == updates[i].digital.Buttons()[k]
  {
    seq(|updates|, i requires 0 <= i < |updates| => updates[i].digital.Buttons()[k])
  }

  /** One button's flag after a run of presses, starting from `prev` and `flag`. */
  function FlagAfter(prev: bool, flag: bool, presses: seq<bool>): bool
    decreases |presses|
  {
    if presses == [] then flag
    else FlagAfter(presses[0], (presses[0] && !prev) || flag, presses[1..])
  }

  /** The button is pressed at step `i` and was released just before it. */
  ghost predicate RisesAt(prev: bool, presses: seq<bool>, i: nat)
    requires i < |presses|
  {
    presses[i] && !(if i == 0 then prev else presses[i - 1])
  }

  /** The per-button fold: the flag ends up set iff it started set or there was a rising edge. */
  lemma {:induction false} FlagAfterIffRise(prev: bool, flag: bool, presses: seq<bool>)
    ensures FlagAfter(prev, flag, presses) <==>
      flag || exists i :: 0 <= i < |presses| && RisesAt(prev, presses, i)
    decreases |presses|
  {
    if presses != [] {
      var flag' := (presses[0] && !prev) || flag;
      var rest := presses[1..];
      FlagAfterIffRise(presses[0], flag', rest);
      forall i | 0 <= i < |rest|
        ensures RisesAt(presses[0], rest, i) <==> RisesAt(prev, presses, i + 1)
      {
      }
      if FlagAfter(prev, flag, presses) {
        if !flag' {
          var i :| 0 <= i < |rest| && RisesAt(presses[0], rest, i);
          assert RisesAt(prev, presses, i + 1);
        } else if !flag {
          assert RisesAt(prev, presses, 0);
        }
      }
      if flag || exists i :: 0 <= i < |presses| && RisesAt(prev, presses, i) {
        if !flag' {
          var i :| 0 <= i < |presses| && RisesAt(prev, presses, i);
          assert RisesAt(presses[0], rest, i - 1);
        }
      }
    }
  }

  /** Each button's flag evolves on its own: `FlagsAfter` is `FlagAfter` button by button. */
  lemma {:induction false} FlagsAfterByButton(
    state: ControllerState, flags: DigitalControllerState, updates: seq<ControllerState>, k: nat)
    requires k < DIGITAL_BUTTON_COUNT
    ensures FlagsAfter(state, flags, updates).Buttons()[k] ==
      FlagAfter(state.digital.Buttons()[k], flags.Buttons()[k], Column(updates, k))
    decreases |updates|
  {
    if updates != [] {
      var flags' := Latch(state.digital, updates[0].digital, flags);
      FlagsAfterByButton(updates[0], flags', updates[1..], k);
      assert Column(updates[1..], k) == Column(updates, k)[1..];
    }
  }

  /**
   * After any run of updates, a button's flag is set exactly when it was set
   * to begin with or the button went from released to pressed somewhere in
   * the run. In particular updates never clear a flag.
   */
  lemma FlagsAfterIffRisingEdge(
    state: ControllerState, flags: DigitalControllerState, updates: seq<ControllerState>, k: nat)
    requires k < DIGITAL_BUTTON_COUNT
    ensures FlagsAfter(state, flags, updates).Buttons()[k] <==>
      flags.Buttons()[k] ||
      exists i :: 0 <= i < |updates| && RisesAt(state.digital.Buttons()[k], Column(updates, k), i)
  {
    FlagsAfterByButton(state, flags, updates, k);
    FlagAfterIffRise(state.digital.Buttons()[k], flags.Buttons()[k], Column(updates, k));
  }

  /** A connected controller, updated in place by the simulator. */
  class Controller {
    var state: ControllerState
    var newPresses: DigitalControllerState

    function View(): Latched
      reads this
    {
      Latched(state, newPresses)
    }

    /** `From<ControllerState>`. */
    constructor FromState(s: ControllerState)
      ensures View() == Connect(s)
    {
      state := s;
      newPresses := s.digital;
    }

    /** `Controller::update`: latch the rising edges, then store the new snapshot. */
    method Update(next: ControllerState)
      modifies this
      ensures View() == Latched(next, Latch(old(state).digital, next.digital, old(newPresses)))
    {
      newPresses := Latch(state.digital, next.digital, newPresses);
      state := next;
    }

    /** `mem::replace(field, false)` on one new-press flag. */
    method TakeNewPress(k: nat) returns (was: bool)
      requires k < DIGITAL_BUTTON_COUNT
      modifies this`newPresses
      ensures was == old(newPresses).Buttons()[k]
      ensures newPresses == old(newPresses).With(k, false)
    {
      was := newPresses.Buttons()[k];
      newPresses := newPresses.With(k, false);
    }
  }

  function ViewOf(c: Controller?): Option<Latched>
    reads c
  {
    if c == null then None else Some(c.View())
  }

  /** The flag `get_digital_new_press` reports, given the controller it resolved. */
  function NewPressOf(slot: Result<Option<Latched>, i32>, button: u32): Result<bool, i32>
  {
    match slot
    case Err(e) => Err(e)
    case Ok(None) => Ok(false)
    case Ok(Some(c)) =>
      match DigitalField(c.newPresses, button)
      case None => Err(EINVAL)
      case Some(v) => Ok(v)
  }

  /** The controller value after `get_digital_new_press` read its flag. */
  function Consume(c: Option<Latched>, button: u32): (r: Option<Latched>)
  {
    match c
    case Some(l) =>
      if E_CONTROLLER_DIGITAL_L1 <= button <= E_CONTROLLER_DIGITAL_A
      then Some(l.(newPresses := l.newPresses.With(button - E_CONTROLLER_DIGITAL_L1, false)))
      else c
    case None => c
  }

  /**
   * Reading a new press consumes it: right after a read, the same button
   * reports no new press (or the same error), whatever the first read said;
   * the snapshot is never touched.
   */
  lemma NewPressReportedOnce(c: Option<Latched>, button: u32)
    ensures NewPressOf(Ok(Consume(c, button)), button) ==
      (if NewPressOf(Ok(c), button).Err? then NewPressOf(Ok(c), button) else Ok(false))
    ensures Consume(c, button).Some? <==> c.Some?
    ensures c.Some? ==> Consume(c, button).value.state == c.value.state
  {
  }

  /** The master and partner controllers; `null` is a disconnected one. */
  class Controllers {
    var master: Controller?
    var partner: Controller?

    ghost predicate Valid()
      reads this
    {
      master == null || master != partner
    }

    function MasterView(): Option<Latched>
      reads this, master
    {
      ViewOf(master)
    }

    function PartnerView(): Option<Latched>
      reads this, master, partner
    {
      ViewOf(partner)
    }

    /** `Controllers::new`. */
    constructor (initialMaster: Option<ControllerState>, initialPartner: Option<ControllerState>)
      ensures Valid()
      ensures MasterView() == UpdateSlot(None, initialMaster)
      ensures PartnerView() == UpdateSlot(None, initialPartner)
      ensures master != null ==> fresh(master)
      ensures partner != null ==> fresh(partner)
    {
      var m: Controller? := null;
      var p: Controller? := null;
      if initialMaster.Some? {
        m := new Controller.FromState(initialMaster.value);
      }
      if initialPartner.Some? {
        p := new Controller.FromState(initialPartner.value);
      }
      master, partner := m, p;
    }

    /**
     * `Controllers::update`: an absent update leaves that controller as it
     * is (a connected one stays connected); a present one updates it in
     * place, or connects it when it was disconnected.
     */
    method Update(newMaster: Option<ControllerState>, newPartner: Option<ControllerState>)
      requires Valid()
      modifies this, master, partner
      ensures Valid()
      ensures MasterView() == UpdateSlot(old(MasterView()), newMaster)
      ensures PartnerView() == UpdateSlot(old(PartnerView()), newPartner)
      ensures old(master) != null ==> master == old(master)
      ensures old(partner) != null ==> partner == old(partner)
      ensures old(master) == null && master != null ==> fresh(master)
      ensures old(partner) == null && partner != null ==> fresh(partner)
    {
      if newMaster.Some? {
        if master != null {
          master.Update(newMaster.value);
        } else {
          master := new Controller.FromState(newMaster.value);
        }
      }
      if newPartner.Some? {
        if partner != null {
          partner.Update(newPartner.value);
        } else {
          partner := new Controller.FromState(newPartner.value);
        }
      }
    }

    /** `get_controller_state`: the controller an id names, `None` when disconnected. */
    function ControllerFor(id: u32): (r: Result<Option<Latched>, i32>)
      reads this, master, partner
      ensures r.Err? <==> id != E_CONTROLLER_MASTER && id != E_CONTROLLER_PARTNER
      ensures r.Err? ==> r.error == EINVAL
    {
      if id == E_CONTROLLER_MASTER then Ok(MasterView())
      else if id == E_CONTROLLER_PARTNER then Ok(PartnerView())
      else Err(EINVAL)
    }

    /** `is_connected`. */
    function IsConnected(id: u32): (r: Result<bool, i32>)
      reads this
      ensures r.Err? <==> id != E_CONTROLLER_MASTER && id != E_CONTROLLER_PARTNER
      ensures r.Err? ==> r.error == EINVAL
      ensures id == E_CONTROLLER_MASTER ==> r == Ok(master != null)
      ensures id == E_CONTROLLER_PARTNER ==> r == Ok(partner != null)
    {
      if id == E_CONTROLLER_MASTER then Ok(master != null)
      else if id == E_CONTROLLER_PARTNER then Ok(partner != null)
      else Err(EINVAL)
    }

    /**
     * `get_analog`: `EINVAL` for an unknown controller; 0 on every channel of
     * a disconnected one; `EINVAL` for an unknown channel; else the axis.
     */
    function GetAnalog(id: u32, channel: u32): (r: Result<int, i32>)
      reads this, master, partner
      ensures ControllerFor(id).Err? ==> r == Err(EINVAL)
      ensures ControllerFor(id) == Ok(None) ==> r == Ok(0)
      ensures ControllerFor(id).Ok? && ControllerFor(id).value.Some? ==>
        var axes := ControllerFor(id).value.value.state.analog.Axes();
        (channel < |axes| ==> r == Ok(axes[channel] as int)) && (channel >= |axes| ==> r == Err(EINVAL))
      ensures r.Ok? ==> -128 <= r.value < 128
    {
      match ControllerFor(id)
      case Err(e) => Err(e)
      case Ok(None) => Ok(0)
      case Ok(Some(c)) =>
        match AnalogField(c.state.analog, channel)
        case None => Err(EINVAL)
        case Some(v) => Ok(v as int)
    }

    /** `get_digital`: as `get_analog`, with `false` for a disconnected controller. */
    function GetDigital(id: u32, button: u32): (r: Result<bool, i32>)
      reads this, master, partner
      ensures ControllerFor(id).Err? ==> r == Err(EINVAL)
      ensures ControllerFor(id) == Ok(None) ==> r == Ok(false)
      ensures ControllerFor(id).Ok? && ControllerFor(id).value.Some? ==>
        var buttons := ControllerFor(id).value.value.state.digital.Buttons();
        (E_CONTROLLER_DIGITAL_L1 <= button <= E_CONTROLLER_DIGITAL_A ==>
          r == Ok(buttons[button - E_CONTROLLER_DIGITAL_L1])) &&
        (button < E_CONTROLLER_DIGITAL_L1 || E_CONTROLLER_DIGITAL_A < button ==> r == Err(EINVAL))
    {
      match ControllerFor(id)
      case Err(e) => Err(e)
      case Ok(None) => Ok(false)
      case Ok(Some(c)) =>
        DigitalFieldIsButton(c.state.digital, button);
        match DigitalField(c.state.digital, button)
        case None => Err(EINVAL)
        case Some(v) => Ok(v)
    }

    /**
     * `get_digital_new_press`: report the button's new-press flag and reset
     * it. Nothing else changes: not the snapshot, not the other flags, not
     * the other controller.
     */
    method GetDigitalNewPress(id: u32, button: u32) returns (r: Result<bool, i32>)
      requires Valid()
      modifies master, partner
      ensures r == NewPressOf(old(ControllerFor(id)), button)
      ensures MasterView() ==
        if id == E_CONTROLLER_MASTER then Consume(old(MasterView()), button) else old(MasterView())
      ensures PartnerView() ==
        if id == E_CONTROLLER_PARTNER then Consume(old(PartnerView()), button) else old(PartnerView())
    {
      var target: Controller?;
      if id == E_CONTROLLER_MASTER {
        target := master;
      } else if id == E_CONTROLLER_PARTNER {
        target := partner;
      } else {
        return Err(EINVAL);
      }
      if target == null {
        return Ok(false);
      }
      if !(E_CONTROLLER_DIGITAL_L1 <= button <= E_CONTROLLER_DIGITAL_A) {
        return Err(EINVAL);
      }
      ghost var before := target.View();
      DigitalFieldIsButton(target.newPresses, button);
      var was := target.TakeNewPress(button - E_CONTROLLER_DIGITAL_L1);
      assert Some(target.View()) == Consume(Some(before), button);
      r := Ok(was);
    }
  }

  /** Two reads of the same button in a row: the second one never reports a press. */
  method ReadNewPressTwice(c: Controllers, id: u32, button: u32) returns (first: Result<bool, i32>, second: Result<bool, i32>)
    requires c.Valid()
    modifies c.master, c.partner
    ensures second.Ok? ==> second.value == false
    ensures first.Err? <==> second.Err?
  {
    ghost var before := c.ControllerFor(id);
    first := c.GetDigitalNewPress(id, button);
    second := c.GetDigitalNewPress(id, button);
    if before.Ok? {
      NewPressReportedOnce(before.value, button);
    }
  }
}
