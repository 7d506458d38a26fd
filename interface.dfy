/**
 * The types shared between the simulator and its frontends: the LCD
 * geometry, controller snapshots, competition phases, the events the
 * simulator emits and the messages it accepts.
 */
module Interface {
  import opened Common

  const LCD_HEIGHT: u32 := 8
  const LCD_WIDTH: u32 := 40

  /** `[String; LCD_HEIGHT]`: exactly one byte string per display line. */
  type LcdLines = s: seq<Bytes> | |s| == LCD_HEIGHT as int witness seq(8, _ => [])

  /** The snapshot of a display whose lines are all empty (`Default::default()`). */
  function BlankLines(): (r: LcdLines)
    ensures forall i :: 0 <= i < |r| ==> r[i] == []
  {
    seq(LCD_HEIGHT, _ => [])
  }

  const DIGITAL_BUTTON_COUNT: nat := 12

  /** The twelve buttons of a controller, in declaration order. */
  datatype DigitalControllerState = DigitalControllerState(
    l1: bool, l2: bool, r1: bool, r2: bool,
    up: bool, down: bool, left: bool, right: bool,
    x: bool, b: bool, y: bool, a: bool)
  {
    /** The buttons as a sequence, `l1` first and `a` last. */
    function Buttons(): (s: seq<bool>)
    {
      [l1, l2, r1, r2, up, down, left, right, x, b, y, a]
    }

    static function FromButtons(s: seq<bool>): (r: DigitalControllerState)
      requires |s| == DIGITAL_BUTTON_COUNT
      ensures r.Buttons() == s
    {
      DigitalControllerState(s[0], s[1], s[2], s[3], s[4], s[5], s[6], s[7], s[8], s[9], s[10], s[11])
    }

    /** A copy of this state with button `k` (in `Buttons()` order) set to `v`. */
    function With(k: nat, v: bool): (r: DigitalControllerState)
      requires k < DIGITAL_BUTTON_COUNT
      ensures r.Buttons() == Buttons()[k := v]
    {
      FromButtons(Buttons()[k := v])
    }
  }

  /** The sequence view is a faithful encoding: exactly twelve flags, one per field. */
  lemma ButtonsRoundTrip(d: DigitalControllerState)
    ensures |d.Buttons()| == DIGITAL_BUTTON_COUNT
    ensures DigitalControllerState.FromButtons(d.Buttons()) == d
  {
  }

  /** The four joystick axes. */
  datatype AnalogControllerState = AnalogControllerState(leftX: i8, leftY: i8, rightX: i8, rightY: i8)
  {
    /** The axes as a sequence: left x, left y, right x, right y. */
    function Axes(): seq<i8>
    {
      [leftX, leftY, rightX, rightY]
    }
  }

  datatype ControllerState = ControllerState(digital: DigitalControllerState, analog: AnalogControllerState)

  /** The field competition status the daemon and the `competition_*` calls read. */
  datatype CompetitionPhase = CompetitionPhase(autonomous: bool, enabled: bool, isCompetition: bool)

  datatype MotorBrakeMode = Coast | Brake | Hold
  datatype MotorEncoderUnits = Degrees | Rotations | Counts

  /** Something that happened inside the simulator that a frontend may observe. */
  datatype SimulatorEvent =
    | Warning(message: string)
    | ConsoleMessage(text: string)
    | RobotCodeLoading
    | RobotCodeStarting
    | RobotCodeFinished
    | RobotCodeError(message: string, backtrace: string)
    | LcdInitialized
    | LcdUpdated(lines: LcdLines)
    | LcdColorsUpdated(foreground: u32, background: u32)
    | LcdShutdown
    | MotorUpdated(port: u32, brakeMode: MotorBrakeMode, encoderUnits: MotorEncoderUnits, volts: i8)

  /** The state of the three LCD buttons, left to right. */
  type LcdButtons = s: seq<bool> | |s| == 3 witness [false, false, false]

  /** A stimulus a frontend sends to the simulator. */
  datatype SimulatorMessage =
    | ControllerUpdate(master: Option<ControllerState>, partner: Option<ControllerState>)
    | LcdButtonsUpdate(buttons: LcdButtons)
    | PhaseChange(phase: CompetitionPhase)

  /**
   * The outbound event channel. Every component holds a clone of the same
   * sender; `sent` is everything that went through it, oldest first.
   */
  class SimulatorInterface {
    ghost var sent: seq<SimulatorEvent>

    constructor ()
      ensures sent == []
    {
      sent := [];
    }

    method Send(event: SimulatorEvent)
      modifies this
      ensures sent == old(sent) + [event]
    {
      sent := sent + [event];
    }
  }
}
