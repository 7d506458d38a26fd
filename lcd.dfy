/**
 * The simulated LLEMU display: eight lines of text that the robot code may
 * write once it has initialised the display. Every change is published to
 * the frontends as a full snapshot of the lines.
 */
module Lcd {
  import opened Common
  import opened Interface

  datatype AlreadyInitializedError = AlreadyInitializedError

  /** `assert_initialized`: `ENXIO` until the display has been initialised. */
  function AssertInitialized(initialized: bool): (r: Result<(), i32>)
    ensures r.Ok? <==> initialized
    ensures r.Err? ==> r.error == ENXIO
  {
    if !initialized then Err(ENXIO) else Ok(())
  }

  /** `assert_line_in_bounds`: `EINVAL` for a line number outside `0..LCD_HEIGHT`. */
  function AssertLineInBounds(line: i32): (r: Result<(), i32>)
    ensures r.Ok? <==> 0 <= line < LCD_HEIGHT as int
    ensures r.Err? ==> r.error == EINVAL
  {
    if line < 0 || line >= LCD_HEIGHT as int then Err(EINVAL) else Ok(())
  }

  /** `assert_text_length_in_bounds`: `EINVAL` for text longer than `LCD_WIDTH` bytes. */
  function AssertTextLengthInBounds(text: Bytes): (r: Result<(), i32>)
    ensures r.Ok? <==> |text| <= LCD_WIDTH as int
    ensures r.Err? ==> r.error == EINVAL
  {
    if |text| > LCD_WIDTH as int then Err(EINVAL) else Ok(())
  }

  class Lcd {
    const lines: array<Bytes>
    var initialized: bool
    const interface: SimulatorInterface

    /**
     * The display has `LCD_HEIGHT` lines, none longer than `LCD_WIDTH`
     * bytes, and all of them stay blank until the display is initialised.
     */
    ghost predicate Valid()
      reads this, lines
    {
      lines.Length == LCD_HEIGHT as int &&
      (forall i :: 0 <= i < lines.Length ==> |lines[i]| <= LCD_WIDTH as int) &&
      (!initialized ==> forall i :: 0 <= i < lines.Length ==> lines[i] == [])
    }

    /** The current contents, as a frontend sees them in `LcdUpdated`. */
    function Lines(): LcdLines
      requires Valid()
      reads this, lines
    {
      lines[..]
    }

    /** `Lcd::new`: blank and not initialised, publishing nothing. */
    constructor (interface: SimulatorInterface)
      ensures Valid() && !initialized
      ensures Lines() == BlankLines()
      ensures this.interface == interface && fresh(lines)
    {
      lines := new Bytes[LCD_HEIGHT](_ => []);
      initialized := false;
      this.interface := interface;
    }

    /** `initialize`: succeeds once, announcing `LcdInitialized`; afterwards it fails and sends nothing. */
    method Initialize() returns (r: Result<(), AlreadyInitializedError>)
      requires Valid()
      modifies this`initialized, interface
      ensures Valid() && initialized
      ensures r.Err? <==> old(initialized)
      ensures interface.sent ==
        if old(initialized) then old(interface.sent) else old(interface.sent) + [LcdInitialized]
    {
      if initialized {
        return Err(AlreadyInitializedError);
      }
      initialized := true;
      interface.Send(LcdInitialized);
      r := Ok(());
    }

    /**
     * `set_line`: the checks run in order (initialised, line, length) and
     * the first failure is the result, changing nothing. On success the line
     * holds `text`, the others are untouched, and the new snapshot is sent.
     */
    method SetLine(line: i32, text: Bytes) returns (r: Result<(), i32>)
      requires Valid()
      modifies lines, interface
      ensures Valid()
      ensures !initialized ==> r == Err(ENXIO)
      ensures initialized && !(0 <= line < LCD_HEIGHT as int) ==> r == Err(EINVAL)
      ensures initialized && 0 <= line < LCD_HEIGHT as int && |text| > LCD_WIDTH as int ==> r == Err(EINVAL)
      ensures r.Ok? <==> initialized && 0 <= line < LCD_HEIGHT as int && |text| <= LCD_WIDTH as int
      ensures r.Ok? ==> Lines() == old(Lines())[line := text]
      ensures r.Ok? ==> interface.sent == old(interface.sent) + [LcdUpdated(Lines())]
      ensures r.Err? ==> Lines() == old(Lines()) && interface.sent == old(interface.sent)
    {
      r := AssertInitialized(initialized);
      if r.Err? { return; }
      r := AssertLineInBounds(line);
      if r.Err? { return; }
      r := AssertTextLengthInBounds(text);
      if r.Err? { return; }
      lines[line] := text;
      interface.Send(LcdUpdated(lines[..]));
    }

    /** `clear`: every line becomes empty and the blank snapshot is sent; `ENXIO` before initialisation. */
    method Clear() returns (r: Result<(), i32>)
      requires Valid()
      modifies lines, interface
      ensures Valid()
      ensures r.Ok? <==> initialized
      ensures r.Err? ==> r.error == ENXIO
      ensures r.Ok? ==> Lines() == BlankLines()
      ensures r.Ok? ==> interface.sent == old(interface.sent) + [LcdUpdated(BlankLines())]
      ensures r.Err? ==> Lines() == old(Lines()) && interface.sent == old(interface.sent)
    {
      r := AssertInitialized(initialized);
      if r.Err? { return; }
      for i := 0 to lines.Length
        invariant forall j :: 0 <= j < i ==> lines[j] == []
        invariant forall j :: i <= j < lines.Length ==> lines[j] == old(lines[j])
        invariant interface.sent == old(interface.sent)
      {
        lines[i] := [];
      }
      assert lines[..] == BlankLines();
      interface.Send(LcdUpdated(lines[..]));
    }

    /** `clear_line`: like `set_line` with empty text, so without the length check. */
    method ClearLine(line: i32) returns (r: Result<(), i32>)
      requires Valid()
      modifies lines, interface
      ensures Valid()
      ensures !initialized ==> r == Err(ENXIO)
      ensures r.Ok? <==> initialized && 0 <= line < LCD_HEIGHT as int
      ensures r.Err? ==> r.error == (if initialized then EINVAL else ENXIO)
      ensures r.Ok? ==> Lines() == old(Lines())[line := []]
      ensures r.Ok? ==> interface.sent == old(interface.sent) + [LcdUpdated(Lines())]
      ensures r.Err? ==> Lines() == old(Lines()) && interface.sent == old(interface.sent)
    {
      r := AssertInitialized(initialized);
      if r.Err? { return; }
      r := AssertLineInBounds(line);
      if r.Err? { return; }
      lines[line] := [];
      interface.Send(LcdUpdated(lines[..]));
    }
  }
}
