/**
 * The display of the original single-crate simulator: the same checks as
 * the packaged one, a wider line (50 bytes), and a terminal rendering in
 * place of published events.
 */
module LegacyLcd {
  import opened Common
  import PackagedLcd = Lcd

  const HEIGHT: u32 := 8
  const WIDTH: u32 := 50

  datatype AlreadyInitializedError = AlreadyInitializedError

  /** `assert_line_in_bounds`: `EINVAL` outside `0..HEIGHT`. */
  function AssertLineInBounds(line: i32): (r: Result<(), i32>)
    ensures r.Ok? <==> 0 <= line < HEIGHT as int
    ensures r.Err? ==> r.error == EINVAL
  {
    if line < 0 || line >= HEIGHT as int then Err(EINVAL) else Ok(())
  }

  /** `assert_text_length_in_bounds`: `EINVAL` for more than `WIDTH` bytes. */
  function AssertTextLengthInBounds(text: Bytes): (r: Result<(), i32>)
    ensures r.Ok? <==> |text| <= WIDTH as int
    ensures r.Err? ==> r.error == EINVAL
  {
    if |text| > WIDTH as int then Err(EINVAL) else Ok(())
  }

  class Lcd {
    var initialized: bool
    const lines: array<Bytes>

    /** `HEIGHT` lines of at most `WIDTH` bytes, blank until initialisation. */
    ghost predicate Valid()
      reads this, lines
    {
      lines.Length == HEIGHT as int &&
      (forall i :: 0 <= i < lines.Length ==> |lines[i]| <= WIDTH as int) &&
      (!initialized ==> forall i :: 0 <= i < lines.Length ==> lines[i] == [])
    }

    /** `Default::default()`: not initialised, every line empty. */
    constructor ()
      ensures Valid() && !initialized
      ensures forall i :: 0 <= i < lines.Length ==> lines[i] == []
      ensures fresh(lines)
    {
      initialized := false;
      lines := new Bytes[HEIGHT](_ => []);
    }

    /** `is_initialized`. */
    function IsInitialized(): (b: bool)
      reads this
      ensures b <==> PackagedLcd.AssertInitialized(initialized).Ok?
    {
      initialized
    }

    /** `initialize`: succeeds exactly once. */
    method Initialize() returns (r: Result<(), AlreadyInitializedError>)
      requires Valid()
      modifies this`initialized
      ensures Valid() && initialized
      ensures r.Err? <==> old(initialized)
    {
      if initialized {
        return Err(AlreadyInitializedError);
      }
      initialized := true;
      r := Ok(());
    }

    /** `set_line`: first failing check wins and changes nothing; else the line is replaced. */
    method SetLine(line: i32, text: Bytes) returns (r: Result<(), i32>)
      requires Valid()
      modifies lines
      ensures Valid()
      ensures !initialized ==> r == Err(ENXIO)
      ensures initialized && !(0 <= line < HEIGHT as int) ==> r == Err(EINVAL)
      ensures initialized && 0 <= line < HEIGHT as int && |text| > WIDTH as int ==> r == Err(EINVAL)
      ensures r.Ok? <==> initialized && 0 <= line < HEIGHT as int && |text| <= WIDTH as int
      ensures r.Ok? ==> lines[..] == old(lines[..])[line := text]
      ensures r.Err? ==> lines[..] == old(lines[..])
    {
      r := PackagedLcd.AssertInitialized(initialized);
      if r.Err? { return; }
      r := AssertLineInBounds(line);
      if r.Err? { return; }
      r := AssertTextLengthInBounds(text);
      if r.Err? { return; }
      lines[line] := text;
    }

    /** `clear`: every line in `0..HEIGHT` becomes empty; `ENXIO` before initialisation. */
    method Clear() returns (r: Result<(), i32>)
      requires Valid()
      modifies lines
      ensures Valid()
      ensures r.Ok? <==> initialized
      ensures r.Err? ==> r.error == ENXIO && lines[..] == old(lines[..])
      ensures forall i :: 0 <= i < lines.Length ==> lines[i] == []
    {
      r := PackagedLcd.AssertInitialized(initialized);
      if r.Err? { return; }
      for line := 0 to HEIGHT
        invariant forall j :: 0 <= j < line ==> lines[j] == []
        invariant forall j :: line <= j < lines.Length ==> lines[j] == old(lines[j])
      {
        lines[line] := [];
      }
    }

    /** `clear_line`: the line becomes empty once initialised and in range. */
    method ClearLine(line: i32) returns (r: Result<(), i32>)
      requires Valid()
      modifies lines
      ensures Valid()
      ensures r.Ok? <==> initialized && 0 <= line < HEIGHT as int
      ensures r.Err? ==> r.error == (if initialized then EINVAL else ENXIO)
      ensures r.Ok? ==> lines[..] == old(lines[..])[line := []]
      ensures r.Err? ==> lines[..] == old(lines[..])
    {
      r := PackagedLcd.AssertInitialized(initialized);
      if r.Err? { return; }
      r := AssertLineInBounds(line);
      if r.Err? { return; }
      lines[line] := [];
    }
  }
}
