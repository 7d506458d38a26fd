/**
 * The LLEMU host functions: initialise the display, write, clear one line,
 * clear all. Each answers 1 on success and 0 on failure, and the display
 * errors reach the robot code through errno.
 */
module LlemuApi {
  import opened Common
  import opened Interface
  import opened Memory
  import opened HostState
  import Lcd

  /** `lcd_initialize`: 1 the first time, 0 afterwards; errno is never touched. */
  method LcdInitialize(host: Host) returns (r: u32)
    requires host.Valid()
    modifies host.lcd`initialized, host.interface
    ensures host.Valid() && host.lcd.initialized
    ensures r == 1 <==> !old(host.lcd.initialized)
    ensures r == 0 || r == 1
    ensures host.interface.sent ==
      if old(host.lcd.initialized) then old(host.interface.sent) else old(host.interface.sent) + [LcdInitialized]
  {
    var res := host.lcd.Initialize();
    r := BoolToInt(res.Ok?);
  }

  /**
   * `lcd_set_text`: read the NUL-terminated text at `textPtr` (a pointer
   * past the end of memory, or text with no terminator, traps the robot
   * code), then set the line. A display error answers 0 with the code in
   * errno.
   */
  method LcdSetText(host: Host, line: i32, textPtr: u32, allocation: u32) returns (r: Fatal<u32>)
    requires host.Valid()
    modifies host.memory, host.tasks.currentTask, host.lcd.lines, host.interface
    ensures host.Valid()
    ensures textPtr > host.memory.Length || 0 !in old(host.memory[textPtr..]) ==>
      r.Aborts? && host.lcd.Lines() == old(host.lcd.Lines()) && host.interface.sent == old(host.interface.sent)
    ensures textPtr <= host.memory.Length && FirstZero(old(host.memory[textPtr..])).Some? ==>
      var text := old(host.memory[textPtr..textPtr + FirstZero(host.memory[textPtr..]).value]);
      var ok := host.lcd.initialized && 0 <= line < LCD_HEIGHT as int && |text| <= LCD_WIDTH as int;
      (ok ==> (r == Returns(1) && host.lcd.Lines() == old(host.lcd.Lines())[line := text] &&
                host.interface.sent == old(host.interface.sent) + [LcdUpdated(host.lcd.Lines())] &&
                host.memory[..] == old(host.memory[..]))) &&
      (!ok ==> (host.lcd.Lines() == old(host.lcd.Lines()) && host.interface.sent == old(host.interface.sent) &&
                r == (if old(host.ErrnoSettable(allocation)) then Returns(0) else Aborts) &&
                (r.Returns? ==> host.ErrnoReported(old(host.memory[..]), if host.lcd.initialized then EINVAL else ENXIO))))
    ensures host.tasks.currentTask != null ==>
      host.TaskKept(old(host.tasks.currentTask.localStorage), old(host.tasks.currentTask.isFinished))
  {
    var text := ReadCStr(host.memory, textPtr);
    if text.Aborts? || text.value.Err? {
      return Aborts;
    }
    var res := host.lcd.SetLine(line, text.value.value);
    var ok := host.UnwrapOrErrno(res, allocation);
    r := match ok case Aborts => Aborts case Returns(b) => Returns(BoolToInt(b));
  }

  /** `lcd_clear_line`: blank one line; 1 on success, else 0 with the code in errno. */
  method LcdClearLine(host: Host, line: i32, allocation: u32) returns (r: Fatal<u32>)
    requires host.Valid()
    modifies host.memory, host.tasks.currentTask, host.lcd.lines, host.interface
    ensures host.Valid()
    ensures var ok := host.lcd.initialized && 0 <= line < LCD_HEIGHT as int;
      (ok ==> (r == Returns(1) && host.lcd.Lines() == old(host.lcd.Lines())[line := []] &&
                host.interface.sent == old(host.interface.sent) + [LcdUpdated(host.lcd.Lines())] &&
                host.memory[..] == old(host.memory[..]))) &&
      (!ok ==> (host.lcd.Lines() == old(host.lcd.Lines()) && host.interface.sent == old(host.interface.sent) &&
                r == (if old(host.ErrnoSettable(allocation)) then Returns(0) else Aborts) &&
                (r.Returns? ==> host.ErrnoReported(old(host.memory[..]), if host.lcd.initialized then EINVAL else ENXIO))))
    ensures host.tasks.currentTask != null ==>
      host.TaskKept(old(host.tasks.currentTask.localStorage), old(host.tasks.currentTask.isFinished))
  {
    var res := host.lcd.ClearLine(line);
    var ok := host.UnwrapOrErrno(res, allocation);
    r := match ok case Aborts => Aborts case Returns(b) => Returns(BoolToInt(b));
  }

  /** `lcd_clear`: blank every line; 1 on success, else 0 with `ENXIO` in errno. */
  method LcdClear(host: Host, allocation: u32) returns (r: Fatal<u32>)
    requires host.Valid()
    modifies host.memory, host.tasks.currentTask, host.lcd.lines, host.interface
    ensures host.Valid()
    ensures host.lcd.initialized ==>
      r == Returns(1) && host.lcd.Lines() == BlankLines() &&
      host.interface.sent == old(host.interface.sent) + [LcdUpdated(BlankLines())] &&
      host.memory[..] == old(host.memory[..])
    ensures !host.lcd.initialized ==>
      host.lcd.Lines() == old(host.lcd.Lines()) &&
      host.interface.sent == old(host.interface.sent) &&
      r == (if old(host.ErrnoSettable(allocation)) then Returns(0) else Aborts) &&
      (r.Returns? ==> host.ErrnoReported(old(host.memory[..]), ENXIO))
    ensures host.tasks.currentTask != null ==>
      host.TaskKept(old(host.tasks.currentTask.localStorage), old(host.tasks.currentTask.isFinished))
  {
    var res := host.lcd.Clear();
    var ok := host.UnwrapOrErrno(res, allocation);
    r := match ok case Aborts => Aborts case Returns(b) => Returns(BoolToInt(b));
  }

  /** The import name of the callback registrar for display button `button`. */
  function ButtonCallbackRegistrar(button: nat): (name: string)
    requires button < 3
  {
    "lcd_register_btn" + [(('0' as int) + button) as char] + "_cb"
  }

  /** The three registrars are exported as `lcd_register_btn0_cb`, `lcd_register_btn1_cb` and `lcd_register_btn2_cb`. */
  lemma ButtonCallbackRegistrarNames()
    ensures ButtonCallbackRegistrar(0) == "lcd_register_btn0_cb"
    ensures ButtonCallbackRegistrar(1) == "lcd_register_btn1_cb"
    ensures ButtonCallbackRegistrar(2) == "lcd_register_btn2_cb"
  {
  }

  /** The three registrars are registered under three different names. */
  lemma ButtonCallbackRegistrarsDistinct(a: nat, b: nat)
    requires a < 3 && b < 3 && a != b
    ensures ButtonCallbackRegistrar(a) != ButtonCallbackRegistrar(b)
  {
    ButtonCallbackRegistrarNames();
  }
}
