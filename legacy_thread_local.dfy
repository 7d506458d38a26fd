/**
 * The thread-local storage of the original single-crate simulator: the same
 * five-slot layout, written through `set_address`.
 */
module LegacyThreadLocal {
  import opened Common
  import opened Memory
  import opened ThreadLocal

  /**
   * `set_address`: the bounds check happens inside `get_address`; then the
   * little-endian bytes of `value` are written, and a failed write panics.
   */
  method SetAddress(s: TaskStorage, mem: array<u8>, index: i32, value: u32) returns (r: Fatal<()>)
    modifies mem
    ensures r.Returns? <==> s.Store(old(mem[..]), index, value).Returns?
    ensures r.Returns? ==> mem[..] == s.Store(old(mem[..]), index, value).value
    ensures r.Aborts? ==> mem[..] == old(mem[..])
  {
    var address := s.GetAddress(index);
    if address.Aborts? {
      return Aborts;
    }
    var written := WriteRelaxed(mem, address.value, U32ToLe(value));
    if written.Err? {
      return Aborts;
    }
    r := Returns(());
  }
}
