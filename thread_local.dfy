/**
 * Per-task thread-local storage: a block of five 32-bit slots in sandbox
 * memory, addressed from the block's base, each slot stored little-endian.
 */
module ThreadLocal {
  import opened Common
  import opened Memory

  const NUM_THREAD_LOCAL_STORAGE_POINTERS: nat := 5

  /** `size_of::<u32>()`. */
  const SLOT_SIZE: nat := 4

  /** `assert_in_bounds`: an index outside `0..NUM_THREAD_LOCAL_STORAGE_POINTERS` panics. */
  function AssertInBounds(index: i32): (r: Fatal<()>)
    ensures r.Returns? <==> 0 <= index < NUM_THREAD_LOCAL_STORAGE_POINTERS
  {
    if index < 0 || index >= NUM_THREAD_LOCAL_STORAGE_POINTERS as int then Aborts else Returns(())
  }

  /** The storage block of one task; `basePtr` is what the sandbox allocator returned for `[u32; 5]`. */
  datatype TaskStorage = TaskStorage(basePtr: u32)
  {
    /** The whole block lies below 2^32, as any block inside sandbox memory does. */
    predicate Fits()
    {
      basePtr + NUM_THREAD_LOCAL_STORAGE_POINTERS * SLOT_SIZE <= 0x1_0000_0000
    }

    /**
     * `get_address`: the slot's address, `base + 4 * index`, after the
     * bounds check. The `u32` sum wraps (it can only wrap for a block that
     * does not fit).
     */
    function GetAddress(index: i32): (r: Fatal<u32>)
      ensures r.Returns? <==> 0 <= index < NUM_THREAD_LOCAL_STORAGE_POINTERS
      ensures r.Returns? && Fits() ==> r.value == basePtr + SLOT_SIZE * index
    {
      match AssertInBounds(index)
      case Aborts => Aborts
      case Returns(_) => Returns((basePtr + index * SLOT_SIZE) % 0x1_0000_0000)
    }

    /** The value `get` reads from memory `m`: the slot decoded little-endian, or a panic. */
    function Load(m: seq<u8>, index: i32): (r: Fatal<u32>)
      ensures r.Returns? <==> GetAddress(index).Returns? && GetAddress(index).value + SLOT_SIZE <= |m|
    {
      match GetAddress(index)
      case Aborts => Aborts
      case Returns(address) =>
        if address + SLOT_SIZE > |m| then Aborts
        else Returns(U32FromLe(m[address..address + SLOT_SIZE]))
    }

    /** The memory `set` leaves behind: `m` with the slot overwritten by `value`'s little-endian bytes. */
    function Store(m: seq<u8>, index: i32, value: u32): (r: Fatal<seq<u8>>)
      ensures r.Returns? <==> Load(m, index).Returns?
      ensures r.Returns? ==> |r.value| == |m|
    {
      match GetAddress(index)
      case Aborts => Aborts
      case Returns(address) =>
        if address + SLOT_SIZE > |m| then Aborts
        else Returns(Splice(m, address, U32ToLe(value)))
    }
  }

  /**
   * The five slots of a block that fits are 4-byte cells inside
   * `[base, base + 20)`, and different indices give disjoint cells.
   */
  lemma SlotLayout(s: TaskStorage, i: i32, j: i32)
    requires s.Fits()
    requires 0 <= i < NUM_THREAD_LOCAL_STORAGE_POINTERS && 0 <= j < NUM_THREAD_LOCAL_STORAGE_POINTERS
    ensures s.GetAddress(i).Returns? && s.GetAddress(j).Returns?
    ensures s.basePtr <= s.GetAddress(i).value
    ensures s.GetAddress(i).value + SLOT_SIZE <= s.basePtr + NUM_THREAD_LOCAL_STORAGE_POINTERS * SLOT_SIZE
    ensures i != j ==>
      s.GetAddress(i).value + SLOT_SIZE <= s.GetAddress(j).value ||
      s.GetAddress(j).value + SLOT_SIZE <= s.GetAddress(i).value
  {
  }

  /**
   * `get(i)` after `set(i, v)` returns `v`; when the block fits, `set(i, v)`
   * leaves every other slot's value as it was.
   */
  lemma LoadAfterStore(s: TaskStorage, m: seq<u8>, i: i32, value: u32, j: i32)
    requires s.Store(m, i, value).Returns?
    ensures s.Load(s.Store(m, i, value).value, i) == Returns(value)
    ensures s.Fits() && j != i ==> s.Load(s.Store(m, i, value).value, j) == s.Load(m, j)
  {
    var address := s.GetAddress(i).value;
    var m' := s.Store(m, i, value).value;
    LeRoundTrip(value, U32ToLe(value));
    SpliceReadBack(m, address, U32ToLe(value));
    if s.Fits() && j != i && s.GetAddress(j).Returns? {
      SlotLayout(s, i, j);
      var other := s.GetAddress(j).value;
      if other + SLOT_SIZE <= |m| {
        SpliceFrame(m, address, U32ToLe(value), other, other + SLOT_SIZE);
      }
    }
  }

  /** `TaskStorage::get`: bounds check, read four bytes (a failed read panics), decode. */
  method Get(s: TaskStorage, mem: array<u8>, index: i32) returns (r: Fatal<u32>)
    ensures r == s.Load(mem[..], index)
  {
    if AssertInBounds(index).Aborts? {
      return Aborts;
    }
    var address := s.GetAddress(index).value;
    var buffer := ReadRelaxed(mem, address, SLOT_SIZE);
    if buffer.Err? {
      return Aborts;
    }
    r := Returns(U32FromLe(buffer.value));
  }

  /** `TaskStorage::set`: bounds check, then write `value` little-endian; a failed write panics. */
  method Set(s: TaskStorage, mem: array<u8>, index: i32, value: u32) returns (r: Fatal<()>)
    modifies mem
    ensures r.Returns? <==> s.Store(old(mem[..]), index, value).Returns?
    ensures r.Returns? ==> mem[..] == s.Store(old(mem[..]), index, value).value
    ensures r.Aborts? ==> mem[..] == old(mem[..])
  {
    if AssertInBounds(index).Aborts? {
      return Aborts;
    }
    var address := s.GetAddress(index).value;
    var written := WriteRelaxed(mem, address, U32ToLe(value));
    if written.Err? {
      return Aborts;
    }
    r := Returns(());
  }
}
