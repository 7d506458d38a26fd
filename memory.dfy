/**
 * Byte-level access to the sandbox's linear memory: scanning a
 * NUL-terminated C string, and bounds-checked reads and writes of a byte
 * range.
 */
module Memory {
  import opened Common

  datatype OutOfBoundsError = OutOfBoundsError

  /** The error `read_c_str` reports when it reaches the end of memory without a zero byte. */
  datatype CStrError = NotNullTerminated

  /** The position of the first zero byte of `s`, if any. */
  function FirstZero(s: seq<u8>): (r: Option<nat>)
    ensures r.None? <==> 0 !in s
    ensures r.Some? ==> r.value < |s| && s[r.value] == 0 && 0 !in s[..r.value]
  {
    if s == [] then None
    else if s[0] == 0 then Some(0)
    else match FirstZero(s[1..])
      case None => None
      case Some(i) => (assert s[..i + 1] == [s[0]] + s[1..][..i]; Some(i + 1))
  }

  /** `m` with `b` written over the bytes starting at `offset`. */
  function Splice(m: seq<u8>, offset: nat, b: seq<u8>): (r: seq<u8>)
    requires offset + |b| <= |m|
    ensures |r| == |m|
    ensures forall j :: 0 <= j < |m| ==> r[j] == if offset <= j < offset + |b| then b[j - offset] else m[j]
  {
    m[..offset] + b + m[offset + |b|..]
  }

  /** Reading back a spliced range gives the bytes that were written. */
  lemma SpliceReadBack(m: seq<u8>, offset: nat, b: seq<u8>)
    requires offset + |b| <= |m|
    ensures Splice(m, offset, b)[offset..offset + |b|] == b
  {
  }

  /** A splice changes no byte outside its own range. */
  lemma SpliceFrame(m: seq<u8>, offset: nat, b: seq<u8>, lo: nat, hi: nat)
    requires offset + |b| <= |m|
    requires lo <= hi <= |m|
    requires hi <= offset || offset + |b| <= lo
    ensures Splice(m, offset, b)[lo..hi] == m[lo..hi]
  {
  }

  /**
   * `read_c_str`: the bytes from `ptr` up to, not including, the first zero
   * byte. A pointer past the end of memory panics; a run to the end without
   * a zero byte is an error.
   */
  method ReadCStr(mem: array<u8>, ptr: u32) returns (r: Fatal<Result<Bytes, CStrError>>)
    ensures ptr > mem.Length <==> r == Aborts
    ensures r.Returns? ==> (r.value.Err? <==> 0 !in mem[ptr..])
    ensures r.Returns? && r.value.Ok? ==>
      var s := r.value.value;
      ptr + |s| < mem.Length && mem[ptr..ptr + |s|] == s && mem[ptr + |s|] == 0 && 0 !in s
    ensures r.Returns? && FirstZero(mem[ptr..]).Some? ==>
      r == Returns(Ok(mem[ptr..ptr + FirstZero(mem[ptr..]).value]))
  {
    if ptr > mem.Length {
      return Aborts;
    }
    var index := 0;
    while ptr + index < mem.Length
      invariant ptr + index <= mem.Length
      invariant 0 !in mem[ptr..ptr + index]
    {
      if mem[ptr + index] == 0 {
        assert mem[ptr..][..index] == mem[ptr..ptr + index];
        return Returns(Ok(mem[ptr..ptr + index]));
      }
      assert mem[ptr..ptr + index + 1] == mem[ptr..ptr + index] + [mem[ptr + index]];
      index := index + 1;
    }
    assert mem[ptr..] == mem[ptr..ptr + index];
    r := Returns(Err(NotNullTerminated));
  }

  /**
   * `write_relaxed`: copy `buffer` into memory at `offset`, byte by byte;
   * out of bounds (and nothing written) when the range does not fit.
   */
  method WriteRelaxed(mem: array<u8>, offset: nat, buffer: Bytes) returns (r: Result<(), OutOfBoundsError>)
    modifies mem
    ensures r.Err? <==> offset + |buffer| > mem.Length
    ensures r.Ok? ==> mem[..] == Splice(old(mem[..]), offset, buffer)
    ensures r.Err? ==> mem[..] == old(mem[..])
  {
    if offset + |buffer| > mem.Length {
      return Err(OutOfBoundsError);
    }
    for i := 0 to |buffer|
      invariant forall j :: 0 <= j < mem.Length ==>
        mem[j] == if offset <= j < offset + i then buffer[j - offset] else old(mem[j])
    {
      mem[offset + i] := buffer[i];
    }
    r := Ok(());
  }

  /** `read_relaxed`: exactly `length` bytes from `offset`, in order, or out of bounds. */
  method ReadRelaxed(mem: array<u8>, offset: nat, length: nat) returns (r: Result<Bytes, OutOfBoundsError>)
    ensures r.Err? <==> offset + length > mem.Length
    ensures r.Ok? ==> |r.value| == length && r.value == mem[offset..offset + length]
  {
    if offset + length > mem.Length {
      return Err(OutOfBoundsError);
    }
    var buffer: Bytes := [];
    for i := 0 to length
      invariant buffer == mem[offset..offset + i]
    {
      buffer := buffer + [mem[offset + i]];
    }
    r := Ok(buffer);
  }

  /** A successful write followed by a read of the same range returns the written bytes. */
  method WriteThenRead(mem: array<u8>, offset: nat, buffer: Bytes) returns (w: Result<(), OutOfBoundsError>, r: Result<Bytes, OutOfBoundsError>)
    modifies mem
    ensures w.Ok? <==> r.Ok?
    ensures w.Ok? ==> r == Ok(buffer)
  {
    w := WriteRelaxed(mem, offset, buffer);
    r := ReadRelaxed(mem, offset, |buffer|);
    if w.Ok? {
      SpliceReadBack(old(mem[..]), offset, buffer);
    }
  }
}
