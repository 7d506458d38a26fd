/**
 * Shared vocabulary of the model: optional values, results, the fatal
 * outcome of a host call, fixed-width integer ranges, the errno codes of the
 * emulated C API and the little-endian byte layout of 32-bit words in
 * sandbox memory.
 */
module Common {

  datatype Option<+T> = None | Some(value: T)

  /** Rust's `Result<T, E>`. */
  datatype Result<+T, +E> = Ok(value: T) | Err(error: E)

  /**
   * The outcome of host code that may not return to the guest: a Rust panic
   * (`unwrap`, `expect`, `panic!`) or an error propagated out of a host
   * function with `?`, which traps the sandbox.
   */
  datatype Fatal<+T> = Returns(value: T) | Aborts

  type u8 = x: int | 0 <= x < 0x100
  type i8 = x: int | -0x80 <= x < 0x80
  type i32 = x: int | -0x8000_0000 <= x < 0x8000_0000
  type u32 = x: int | 0 <= x < 0x1_0000_0000

  /** A sandbox byte string; Rust's `String::len` is its length in bytes. */
  type Bytes = seq<u8>

  /** errno values of the emulated C library (newlib numbering). */
  const ENXIO: i32 := 6
  const EINVAL: i32 := 22

  /** `u32::from(bool)` and `i32::from(bool)`: 1 for true, 0 for false. */
  function BoolToInt(b: bool): (r: u8)
    ensures r == 0 || r == 1
    ensures r == 1 <==> b
  {
    if b then 1 else 0
  }

  /** `u32::to_le_bytes`: least significant byte first. */
  function U32ToLe(v: u32): (r: seq<u8>)
  {
    [v % 0x100, (v / 0x100) % 0x100, (v / 0x1_0000) % 0x100, v / 0x100_0000]
  }

  /** `u32::from_le_bytes`. */
  function U32FromLe(b: seq<u8>): u32
    requires |b| == 4
  {
    b[0] as int + 0x100 * b[1] as int + 0x1_0000 * b[2] as int + 0x100_0000 * b[3] as int
  }

  /** Decoding undoes encoding, and every 4-byte group is the encoding of its decoding. */
  lemma LeRoundTrip(v: u32, b: seq<u8>)
    requires |b| == 4
    ensures |U32ToLe(v)| == 4 && U32FromLe(U32ToLe(v)) == v
    ensures U32ToLe(U32FromLe(b)) == b
  {
    var q1, q2, q3 := v / 0x100, v / 0x1_0000, v / 0x100_0000;
    assert v == v % 0x100 + 0x100 * q1;
    assert q1 == q1 % 0x100 + 0x100 * q2 by { assert q2 == q1 / 0x100; }
    assert q2 == q2 % 0x100 + 0x100 * q3 by { assert q3 == q2 / 0x100; }
    DecodeThenEncode(b);
  }

  /** The byte-by-byte half of `LeRoundTrip`: each byte is recovered from the decoded word. */
  lemma DecodeThenEncode(b: seq<u8>)
    requires |b| == 4
    ensures U32ToLe(U32FromLe(b)) == b
  {
    var w := U32FromLe(b);
    assert w % 0x100 == b[0];
    assert w / 0x100 == b[1] as int + 0x100 * b[2] as int + 0x1_0000 * b[3] as int;
    assert w / 0x1_0000 == b[2] as int + 0x100 * b[3] as int;
    assert w / 0x100_0000 == b[3];
  }

  /** `i32::to_le_bytes` writes the two's-complement pattern, read here as a `u32`. */
  function I32Bits(x: i32): (r: u32)
    ensures I32FromBits(r) == x
  {
    if x < 0 then x + 0x1_0000_0000 else x
  }

  /** Reading a two's-complement pattern back as an `i32`. */
  function I32FromBits(w: u32): i32
  {
    if w < 0x8000_0000 then w else w - 0x1_0000_0000
  }
}
