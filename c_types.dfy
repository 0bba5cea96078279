/** The C and LP64 machine types the pauser works with, written out explicitly
    because Dafny's integers are unbounded. */
module CTypes {

  /** One `char` of a buffer filled by `read`. */
  newtype byte = b: int | 0 <= b < 0x100

  /** `unsigned long` on an LP64 platform: the width of `Atom`, `Window` and
      of each item of a 32-bit-format window property as Xlib returns it. */
  newtype ulong = n: int | 0 <= n < 0x1_0000_0000_0000_0000

  const IntMin: int := -0x8000_0000
  const IntMax: int := 0x7fff_ffff

  /** The implicit conversion from `unsigned long` to the 32-bit `int` that
      `get_window_pid` returns: the low 32 bits, read as two's complement. */
  function ToInt(v: ulong): (r: int)
    ensures IntMin <= r <= IntMax
    ensures (v as int - r) % 0x1_0000_0000 == 0
    ensures v as int <= IntMax ==> r == v as int
  {
    var low := v as int % 0x1_0000_0000;
    if low <= IntMax then low else low - 0x1_0000_0000
  }

  /** The bytes of a text all of whose characters fit in a byte (ASCII/Latin-1). */
  function Bytes(s: string): (r: seq<byte>)
    requires forall i | 0 <= i < |s| :: s[i] as int < 0x100
    ensures |r| == |s|
    ensures forall i | 0 <= i < |s| :: r[i] as int == s[i] as int
  {
    seq(|s|, i requires 0 <= i < |s| => s[i] as int as byte)
  }
}
