/** Working registers of the compression functions, as values. */
module Registers {
  datatype Regs4<W> = Regs4(a: W, b: W, c: W, d: W)

  datatype Regs5<W> = Regs5(a: W, b: W, c: W, d: W, e: W)

  datatype Regs8<W> = Regs8(a: W, b: W, c: W, d: W, e: W, f: W, g: W, h: W)

  /** The registers held by an eight-word array. */
  ghost function View8<W>(s: array<W>): Regs8<W>
    requires s.Length == 8
    reads s
  {
    Regs8(s[0], s[1], s[2], s[3], s[4], s[5], s[6], s[7])
  }

  /** The places d and h that a SHA-2 round writes are none of the other seven, nor each other. */
  predicate Apart(a: nat, b: nat, c: nat, d: nat, e: nat, f: nat, g: nat, h: nat) {
    && a < 8 && b < 8 && c < 8 && d < 8 && e < 8 && f < 8 && g < 8 && h < 8
    && a != d && b != d && c != d && e != d && f != d && g != d && h != d
    && a != h && b != h && c != h && e != h && f != h && g != h
  }
}
