/** Fixed-width values of the emulator: `uint8_t`, `uint16_t` and the bitwise
    operators the 6502 core applies to data bytes. */
module Bytes {

  type byte = x: int | 0 <= x < 256
  type word = x: int | 0 <= x < 65536

  function Wrap8(x: int): byte { x % 256 }

  function Wrap16(x: int): word { x % 65536 }

  function Lo(w: word): byte { w % 256 }

  function Hi(w: word): byte { w / 256 }

  function Join(hi: byte, lo: byte): word { hi * 256 + lo }

  /** The two's-complement reading of a byte, C's cast to `int8_t`. */
  function Signed(b: byte): int { if b < 128 then b else b - 256 }

  /** b^n. */
  function Power(b: nat, n: nat): (p: nat)
    requires b > 0
    ensures p > 0
  {
    if n == 0 then 1 else b * Power(b, n - 1)
  }

  datatype Gate = AndGate | OrGate | XorGate

  predicate Through(g: Gate, p: bool, q: bool) {
    match g
    case AndGate => p && q
    case OrGate => p || q
    case XorGate => p != q
  }

  predicate BitAt(x: int, weight: int)
    requires weight > 0
  {
    (x / weight) % 2 == 1
  }

  /** Bitwise combination of all bits of weight `top`, `top / 2`, ..., 1. */
  function Bitwise(g: Gate, x: int, y: int, top: nat): (r: nat)
    ensures top == 0 || r <= 2 * top - 1
  {
    if top == 0 then 0
    else (if Through(g, BitAt(x, top), BitAt(y, top)) then top else 0) + Bitwise(g, x, y, top / 2)
  }

  function And8(x: byte, y: byte): byte { Bitwise(AndGate, x, y, 128) }

  function Or8(x: byte, y: byte): byte { Bitwise(OrGate, x, y, 128) }

  function Xor8(x: byte, y: byte): byte { Bitwise(XorGate, x, y, 128) }
}
