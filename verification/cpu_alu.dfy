/** Registers, status flags and the data operations of the 6502 core. */
module Alu {
  import opened Bytes

  const FLAG_CARRY: bv8 := 0x01
  const FLAG_ZERO: bv8 := 0x02
  const FLAG_INTERRUPT: bv8 := 0x04
  const FLAG_DECIMAL: bv8 := 0x08
  const FLAG_BREAK: bv8 := 0x10
  const FLAG_UNUSED: bv8 := 0x20
  const FLAG_OVERFLOW: bv8 := 0x40
  const FLAG_NEGATIVE: bv8 := 0x80

  datatype Regs = Regs(a: byte, x: byte, y: byte, s: byte, p: bv8)

  // Flag helpers

  predicate Has(p: bv8, f: bv8) { p & f != 0 }

  /** Bits 4 and 5: there is no physical B flag, and bit 5 always reads as one. */
  const FIXED: bv8 := FLAG_BREAK | FLAG_UNUSED

  function SetFlag(p: bv8, f: bv8, cond: bool): (q: bv8)
    ensures f & FIXED == 0 ==> q & FIXED == p & FIXED
  {
    if cond then p | f else p & !f
  }

  function UpdateNz(p: bv8, v: byte): (q: bv8)
    ensures q & FIXED == p & FIXED
  {
    SetFlag(SetFlag(p, FLAG_ZERO, v == 0), FLAG_NEGATIVE, v >= 128)
  }

  function CarryIn(p: bv8): (c: int)
    ensures 0 <= c <= 1
  {
    if Has(p, FLAG_CARRY) then 1 else 0
  }

  // Addition and subtraction

  /** Signed overflow: equal operand signs, different result sign. */
  predicate SignFlips(a: int, m: int, r: int) { BitAt(a, 128) == BitAt(m, 128) && BitAt(a, 128) != BitAt(r, 128) }

  /** `(uint8_t)((high << 4) | (low & 0x0F))`. */
  function Pack(high: int, low: int): byte { Wrap8(high * 16) + low % 16 }

  /** Digit-wise sum before the high-digit correction, and whether it is due. */
  function BcdSum(a: byte, m: byte, c: int): (byte, bool)
    requires 0 <= c <= 1
  {
    var low0 := a % 16 + m % 16 + c;
    var high0 := a / 16 + m / 16;
    var low := if low0 > 9 then low0 - 10 else low0;
    var high := if low0 > 9 then high0 + 1 else high0;
    (Pack(high, low), high > 9)
  }

  /** Digit-wise difference before the high-digit correction, and whether it is due. */
  function BcdDiff(a: byte, m: byte, c: int): (byte, bool)
    requires 0 <= c <= 1
  {
    var low0 := a % 16 - m % 16 - (1 - c);
    var high0 := a / 16 - m / 16;
    var low := if low0 < 0 then low0 + 10 else low0;
    var high := if low0 < 0 then high0 - 1 else high0;
    (Pack(high, low), high < 0)
  }

  /** C and A last; Z comes from the binary sum, N and V from the uncorrected digits. */
  function DecimalResult(r: Regs, m: byte, binary: byte, result: byte, carry: bool, corrected: byte): (q: Regs)
    ensures q.p & FIXED == r.p & FIXED && q.s == r.s && q.a == corrected
    ensures Has(q.p, FLAG_CARRY) == carry
    ensures Has(q.p, FLAG_DECIMAL) == Has(r.p, FLAG_DECIMAL)
  {
    var p1 := SetFlag(r.p, FLAG_ZERO, binary == 0);
    var p2 := SetFlag(p1, FLAG_NEGATIVE, result >= 128);
    var p3 := SetFlag(p2, FLAG_OVERFLOW, SignFlips(r.a, m, result));
    r.(a := corrected, p := SetFlag(p3, FLAG_CARRY, carry))
  }

  function AdcBcd(r: Regs, m: byte): (q: Regs)
    ensures q.p & FIXED == r.p & FIXED && q.s == r.s
  {
    var (result, over) := BcdSum(r.a, m, CarryIn(r.p));
    DecimalResult(r, m, Wrap8(r.a + m + CarryIn(r.p)), result, over,
                  if over then Wrap8(result - 0xA0) else result)
  }

  function SbcBcd(r: Regs, m: byte): (q: Regs)
    ensures q.p & FIXED == r.p & FIXED && q.s == r.s
  {
    var (result, under) := BcdDiff(r.a, m, CarryIn(r.p));
    DecimalResult(r, 255 - m, Wrap8(r.a + (255 - m) + CarryIn(r.p)), result, !under,
                  if under then Wrap8(result + 0xA0) else result)
  }

  function AdcBin(r: Regs, m: byte): (q: Regs)
    ensures q.p & FIXED == r.p & FIXED && q.s == r.s
  {
    var sum := r.a + m + CarryIn(r.p);
    var p1 := SetFlag(r.p, FLAG_CARRY, sum > 0xFF);
    var p2 := SetFlag(p1, FLAG_ZERO, Wrap8(sum) == 0);
    var p3 := SetFlag(p2, FLAG_OVERFLOW, SignFlips(r.a, m, sum));
    r.(a := Wrap8(sum), p := SetFlag(p3, FLAG_NEGATIVE, BitAt(sum, 128)))
  }

  function SbcBin(r: Regs, m: byte): (q: Regs)
    ensures q.p & FIXED == r.p & FIXED && q.s == r.s
  {
    AdcBin(r, 255 - m)
  }

  function Adc(r: Regs, m: byte): (q: Regs)
    ensures q.p & FIXED == r.p & FIXED && q.s == r.s
  {
    if Has(r.p, FLAG_DECIMAL) then AdcBcd(r, m) else AdcBin(r, m)
  }

  function Sbc(r: Regs, m: byte): (q: Regs)
    ensures q.p & FIXED == r.p & FIXED && q.s == r.s
  {
    if Has(r.p, FLAG_DECIMAL) then SbcBcd(r, m) else SbcBin(r, m)
  }

  function Compare(p: bv8, reg: byte, t: byte): (q: bv8)
    ensures q & FIXED == p & FIXED
  {
    UpdateNz(SetFlag(p, FLAG_CARRY, reg >= t), Wrap8(reg - t))
  }

  // Instructions that read one operand byte

  datatype LoadOp =
    | ADC | AND | BIT | CMP | CPX | CPY | EOR | LDA | LDX | LDY | ORA | SBC
    | LAX | NOP | LAS | XAA | LXA | ANC | ALR | ARR | SBX

  function SetA(r: Regs, v: byte): (q: Regs)
    ensures q.p & FIXED == r.p & FIXED && q.s == r.s
  {
    r.(a := v, p := UpdateNz(r.p, v))
  }

  function SetX(r: Regs, v: byte): (q: Regs)
    ensures q.p & FIXED == r.p & FIXED && q.s == r.s
  {
    r.(x := v, p := UpdateNz(r.p, v))
  }

  function SetY(r: Regs, v: byte): (q: Regs)
    ensures q.p & FIXED == r.p & FIXED && q.s == r.s
  {
    r.(y := v, p := UpdateNz(r.p, v))
  }

  function Load(op: LoadOp, r: Regs, m: byte): (q: Regs)
    ensures q.p & FIXED == r.p & FIXED && (!op.LAS? ==> q.s == r.s)
  {
    match op
    case ADC => Adc(r, m)
    case SBC => Sbc(r, m)
    case AND => SetA(r, And8(r.a, m))
    case ORA => SetA(r, Or8(r.a, m))
    case EOR => SetA(r, Xor8(r.a, m))
    case BIT =>
      var p1 := SetFlag(r.p, FLAG_ZERO, And8(r.a, m) == 0);
      r.(p := SetFlag(SetFlag(p1, FLAG_NEGATIVE, m >= 128), FLAG_OVERFLOW, BitAt(m, 64)))
    case CMP => r.(p := Compare(r.p, r.a, m))
    case CPX => r.(p := Compare(r.p, r.x, m))
    case CPY => r.(p := Compare(r.p, r.y, m))
    case LDA => SetA(r, m)
    case LDX => SetX(r, m)
    case LDY => SetY(r, m)
    case LAX => SetX(r.(a := m), m)
    case NOP => r
    case LAS => SetX(r.(a := And8(m, r.s), s := And8(m, r.s)), And8(m, r.s))
    case XAA => SetA(r, And8(And8(Or8(r.a, 0xEE), r.x), m))
    case LXA => SetX(r.(a := And8(Or8(r.a, 0xEE), m)), And8(Or8(r.a, 0xEE), m))
    case ANC => var r1 := SetA(r, And8(r.a, m)); r1.(p := SetFlag(r1.p, FLAG_CARRY, r1.a >= 128))
    case ALR => var v := And8(r.a, m); SetA(r.(p := SetFlag(r.p, FLAG_CARRY, v % 2 == 1)), v / 2)
    case ARR => Arr(r, And8(r.a, m))
    case SBX => var ax := And8(r.a, r.x); SetX(r.(p := SetFlag(r.p, FLAG_CARRY, ax >= m)), Wrap8(ax - m))
  }

  /** C and V of ARR from bits 6 and 5 of the rotated byte. */
  function ArrFlags(p: bv8, result: byte): (q: bv8)
    ensures q & FIXED == p & FIXED
  {
    var p1 := SetFlag(p, FLAG_CARRY, BitAt(result, 64));
    SetFlag(UpdateNz(p1, result), FLAG_OVERFLOW, BitAt(result, 64) != BitAt(result, 32))
  }

  function Arr(r: Regs, value: byte): (q: Regs)
    ensures q.p & FIXED == r.p & FIXED && q.s == r.s
  {
    var result := value / 2 + CarryIn(r.p) * 128;
    var p3 := ArrFlags(r.p, result);
    if Has(r.p, FLAG_DECIMAL) then
      var fixLow := if value % 16 + value % 2 > 5 then result / 16 * 16 + (result + 6) % 16 else result;
      var fixHigh := value / 16 * 16 + value / 16 % 2 * 16 > 0x50;
      r.(a := if fixHigh then Wrap8(fixLow + 0x60) else fixLow, p := SetFlag(p3, FLAG_CARRY, fixHigh))
    else
      r.(a := result, p := p3)
  }

  // Read-modify-write instructions: new registers and the byte written back

  datatype ModifyOp = ASL | LSR | ROL | ROR | INC | DEC | SLO | RLA | SRE | RRA | DCP | ISC

  /** The four shifts: registers with the carry out, and the shifted byte. */
  function ShiftLeft(r: Regs, t: byte, carry: int): (q: (Regs, byte))
    requires 0 <= carry <= 1
    ensures q.0.p & FIXED == r.p & FIXED && q.0.s == r.s
  {
    (r.(p := SetFlag(r.p, FLAG_CARRY, t >= 128)), Wrap8(t * 2) + carry)
  }

  function ShiftRight(r: Regs, t: byte, carry: int): (q: (Regs, byte))
    requires 0 <= carry <= 1
    ensures q.0.p & FIXED == r.p & FIXED && q.0.s == r.s
  {
    (r.(p := SetFlag(r.p, FLAG_CARRY, t % 2 == 1)), t / 2 + carry * 128)
  }

  /** N and Z from the byte written back. */
  function Flagged(q: (Regs, byte)): (q': (Regs, byte))
    ensures q'.0.p & FIXED == q.0.p & FIXED && q'.0.s == q.0.s
  {
    (q.0.(p := UpdateNz(q.0.p, q.1)), q.1)
  }

  function Modify(op: ModifyOp, r: Regs, t: byte): (q: (Regs, byte))
    ensures q.0.p & FIXED == r.p & FIXED && q.0.s == r.s
  {
    match op
    case ASL => Flagged(ShiftLeft(r, t, 0))
    case ROL => Flagged(ShiftLeft(r, t, CarryIn(r.p)))
    case LSR => Flagged(ShiftRight(r, t, 0))
    case ROR => Flagged(ShiftRight(r, t, CarryIn(r.p)))
    case INC => Flagged((r, Wrap8(t + 1)))
    case DEC => Flagged((r, Wrap8(t - 1)))
    case SLO => var (r1, v) := ShiftLeft(r, t, 0); (SetA(r1, Or8(r.a, v)), v)
    case RLA => var (r1, v) := ShiftLeft(r, t, CarryIn(r.p)); (SetA(r1, And8(r.a, v)), v)
    case SRE => var (r1, v) := ShiftRight(r, t, 0); (SetA(r1, Xor8(r.a, v)), v)
    case RRA => var (r1, v) := ShiftRight(r, t, CarryIn(r.p)); (Adc(r1, v), v)
    case DCP => (r.(p := Compare(r.p, r.a, Wrap8(t - 1))), Wrap8(t - 1))
    case ISC => (Sbc(r, Wrap8(t + 1)), Wrap8(t + 1))
  }

  // Instructions that touch registers only

  datatype ImpliedOp =
    | ASLA | LSRA | ROLA | RORA
    | CLC | CLI | CLV | CLD | SEC | SEI | SED
    | DEX | DEY | INX | INY | TAX | TAY | TSX | TXA | TXS | TYA | NOPI

  function OnAccumulator(op: ModifyOp, r: Regs): (q: Regs)
    ensures q.p & FIXED == r.p & FIXED && q.s == r.s
  {
    var (r1, v) := Modify(op, r, r.a);
    r1.(a := v)
  }

  function Implied(op: ImpliedOp, r: Regs): (q: Regs)
    ensures q.p & FIXED == r.p & FIXED && (!op.TXS? ==> q.s == r.s)
  {
    match op
    case ASLA => OnAccumulator(ASL, r)
    case LSRA => OnAccumulator(LSR, r)
    case ROLA => OnAccumulator(ROL, r)
    case RORA => OnAccumulator(ROR, r)
    case CLC => r.(p := SetFlag(r.p, FLAG_CARRY, false))
    case CLI => r.(p := SetFlag(r.p, FLAG_INTERRUPT, false))
    case CLV => r.(p := SetFlag(r.p, FLAG_OVERFLOW, false))
    case CLD => r.(p := SetFlag(r.p, FLAG_DECIMAL, false))
    case SEC => r.(p := SetFlag(r.p, FLAG_CARRY, true))
    case SEI => r.(p := SetFlag(r.p, FLAG_INTERRUPT, true))
    case SED => r.(p := SetFlag(r.p, FLAG_DECIMAL, true))
    case DEX => SetX(r, Wrap8(r.x - 1))
    case DEY => SetY(r, Wrap8(r.y - 1))
    case INX => SetX(r, Wrap8(r.x + 1))
    case INY => SetY(r, Wrap8(r.y + 1))
    case TAX => SetX(r, r.a)
    case TAY => SetY(r, r.a)
    case TSX => SetX(r, r.s)
    case TXA => SetA(r, r.x)
    case TXS => r.(s := r.x)
    case TYA => SetA(r, r.y)
    case NOPI => r
  }

  // Stores and branches

  datatype StoreOp = STA | STX | STY | SAX

  function Stored(op: StoreOp, r: Regs): byte {
    match op
    case STA => r.a
    case STX => r.x
    case STY => r.y
    case SAX => And8(r.a, r.x)
  }

  /** SHX, SHY, AHX and TAS store a register masked by the page number plus one. */
  datatype UnstableOp = SHX | SHY | AHX | TAS

  function Masked(op: UnstableOp, r: Regs): byte {
    match op
    case SHX => r.x
    case SHY => r.y
    case AHX | TAS => And8(r.a, r.x)
  }

  datatype BranchOp = BPL | BMI | BVC | BVS | BCC | BCS | BNE | BEQ

  predicate Taken(op: BranchOp, p: bv8) {
    match op
    case BPL => !Has(p, FLAG_NEGATIVE)
    case BMI => Has(p, FLAG_NEGATIVE)
    case BVC => !Has(p, FLAG_OVERFLOW)
    case BVS => Has(p, FLAG_OVERFLOW)
    case BCC => !Has(p, FLAG_CARRY)
    case BCS => Has(p, FLAG_CARRY)
    case BNE => !Has(p, FLAG_ZERO)
    case BEQ => Has(p, FLAG_ZERO)
  }
}
