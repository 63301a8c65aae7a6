/** What ADC and SBC compute: multi-byte decimal and binary arithmetic chained
    through the carry flag, and the meaning of the status flags. */
module CpuArith {
  import opened Bytes
  import opened Alu

  // Numbers as little-endian byte strings, packed BCD or binary

  predicate IsDigit(dec: bool, b: byte) { dec ==> b / 16 < 10 && b % 16 < 10 }

  function DigitValue(dec: bool, b: byte): int { if dec then b / 16 * 10 + b % 16 else b }

  /** The weight of `n` bytes: 100^n or 256^n. */
  function Weight(dec: bool, n: nat): (w: int)
    ensures w > 0
  {
    if dec then Power(100, n) else Power(256, n)
  }

  function Value(dec: bool, ds: seq<byte>): int {
    if ds == [] then 0
    else DigitValue(dec, ds[0]) + if dec then 100 * Value(dec, ds[1..]) else 256 * Value(dec, ds[1..])
  }

  predicate AllDigits(dec: bool, ds: seq<byte>) { forall i :: 0 <= i < |ds| ==> IsDigit(dec, ds[i]) }

  /** Load each byte of `xs`, then ADC (or SBC) the byte of `ys`, low byte first. */
  function Chain(sub: bool, p: bv8, xs: seq<byte>, ys: seq<byte>): (seq<byte>, bv8)
    requires |xs| == |ys|
    decreases xs
  {
    if xs == [] then ([], p)
    else
      var r := Regs(xs[0], 0, 0, 0, p);
      var q := if sub then Sbc(r, ys[0]) else Adc(r, ys[0]);
      var (rest, p') := Chain(sub, q.p, xs[1..], ys[1..]);
      ([q.a] + rest, p')
  }

  // One byte

  lemma Nibbles(h: int, l: int)
    requires 0 <= h < 16 && 0 <= l < 16
    ensures (h * 16 + l) / 16 == h && (h * 16 + l) % 16 == l
  {
  }

  /** The high-digit correction modulo 256, for every high digit that can occur. */
  lemma Corrected(high: int, low: int)
    requires -10 <= high <= 19 && 0 <= low <= 9
    ensures var result := Wrap8(high * 16) + low;
            && (0 <= high <= 9 ==> result == high * 16 + low)
            && (high > 9 ==> Wrap8(result - 0xA0) == (high - 10) * 16 + low)
            && (high < 0 ==> Wrap8(result + 0xA0) == (high + 10) * 16 + low)
  {
    if high < 0 {
      assert Wrap8(high * 16) == high * 16 + 256;
    } else if high < 16 {
      assert Wrap8(high * 16) == high * 16;
    } else {
      assert Wrap8(high * 16) == high * 16 - 256;
    }
  }

  lemma BcdSumDigit(a: byte, m: byte, c: int)
    requires IsDigit(true, a) && IsDigit(true, m) && 0 <= c <= 1
    ensures var (result, over) := BcdSum(a, m, c);
            var q := if over then Wrap8(result - 0xA0) else result;
            && IsDigit(true, q)
            && DigitValue(true, q) + (if over then 100 else 0) == DigitValue(true, a) + DigitValue(true, m) + c
  {
    hide Wrap8;
    var ah, al, mh, ml := a / 16, a % 16, m / 16, m % 16;
    var low := al + ml + c - if al + ml + c > 9 then 10 else 0;
    var high := ah + mh + if al + ml + c > 9 then 1 else 0;
    assert low % 16 == low;
    Corrected(high, low);
    Nibbles(if high > 9 then high - 10 else high, low);
  }

  lemma BcdDiffDigit(a: byte, m: byte, c: int)
    requires IsDigit(true, a) && IsDigit(true, m) && 0 <= c <= 1
    ensures var (result, under) := BcdDiff(a, m, c);
            var q := if under then Wrap8(result + 0xA0) else result;
            && IsDigit(true, q)
            && DigitValue(true, q) - (if under then 100 else 0) == DigitValue(true, a) - DigitValue(true, m) - (1 - c)
  {
    hide Wrap8;
    var ah, al, mh, ml := a / 16, a % 16, m / 16, m % 16;
    var low := al - ml - (1 - c) + if al - ml - (1 - c) < 0 then 10 else 0;
    var high := ah - mh - if al - ml - (1 - c) < 0 then 1 else 0;
    assert low % 16 == low;
    Corrected(high, low);
    Nibbles(if high < 0 then high + 10 else high, low);
  }

  /** The binary adder behind both instructions. */
  lemma BinaryByte(r: Regs, m: byte)
    ensures var q := AdcBin(r, m);
            && Has(q.p, FLAG_DECIMAL) == Has(r.p, FLAG_DECIMAL)
            && q.a + (if Has(q.p, FLAG_CARRY) then 256 else 0) == r.a + m + CarryIn(r.p)
  {
    hide SignFlips;
  }

  /** One byte of ADC: digit and carry out carry exactly the sum. */
  lemma AdcByte(dec: bool, r: Regs, m: byte)
    requires IsDigit(dec, r.a) && IsDigit(dec, m) && Has(r.p, FLAG_DECIMAL) == dec
    ensures var q := Adc(r, m);
            && IsDigit(dec, q.a) && Has(q.p, FLAG_DECIMAL) == dec
            && DigitValue(dec, q.a) + (if Has(q.p, FLAG_CARRY) then if dec then 100 else 256 else 0)
               == DigitValue(dec, r.a) + DigitValue(dec, m) + CarryIn(r.p)
  {
    hide BcdSum, AdcBin, DecimalResult, Has;
    if dec { BcdSumDigit(r.a, m, CarryIn(r.p)); } else { BinaryByte(r, m); }
  }

  /** One byte of SBC: a clear carry out is a borrow from the next byte. */
  lemma SbcByte(dec: bool, r: Regs, m: byte)
    requires IsDigit(dec, r.a) && IsDigit(dec, m) && Has(r.p, FLAG_DECIMAL) == dec
    ensures var q := Sbc(r, m);
            && IsDigit(dec, q.a) && Has(q.p, FLAG_DECIMAL) == dec
            && DigitValue(dec, q.a) - (if Has(q.p, FLAG_CARRY) then 0 else if dec then 100 else 256)
               == DigitValue(dec, r.a) - DigitValue(dec, m) - (1 - CarryIn(r.p))
  {
    hide BcdDiff, AdcBin, DecimalResult, Has;
    if dec { BcdDiffDigit(r.a, m, CarryIn(r.p)); } else { BinaryByte(r, 255 - m); }
  }

  // Numbers of any length

  /** ADC chained over n bytes adds: digits and final carry are the exact sum. */
  lemma {:induction false} ChainAdds(dec: bool, p: bv8, xs: seq<byte>, ys: seq<byte>)
    requires |xs| == |ys| && AllDigits(dec, xs) && AllDigits(dec, ys) && Has(p, FLAG_DECIMAL) == dec
    ensures var (rs, p') := Chain(false, p, xs, ys);
            && |rs| == |xs| && AllDigits(dec, rs) && Has(p', FLAG_DECIMAL) == dec
            && Value(dec, rs) + (if Has(p', FLAG_CARRY) then Weight(dec, |xs|) else 0)
               == Value(dec, xs) + Value(dec, ys) + CarryIn(p)
    decreases xs
  {
    hide Adc, Has, CarryIn, DigitValue, IsDigit;
    CarryIsFlag(p);
    if xs != [] {
      var q := Adc(Regs(xs[0], 0, 0, 0, p), ys[0]);
      AdcByte(dec, Regs(xs[0], 0, 0, 0, p), ys[0]);
      CarryIsFlag(q.p);
      ChainAdds(dec, q.p, xs[1..], ys[1..]);
      var rest := Chain(false, q.p, xs[1..], ys[1..]).0;
      assert ([q.a] + rest)[1..] == rest;
    }
  }

  lemma CarryIsFlag(q: bv8)
    ensures CarryIn(q) == if Has(q, FLAG_CARRY) then 1 else 0
  {
  }

  /** SBC chained over n bytes subtracts, borrowing a full weight when it must. */
  lemma {:induction false} ChainSubtracts(dec: bool, p: bv8, xs: seq<byte>, ys: seq<byte>)
    requires |xs| == |ys| && AllDigits(dec, xs) && AllDigits(dec, ys) && Has(p, FLAG_DECIMAL) == dec
    ensures var (rs, p') := Chain(true, p, xs, ys);
            && |rs| == |xs| && AllDigits(dec, rs) && Has(p', FLAG_DECIMAL) == dec
            && Value(dec, rs) - (if Has(p', FLAG_CARRY) then 0 else Weight(dec, |xs|))
               == Value(dec, xs) - Value(dec, ys) - (1 - CarryIn(p))
    decreases xs
  {
    hide Sbc, Has, CarryIn, DigitValue, IsDigit;
    CarryIsFlag(p);
    if xs != [] {
      var q := Sbc(Regs(xs[0], 0, 0, 0, p), ys[0]);
      SbcByte(dec, Regs(xs[0], 0, 0, 0, p), ys[0]);
      CarryIsFlag(q.p);
      ChainSubtracts(dec, q.p, xs[1..], ys[1..]);
      var rest := Chain(true, q.p, xs[1..], ys[1..]).0;
      assert ([q.a] + rest)[1..] == rest;
    }
  }

  lemma {:induction false} ValueBounds(dec: bool, ds: seq<byte>)
    requires AllDigits(dec, ds)
    ensures 0 <= Value(dec, ds) < Weight(dec, |ds|)
  {
    if ds != [] { ValueBounds(dec, ds[1..]); }
  }

  lemma DigitRange(dec: bool, b: byte, c: byte)
    requires IsDigit(dec, b) && IsDigit(dec, c)
    ensures 0 <= DigitValue(dec, b) < if dec then 100 else 256
    ensures 0 <= DigitValue(dec, c) < if dec then 100 else 256
    ensures DigitValue(dec, b) == DigitValue(dec, c) ==> b == c
  {
  }

  lemma {:induction false} ValueIsInjective(dec: bool, ds: seq<byte>, es: seq<byte>)
    requires |ds| == |es| && AllDigits(dec, ds) && AllDigits(dec, es)
    requires Value(dec, ds) == Value(dec, es)
    ensures ds == es
  {
    hide DigitValue, IsDigit;
    if ds != [] {
      DigitRange(dec, ds[0], es[0]);
      assert DigitValue(dec, ds[0]) == DigitValue(dec, es[0]) && Value(dec, ds[1..]) == Value(dec, es[1..]);
      ValueIsInjective(dec, ds[1..], es[1..]);
      assert ds == [ds[0]] + ds[1..] && es == [es[0]] + es[1..];
    }
  }

  /** Subtracting undoes adding, byte for byte, with the borrow-in the carry-in
      calls for; the subtraction borrows exactly when the addition carried. */
  lemma SubtractUndoesAdd(dec: bool, p: bv8, p2: bv8, xs: seq<byte>, ys: seq<byte>)
    requires |xs| == |ys| && AllDigits(dec, xs) && AllDigits(dec, ys)
    requires Has(p, FLAG_DECIMAL) == dec && Has(p2, FLAG_DECIMAL) == dec
    requires Has(p2, FLAG_CARRY) == !Has(p, FLAG_CARRY)
    ensures var (sum, p1) := Chain(false, p, xs, ys);
            && |sum| == |ys|
            && Chain(true, p2, sum, ys).0 == xs
            && Has(Chain(true, p2, sum, ys).1, FLAG_CARRY) == !Has(p1, FLAG_CARRY)
  {
    hide Chain;
    ChainAdds(dec, p, xs, ys);
    var (sum, p1) := Chain(false, p, xs, ys);
    ChainSubtracts(dec, p2, sum, ys);
    var (rs, p3) := Chain(true, p2, sum, ys);
    ValueBounds(dec, xs);
    ValueBounds(dec, rs);
    ValueIsInjective(dec, rs, xs);
  }

  // Flags

  /** V after a binary ADC: the signed sum does not fit in a byte; N, Z and C
      describe the byte and the unsigned sum. */
  lemma AdcFlags(r: Regs, m: byte)
    ensures var q, sum := AdcBin(r, m), r.a + m + CarryIn(r.p);
            && (Has(q.p, FLAG_OVERFLOW) <==> !(-128 <= Signed(r.a) + Signed(m) + CarryIn(r.p) <= 127))
            && (Has(q.p, FLAG_CARRY) <==> sum >= 256)
            && (Has(q.p, FLAG_ZERO) <==> q.a == 0)
            && (Has(q.p, FLAG_NEGATIVE) <==> Signed(q.a) < 0)
  {
  }

  /** A comparison followed by a conditional branch is the comparison. */
  lemma CompareThenBranch(p: bv8, reg: byte, t: byte)
    ensures Taken(BCS, Compare(p, reg, t)) <==> reg >= t
    ensures Taken(BCC, Compare(p, reg, t)) <==> reg < t
    ensures Taken(BEQ, Compare(p, reg, t)) <==> reg == t
    ensures Taken(BNE, Compare(p, reg, t)) <==> reg != t
    ensures Taken(BMI, Compare(p, reg, t)) <==> Wrap8(reg - t) >= 128
  {
  }

  /** BIT followed by a branch tests A AND M, bit 7 and bit 6. */
  lemma BitThenBranch(r: Regs, m: byte)
    ensures var p := Load(BIT, r, m).p;
            && (Taken(BEQ, p) <==> And8(r.a, m) == 0)
            && (Taken(BMI, p) <==> BitAt(m, 128))
            && (Taken(BVS, p) <==> BitAt(m, 64))
  {
    hide And8;
  }

  predicate IsWeight(w: int) { w in {1, 2, 4, 8, 16, 32, 64, 128} }

  lemma Parity(q: int, k: int)
    ensures (2 * k + q) % 2 == q % 2
  {
  }

  lemma Quotients(rest: int, k: int)
    ensures (2 * k + rest) / 1 == 2 * k + rest / 1
    ensures (4 * k + rest) / 2 == 2 * k + rest / 2
    ensures (8 * k + rest) / 4 == 2 * k + rest / 4
    ensures (16 * k + rest) / 8 == 2 * k + rest / 8
    ensures (32 * k + rest) / 16 == 2 * k + rest / 16
    ensures (64 * k + rest) / 32 == 2 * k + rest / 32
    ensures (128 * k + rest) / 64 == 2 * k + rest / 64
  {
  }

  /** Multiples of twice a weight do not show at that weight. */
  lemma EvenIsUnseen(rest: int, k: int)
    ensures BitAt(2 * k + rest, 1) == BitAt(rest, 1)
    ensures BitAt(4 * k + rest, 2) == BitAt(rest, 2)
    ensures BitAt(8 * k + rest, 4) == BitAt(rest, 4)
    ensures BitAt(16 * k + rest, 8) == BitAt(rest, 8)
    ensures BitAt(32 * k + rest, 16) == BitAt(rest, 16)
    ensures BitAt(64 * k + rest, 32) == BitAt(rest, 32)
    ensures BitAt(128 * k + rest, 64) == BitAt(rest, 64)
  {
    Quotients(rest, k);
    Parity(rest / 1, k);
    Parity(rest / 2, k);
    Parity(rest / 4, k);
    Parity(rest / 8, k);
    Parity(rest / 16, k);
    Parity(rest / 32, k);
    Parity(rest / 64, k);
  }

  /** A bit of weight `top` above `rest` does not show at a lower weight. */
  lemma HigherBitIsUnseen(rest: nat, top: int, w: int)
    requires IsWeight(top) && IsWeight(w) && w < top
    ensures BitAt(top + rest, w) == BitAt(rest, w)
  {
    hide BitAt;
    match w
    case 1 => EvenIsUnseen(rest, top / 2);
    case 2 => EvenIsUnseen(rest, top / 4);
    case 4 => EvenIsUnseen(rest, top / 8);
    case 8 => EvenIsUnseen(rest, top / 16);
    case 16 => EvenIsUnseen(rest, top / 32);
    case 32 => EvenIsUnseen(rest, top / 64);
    case _ => EvenIsUnseen(rest, 1);
  }

  lemma OwnBit(rest: nat, top: int)
    requires IsWeight(top) && rest < top
    ensures BitAt(top + rest, top) && !BitAt(rest, top)
  {
    assert (top + rest) / top == 1 && rest / top == 0;
  }

  /** AND, OR and EOR work on each bit by itself. */
  lemma {:induction false} LogicIsBitByBit(g: Gate, x: int, y: int, top: int, w: int)
    requires IsWeight(top) && IsWeight(w) && w <= top
    ensures BitAt(Bitwise(g, x, y, top), w) <==> Through(g, BitAt(x, w), BitAt(y, w))
    decreases top
  {
    hide Through, BitAt;
    var rest := if top == 1 then 0 else Bitwise(g, x, y, top / 2);
    assert Bitwise(g, x, y, top) == (if Through(g, BitAt(x, top), BitAt(y, top)) then top else 0) + rest;
    if w < top {
      LogicIsBitByBit(g, x, y, top / 2, w);
      HigherBitIsUnseen(rest, top, w);
    } else {
      OwnBit(rest, top);
    }
  }

  /** The rotates are mutual inverses on the nine bits made of C and the byte. */
  lemma RolThenRor(r: Regs, t: byte)
    ensures var (r1, v) := Modify(ROL, r, t);
            Modify(ROR, r1, v).1 == t && CarryIn(Modify(ROR, r1, v).0.p) == CarryIn(r.p)
  {
    hide Modify, CarryIn, Wrap8;
    RotatesAre(r, t);
    var (r1, v) := Modify(ROL, r, t);
    RotatesAre(r1, v);
    NineBits(t, CarryIn(r.p));
  }

  lemma RorThenRol(r: Regs, t: byte)
    ensures var (r1, v) := Modify(ROR, r, t);
            Modify(ROL, r1, v).1 == t && CarryIn(Modify(ROL, r1, v).0.p) == CarryIn(r.p)
  {
    hide Modify, CarryIn, Wrap8;
    RotatesAre(r, t);
    var (r1, v) := Modify(ROR, r, t);
    RotatesAre(r1, v);
    NineBits(t, CarryIn(r.p));
  }

  /** Both rotations of nine bits, and back. */
  lemma NineBits(t: byte, c: int)
    requires 0 <= c <= 1
    ensures var v := Wrap8(t * 2) + c; v / 2 + (if t >= 128 then 128 else 0) == t && v % 2 == c
    ensures var v := t / 2 + c * 128; Wrap8(v * 2) + t % 2 == t && (v >= 128 <==> c == 1)
  {
    assert t == 2 * (t / 2) + t % 2;
    assert Wrap8(t * 2) == if t >= 128 then t * 2 - 256 else t * 2;
    assert Wrap8((t / 2 + c * 128) * 2) == 2 * (t / 2);
  }

  lemma RotatesAre(r: Regs, t: byte)
    ensures var (r1, v) := Modify(ROL, r, t);
            v == Wrap8(t * 2) + CarryIn(r.p) && CarryIn(r1.p) == if t >= 128 then 1 else 0
    ensures var (r1, v) := Modify(ROR, r, t);
            v == t / 2 + CarryIn(r.p) * 128 && CarryIn(r1.p) == t % 2
  {
    hide SetFlag, CarryIn, UpdateNz, Adc, Sbc, SetA, Compare, And8, Or8, Xor8;
    CarrySurvivesNz(r.p, t >= 128, Wrap8(t * 2) + CarryIn(r.p));
    CarrySurvivesNz(r.p, t % 2 == 1, t / 2 + CarryIn(r.p) * 128);
  }

  lemma CarrySurvivesNz(p: bv8, c: bool, v: byte)
    ensures CarryIn(UpdateNz(SetFlag(p, FLAG_CARRY, c), v)) == if c then 1 else 0
  {
  }
}
