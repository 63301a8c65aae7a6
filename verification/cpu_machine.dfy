/** `struct cpu`: the imperative core.  Every method mirrors a function of
    `cpu.c`, updates the registers and the bus in place, and is tied to its
    counterpart in `CpuSpec`. */
module CpuMachine {
  import opened Bytes
  import opened BusModel
  import opened Alu
  import opened OpcodeTable
  import S = CpuSpec

  /** `pc_trace`: a ring of 24 that always holds the latest transfers. */
  class TraceRing {
    const slots: array<S.Edge>
    var index: nat
    ghost var edges: seq<S.Edge>   // every edge since the last reset

    /** Edge number n sits in slot n modulo 24 until edge n + 24 replaces it. */
    ghost predicate Valid()
      reads this, slots
    {
      && slots.Length == 24
      && index == |edges| % 24
      && forall n :: 0 <= n < |edges| && |edges| - 24 <= n ==> slots[n % 24] == edges[n]
    }

    constructor ()
      ensures Valid() && edges == [] && fresh(slots)
    {
      slots := new S.Edge[24](_ => S.Edge(0, 0));
      index, edges := 0, [];
    }

    method Record(e: S.Edge)
      requires Valid()
      modifies this, slots
      ensures Valid() && edges == old(edges) + [e]
    {
      slots[index] := e;
      index := (index + 1) % 24;
      edges := edges + [e];
    }

    method Clear()
      requires Valid()
      modifies this, slots
      ensures Valid() && edges == []
    {
      index, edges := 0, [];
      for i := 0 to 24
        invariant index == 0 && edges == []
      {
        slots[i] := S.Edge(0, 0);
      }
    }

    /** The k-th latest transfer, while it is still in the ring. */
    method Latest(k: nat) returns (e: S.Edge)
      requires Valid() && k < 24 && k < |edges|
      ensures e == edges[|edges| - 1 - k]
    {
      e := slots[(index + 23 - k) % 24];
    }
  }

  lemma Quotient(x: int, k: int, r: int)
    requires x == r + 61 * k && 0 <= r < 61
    ensures x / 61 == k && x % 61 == r
  {
  }

  class Cpu {
    const bus: Bus
    const ring: TraceRing
    var a: byte
    var x: byte
    var y: byte
    var s: byte
    var p: bv8
    var pc: word
    var nmi: bool
    var irq: bool
    var halted: bool
    var last: nat
    var prevPc: word
    var prevValid: bool
    var refresh: bool
    var dram: nat             // the static accumulator of cpu_step

    ghost predicate Valid()
      reads this, bus, ring, ring.slots
    {
      bus.Valid() && ring.Valid() && dram < 61
    }

    ghost function R(): Regs
      reads this
    {
      Regs(a, x, y, s, p)
    }

    ghost function State(): (m: S.Machine)
      requires Valid()
      reads this, bus, bus.ram, bus.rom, ring, ring.slots
      ensures m.r == R() && m.pc == pc
    {
      S.Machine(R(), pc, nmi, irq, halted, last, bus.State(), prevPc, prevValid, ring.edges, refresh, dram)
    }

    /** `cpu_init`: frozen until RESET is pressed. */
    constructor (b: Bus, dramRefresh: bool)
      requires b.Valid()
      ensures Valid() && bus == b && fresh(ring) && fresh(ring.slots)
      ensures State() == S.Machine(Regs(0, 0, 0, 0, FLAG_UNUSED), 0, false, false, true, 0, b.State(),
                                   0, false, [], dramRefresh, 0)
    {
      bus := b;
      ring := new TraceRing();
      a, x, y, s, p, pc := 0, 0, 0, 0, FLAG_UNUSED, 0;
      nmi, irq, halted, last := false, false, true, 0;
      prevPc, prevValid := 0, false;
      refresh, dram := dramRefresh, 0;
    }

    // Memory helpers

    method ReadByte(addr: word) returns (v: byte)
      requires Valid()
      modifies bus
      ensures Valid()
      ensures (State(), v) == S.Rd(old(State()), addr)
    {
      v := bus.BusRead(addr);
    }

    method WriteByte(addr: word, v: byte)
      requires Valid()
      modifies bus, bus.ram
      ensures Valid()
      ensures State() == S.Wr(old(State()), addr, v)
    {
      bus.BusWrite(addr, v, Store);
    }

    method WriteByteDummy(addr: word, v: byte)
      requires Valid()
      modifies bus, bus.ram
      ensures Valid()
      ensures State() == S.WrDummy(old(State()), addr, v)
    {
      bus.BusWrite(addr, v, Dummy);
    }

    method ReadPc() returns (v: byte)
      requires Valid()
      modifies this`pc, bus
      ensures Valid()
      ensures (State(), v) == S.RdPc(old(State()))
    {
      v := ReadByte(pc);
      pc := Wrap16(pc + 1);
    }

    method ReadWord(addr: word) returns (w: word)
      requires Valid()
      modifies bus
      ensures Valid()
      ensures (State(), w) == S.RdWord(old(State()), addr)
    {
      hide Read;
      var lo := ReadByte(addr);
      var hi := ReadByte(Wrap16(addr + 1));
      w := Join(hi, lo);
    }

    method ReadZpWord(zp: byte) returns (w: word)
      requires Valid()
      modifies bus
      ensures Valid()
      ensures (State(), w) == S.RdZpWord(old(State()), zp)
    {
      hide Read;
      var lo := ReadByte(zp);
      var hi := ReadByte(Wrap8(zp + 1));
      w := Join(hi, lo);
    }

    // Stack helpers

    method PushByte(v: byte)
      requires Valid()
      modifies this`s, bus, bus.ram
      ensures Valid()
      ensures State() == S.Push(old(State()), v)
    {
      hide Write;
      WriteByte(0x100 + s, v);
      s := Wrap8(s - 1);
    }

    method PullByte() returns (v: byte)
      requires Valid()
      modifies this`s, bus
      ensures Valid()
      ensures (State(), v) == S.Pull(old(State()))
    {
      hide Read;
      s := Wrap8(s + 1);
      v := ReadByte(0x100 + s);
    }

    method PushWord(w: word)
      requires Valid()
      modifies this`s, bus, bus.ram
      ensures Valid()
      ensures State() == S.PushWord(old(State()), w)
    {
      hide S.Push;
      PushByte(Hi(w));
      PushByte(Lo(w));
    }

    method PullWord() returns (w: word)
      requires Valid()
      modifies this`s, bus
      ensures Valid()
      ensures (State(), w) == S.PullWord(old(State()))
    {
      hide S.Pull;
      var lo := PullByte();
      var hi := PullByte();
      w := Join(hi, lo);
    }

    // Flag helpers

    method PutFlag(f: bv8, cond: bool)
      modifies this`p
      ensures p == SetFlag(old(p), f, cond)
    {
      if cond { p := p | f; } else { p := p & !f; }
    }

    method PutNz(v: byte)
      modifies this`p
      ensures p == UpdateNz(old(p), v)
    {
      PutFlag(FLAG_ZERO, v == 0);
      PutFlag(FLAG_NEGATIVE, v >= 128);
    }

    // ADC / SBC arithmetic

    method AddBcd(m: byte)
      modifies this`a, this`p
      ensures R() == AdcBcd(old(R()), m)
    {
      hide SetFlag, Has, SignFlips, Pack, Wrap8;
      var carry := if Has(p, FLAG_CARRY) then 1 else 0;
      PutFlag(FLAG_ZERO, Wrap8(a + m + carry) == 0);
      var low := a % 16 + m % 16 + carry;
      var high := a / 16 + m / 16;
      if low > 9 {
        low := low - 10;
        high := high + 1;
      }
      var result: int := Pack(high, low);
      PutFlag(FLAG_NEGATIVE, result >= 128);
      PutFlag(FLAG_OVERFLOW, SignFlips(a, m, result));
      if high > 9 {
        result := Wrap8(result - 0xA0);
        PutFlag(FLAG_CARRY, true);
      } else {
        PutFlag(FLAG_CARRY, false);
      }
      a := result;
    }

    method SubBcd(m: byte)
      modifies this`a, this`p
      ensures R() == SbcBcd(old(R()), m)
    {
      hide SetFlag, Has, SignFlips, Pack, Wrap8;
      var carry := if Has(p, FLAG_CARRY) then 1 else 0;
      PutFlag(FLAG_ZERO, Wrap8(a + (255 - m) + carry) == 0);
      var low := a % 16 - m % 16 - (1 - carry);
      var high := a / 16 - m / 16;
      if low < 0 {
        low := low + 10;
        high := high - 1;
      }
      var result: int := Pack(high, low);
      PutFlag(FLAG_NEGATIVE, result >= 128);
      PutFlag(FLAG_OVERFLOW, SignFlips(a, 255 - m, result));
      if high < 0 {
        result := Wrap8(result + 0xA0);
        PutFlag(FLAG_CARRY, false);
      } else {
        PutFlag(FLAG_CARRY, true);
      }
      a := result;
    }

    method AddBin(m: byte)
      modifies this`a, this`p
      ensures R() == AdcBin(old(R()), m)
    {
      hide SetFlag, Has, SignFlips;
      var sum := a + m + if Has(p, FLAG_CARRY) then 1 else 0;
      PutFlag(FLAG_CARRY, sum > 0xFF);
      PutFlag(FLAG_ZERO, Wrap8(sum) == 0);
      PutFlag(FLAG_OVERFLOW, SignFlips(a, m, sum));
      PutFlag(FLAG_NEGATIVE, BitAt(sum, 128));
      a := Wrap8(sum);
    }

    method Add(m: byte)
      modifies this`a, this`p
      ensures R() == Adc(old(R()), m)
    {
      if Has(p, FLAG_DECIMAL) { AddBcd(m); } else { AddBin(m); }
    }

    method Subtract(m: byte)
      modifies this`a, this`p
      ensures R() == Sbc(old(R()), m)
    {
      if Has(p, FLAG_DECIMAL) { SubBcd(m); } else { AddBin(255 - m); }
    }

    method CompareWith(reg: byte, t: byte)
      modifies this`p
      ensures p == Compare(old(p), reg, t)
    {
      PutFlag(FLAG_CARRY, reg >= t);
      PutNz(Wrap8(reg - t));
    }

    /** ARR: AND, rotate right, with the decimal fix-up of C and A. */
    method RotateAnd(m: byte)
      modifies this`a, this`p
      ensures R() == Arr(old(R()), And8(old(a), m))
    {
      hide SetFlag, UpdateNz, Has, And8, BitAt;
      var value := And8(a, m);
      var result := value / 2 + CarryIn(p) * 128;
      var decimal := Has(p, FLAG_DECIMAL);
      PutFlag(FLAG_CARRY, BitAt(result, 64));
      PutNz(result);
      PutFlag(FLAG_OVERFLOW, BitAt(result, 64) != BitAt(result, 32));
      if decimal {
        var adjusted := result;
        if value % 16 + value % 2 > 5 {
          adjusted := adjusted / 16 * 16 + (adjusted + 6) % 16;
        }
        if value / 16 * 16 + value / 16 % 2 * 16 > 0x50 {
          adjusted := Wrap8(adjusted + 0x60);
          PutFlag(FLAG_CARRY, true);
        } else {
          PutFlag(FLAG_CARRY, false);
        }
        a := adjusted;
      } else {
        a := result;
      }
    }

    /** The register half of every instruction that reads an operand. */
    method ApplyLoad(op: LoadOp, m: byte)
      modifies this`a, this`x, this`y, this`s, this`p
      ensures R() == Load(op, old(R()), m)
    {
      hide And8, Or8, Xor8, UpdateNz, SetFlag, Adc, Sbc, Compare, Arr;
      match op
      case ADC => Add(m);
      case SBC => Subtract(m);
      case AND => a := And8(a, m); PutNz(a);
      case ORA => a := Or8(a, m); PutNz(a);
      case EOR => a := Xor8(a, m); PutNz(a);
      case BIT =>
        PutFlag(FLAG_ZERO, And8(a, m) == 0);
        PutFlag(FLAG_NEGATIVE, m >= 128);
        PutFlag(FLAG_OVERFLOW, BitAt(m, 64));
      case CMP => CompareWith(a, m);
      case CPX => CompareWith(x, m);
      case CPY => CompareWith(y, m);
      case LDA => a := m; PutNz(a);
      case LDX => x := m; PutNz(x);
      case LDY => y := m; PutNz(y);
      case LAX => x := m; a := x; PutNz(m);
      case NOP =>
      case LAS =>
        var v := And8(m, s);
        a, x, s := v, v, v;
        PutNz(v);
      case XAA => a := And8(And8(Or8(a, 0xEE), x), m); PutNz(a);
      case LXA => x := And8(Or8(a, 0xEE), m); a := x; PutNz(a);
      case ANC => a := And8(a, m); PutNz(a); PutFlag(FLAG_CARRY, a >= 128);
      case ALR =>
        a := And8(a, m);
        PutFlag(FLAG_CARRY, a % 2 == 1);
        a := a / 2;
        PutNz(a);
      case ARR => RotateAnd(m);
      case SBX =>
        var ax := And8(a, x);
        PutFlag(FLAG_CARRY, ax >= m);
        x := Wrap8(ax - m);
        PutNz(x);
    }

    /** The register half of read-modify-write: returns the byte to store. */
    method ApplyModify(op: ModifyOp, m: byte) returns (t: byte)
      modifies this`a, this`p
      ensures (R(), t) == Modify(op, old(R()), m)
    {
      hide And8, Or8, Xor8, UpdateNz, SetFlag, Adc, Sbc, Compare, CarryIn;
      t := m;
      var c := CarryIn(p);
      match op
      case ASL => PutFlag(FLAG_CARRY, t >= 128); t := Wrap8(t * 2); PutNz(t);
      case LSR => PutFlag(FLAG_CARRY, t % 2 == 1); t := t / 2; PutNz(t);
      case ROL => PutFlag(FLAG_CARRY, t >= 128); t := Wrap8(t * 2) + c; PutNz(t);
      case ROR => PutFlag(FLAG_CARRY, t % 2 == 1); t := t / 2 + c * 128; PutNz(t);
      case INC => t := Wrap8(t + 1); PutNz(t);
      case DEC => t := Wrap8(t - 1); PutNz(t);
      case SLO => PutFlag(FLAG_CARRY, t >= 128); t := Wrap8(t * 2); a := Or8(a, t); PutNz(a);
      case RLA => PutFlag(FLAG_CARRY, t >= 128); t := Wrap8(t * 2) + c; a := And8(a, t); PutNz(a);
      case SRE => PutFlag(FLAG_CARRY, t % 2 == 1); t := t / 2; a := Xor8(a, t); PutNz(a);
      case RRA => PutFlag(FLAG_CARRY, t % 2 == 1); t := t / 2 + c * 128; Add(t);
      case DCP => t := Wrap8(t - 1); CompareWith(a, t);
      case ISC => t := Wrap8(t + 1); Subtract(t);
    }

    method ApplyImplied(op: ImpliedOp)
      modifies this`a, this`x, this`y, this`s, this`p
      ensures R() == Implied(op, old(R()))
    {
      hide UpdateNz, SetFlag, Modify;
      match op
      case ASLA => a := ApplyModify(ASL, a);
      case LSRA => a := ApplyModify(LSR, a);
      case ROLA => a := ApplyModify(ROL, a);
      case RORA => a := ApplyModify(ROR, a);
      case CLC => PutFlag(FLAG_CARRY, false);
      case CLI => PutFlag(FLAG_INTERRUPT, false);
      case CLV => PutFlag(FLAG_OVERFLOW, false);
      case CLD => PutFlag(FLAG_DECIMAL, false);
      case SEC => PutFlag(FLAG_CARRY, true);
      case SEI => PutFlag(FLAG_INTERRUPT, true);
      case SED => PutFlag(FLAG_DECIMAL, true);
      case DEX => x := Wrap8(x - 1); PutNz(x);
      case DEY => y := Wrap8(y - 1); PutNz(y);
      case INX => x := Wrap8(x + 1); PutNz(x);
      case INY => y := Wrap8(y + 1); PutNz(y);
      case TAX => x := a; PutNz(x);
      case TAY => y := a; PutNz(y);
      case TSX => x := s; PutNz(x);
      case TXA => a := x; PutNz(a);
      case TXS => s := x;
      case TYA => a := y; PutNz(a);
      case NOPI =>
    }

    // Addressing modes: effective address and page-crossing flag

    method AddrAbs() returns (ea: word)
      requires Valid()
      modifies this`pc, bus
      ensures Valid()
      ensures (State(), ea) == S.AddrAbs(old(State()))
    {
      hide S.RdWord;
      ea := ReadWord(pc);
      pc := Wrap16(pc + 2);
    }

    method AddrZpIndexed(index: byte) returns (ea: word)
      requires Valid()
      modifies this`pc, bus
      ensures Valid()
      ensures (State(), ea, false) == S.AddrZpIndexed(old(State()), index)
    {
      hide Read;
      var base := ReadPc();
      var _ := ReadByte(base);
      ea := Wrap8(base + index);
    }

    method AddrIzX() returns (ea: word)
      requires Valid()
      modifies this`pc, bus
      ensures Valid()
      ensures (State(), ea) == S.AddrIzX(old(State()))
    {
      hide Read, S.RdZpWord;
      var raw := ReadPc();
      var _ := ReadByte(raw);
      ea := ReadZpWord(Wrap8(raw + x));
    }

    method IndirectBase() returns (base: word)
      requires Valid()
      modifies this`pc, bus
      ensures Valid()
      ensures (State(), base) == S.IndirectBase(old(State()))
    {
      hide Read, S.RdZpWord;
      var zp := ReadPc();
      base := ReadZpWord(zp);
    }

    method AddIndex(base: word, index: byte, always: bool) returns (ea: word, px: bool)
      requires Valid()
      modifies bus
      ensures Valid()
      ensures (State(), ea, px) == S.Indexed(old(State()), base, index, always)
    {
      hide Read, Hi, Lo, Join;
      ea := Wrap16(base + index);
      px := Hi(base) != Hi(ea);
      if px || always {
        var _ := ReadByte(Join(Hi(base), Lo(ea)));
      }
    }

    method AddrInd() returns (ea: word)
      requires Valid()
      modifies this`pc, bus
      ensures Valid()
      ensures (State(), ea) == S.AddrInd(old(State()))
    {
      hide Read, S.AddrAbs, S.RdWord, Hi, Lo, Join;
      var ptr := AddrAbs();
      if Lo(ptr) == 0xFF {
        var lo := ReadByte(ptr);
        var hi := ReadByte(Join(Hi(ptr), 0));
        ea := Join(hi, lo);
      } else {
        ea := ReadWord(ptr);
      }
    }

    method Address(mode: Mode, always: bool) returns (ea: word, px: bool)
      requires Valid()
      modifies this`pc, bus
      ensures Valid()
      ensures (State(), ea, px) == S.Address(old(State()), mode, always)
    {
      hide S.RdPc, S.AddrAbs, S.AddrZpIndexed, S.AddrIzX, S.IndirectBase, S.Indexed;
      px := false;
      match mode
      case Imm => ea := pc; pc := Wrap16(pc + 1);
      case Zp => ea := ReadPc();
      case ZpX => ea := AddrZpIndexed(x);
      case ZpY => ea := AddrZpIndexed(y);
      case Abs => ea := AddrAbs();
      case AbsX => var base := AddrAbs(); ea, px := AddIndex(base, x, always);
      case AbsY => var base := AddrAbs(); ea, px := AddIndex(base, y, always);
      case IzX => ea := AddrIzX();
      case IzY => var base := IndirectBase(); ea, px := AddIndex(base, y, always);
    }

    // Single updates, stated on the whole machine

    /** `cpu->last_cycles = cycles`. */
    method Charge(cycles: nat)
      requires Valid()
      modifies this`last
      ensures Valid()
      ensures State() == old(State()).(last := cycles)
    {
      last := cycles;
    }

    method JumpTo(target: word)
      requires Valid()
      modifies this`pc
      ensures Valid()
      ensures State() == old(State()).(pc := target)
    {
      pc := target;
    }

    method LoadRegs(op: LoadOp, m: byte)
      requires Valid()
      modifies this`a, this`x, this`y, this`s, this`p
      ensures Valid()
      ensures State() == old(State()).(r := Load(op, old(State()).r, m))
    {
      hide TraceRing.Valid, Load;
      ApplyLoad(op, m);
    }

    method ModifyRegs(op: ModifyOp, m: byte) returns (t: byte)
      requires Valid()
      modifies this`a, this`p
      ensures Valid()
      ensures (State(), t) == (old(State()).(r := Modify(op, old(R()), m).0), Modify(op, old(R()), m).1)
    {
      hide TraceRing.Valid, Modify;
      t := ApplyModify(op, m);
    }

    method ImpliedRegs(op: ImpliedOp)
      requires Valid()
      modifies this`a, this`x, this`y, this`s, this`p
      ensures Valid()
      ensures State() == old(State()).(r := Implied(op, old(R())))
    {
      hide TraceRing.Valid, Implied;
      ApplyImplied(op);
    }

    // Handlers

    method Operand(mode: Mode) returns (v: byte, px: bool)
      requires Valid()
      modifies this`pc, bus
      ensures Valid()
      ensures (State(), v, px) == S.Operand(old(State()), mode)
    {
      hide Valid, State, S.Address, S.Rd;
      var ea;
      ea, px := Address(mode, false);
      v := ReadByte(ea);
    }

    method FinishLoad(op: LoadOp, v: byte, cycles: nat)
      requires Valid()
      modifies this`a, this`x, this`y, this`s, this`p, this`last
      ensures Valid()
      ensures State() == S.Loaded(old(State()), op, v, cycles)
    {
      hide Valid, State, Load;
      LoadRegs(op, v);
      Charge(cycles);
    }

    method ExecLoad(op: LoadOp, mode: Mode, cycles: nat)
      requires Valid()
      modifies this`a, this`x, this`y, this`s, this`p, this`pc, this`halted, this`last, bus, bus.ram
      ensures Valid()
      ensures State() == S.ExecLoad(old(State()), op, mode, cycles)
    {
      hide Valid, State, S.Operand, S.Loaded;
      var v, px := Operand(mode);
      FinishLoad(op, v, cycles + if px then 1 else 0);
    }

    /** The read-modify-write cores: read, write back, write the result. */
    method ModifyAt(op: ModifyOp, ea: word)
      requires Valid()
      modifies this`a, this`p, bus, bus.ram
      ensures Valid()
      ensures State() == S.ModifyAt(old(State()), op, ea)
    {
      hide Valid, State, S.Rd, S.Wr, S.WrDummy, Modify;
      var t := ReadByte(ea);
      WriteByteDummy(ea, t);
      t := ModifyRegs(op, t);
      WriteByte(ea, t);
    }

    method ExecModify(op: ModifyOp, mode: Mode, cycles: nat)
      requires Valid()
      modifies this`a, this`x, this`y, this`s, this`p, this`pc, this`halted, this`last, bus, bus.ram
      ensures Valid()
      ensures State() == S.ExecModify(old(State()), op, mode, cycles)
    {
      hide Valid, State, S.Address, S.ModifyAt;
      var ea, _ := Address(mode, true);
      ModifyAt(op, ea);
      Charge(cycles);
    }

    method StoreAt(op: StoreOp, ea: word, fix: bool)
      requires Valid()
      modifies bus, bus.ram
      ensures Valid()
      ensures State() == S.StoreAt(old(State()), op, ea, fix)
    {
      hide Valid, State, S.Rd, S.Wr, And8;
      if fix {
        var _ := ReadByte(ea);
      }
      match op
      case STA => WriteByte(ea, a);
      case STX => WriteByte(ea, x);
      case STY => WriteByte(ea, y);
      case SAX => WriteByte(ea, And8(a, x));
    }

    method ExecStore(op: StoreOp, mode: Mode, cycles: nat)
      requires Valid()
      modifies this`a, this`x, this`y, this`s, this`p, this`pc, this`halted, this`last, bus, bus.ram
      ensures Valid()
      ensures State() == S.ExecStore(old(State()), op, mode, cycles)
    {
      hide Valid, State, S.Address, S.StoreAt;
      var ea, px := Address(mode, false);
      StoreAt(op, ea, NeedsFix(mode) && !px);
      Charge(cycles);
    }

    /** The common tail of SHX, SHY, AHX and TAS. */
    method StoreAcross(base: word, ea: word, v: byte)
      requires Valid()
      modifies bus, bus.ram
      ensures Valid()
      ensures State() == S.StoreAcross(old(State()), base, ea, v)
    {
      hide Valid, State, S.Rd, S.Wr, Hi, Lo, Join;
      var _ := ReadByte(Join(Hi(base), Lo(ea)));
      var target := ea;
      if Hi(base) != Hi(ea) {
        target := Join(v, Lo(ea));
      }
      WriteByte(target, v);
    }

    method SetStack(v: byte)
      requires Valid()
      modifies this`s
      ensures Valid()
      ensures State() == old(State()).(r := old(R()).(s := v))
    {
      s := v;
    }

    method UnstableBase(op: UnstableOp, mode: Mode) returns (base: word)
      requires Valid()
      modifies this`s, this`pc, bus
      ensures Valid()
      ensures (State(), base) == S.UnstableBase(old(State()), op, mode)
    {
      hide Valid, State, S.IndirectBase, S.AddrAbs, Masked;
      var v := Masked(op, Regs(a, x, y, s, p));
      if mode.IzY? { base := IndirectBase(); } else { base := AddrAbs(); }
      if op.TAS? { SetStack(v); }
    }

    method ExecUnstable(op: UnstableOp, mode: Mode, cycles: nat)
      requires Valid()
      modifies this`a, this`x, this`y, this`s, this`p, this`pc, this`halted, this`last, bus, bus.ram
      ensures Valid()
      ensures State() == S.ExecUnstable(old(State()), op, mode, cycles)
    {
      hide Valid, State, S.UnstableBase, S.StoreAcross, And8, Hi, Masked, Wrap8, Wrap16;
      var v := Masked(op, Regs(a, x, y, s, p));
      var index := if op.SHY? then x else y;
      var base := UnstableBase(op, mode);
      StoreAcross(base, Wrap16(base + index), And8(v, Wrap8(Hi(base) + 1)));
      Charge(cycles);
    }

    method ExecImplied(op: ImpliedOp, cycles: nat)
      requires Valid()
      modifies this`a, this`x, this`y, this`s, this`p, this`pc, this`halted, this`last, bus, bus.ram
      ensures Valid()
      ensures State() == S.ExecImplied(old(State()), op, cycles)
    {
      hide Valid, State, S.Rd, Implied;
      var _ := ReadByte(pc);
      ImpliedRegs(op);
      Charge(cycles);
    }

    /** Returns the extra cycles of a taken branch. */
    method DoBranch(cond: bool) returns (extra: nat)
      requires Valid()
      modifies this`pc, bus
      ensures Valid()
      ensures (State(), extra) == S.DoBranch(old(State()), cond)
    {
      hide Valid, State, S.RdPc, S.Rd, Hi, Lo, Join, S.BranchTarget;
      var offset := ReadPc();
      extra := 0;
      if cond {
        var next := pc;
        var _ := ReadByte(next);
        var target := S.BranchTarget(next, offset);
        extra := 1;
        if Hi(next) != Hi(target) {
          var _ := ReadByte(Join(Hi(next), Lo(target)));
          extra := 2;
        }
        JumpTo(target);
      }
    }

    method ExecBranch(op: BranchOp, cycles: nat)
      requires Valid()
      modifies this`a, this`x, this`y, this`s, this`p, this`pc, this`halted, this`last, bus, bus.ram
      ensures Valid()
      ensures State() == S.ExecBranch(old(State()), op, cycles)
    {
      hide Valid, State, S.DoBranch, Taken;
      var extra := DoBranch(Taken(op, p));
      Charge(cycles + extra);
    }

    method ExecJsr(cycles: nat)
      requires Valid()
      modifies this`a, this`x, this`y, this`s, this`p, this`pc, this`halted, this`last, bus, bus.ram
      ensures Valid()
      ensures State() == S.ExecJsr(old(State()), cycles)
    {
      hide Valid, State, S.RdPc, S.Rd, S.PushWord, Join;
      var lo := ReadPc();
      var _ := ReadByte(0x100 + s);
      PushWord(pc);
      var hi := ReadByte(pc);
      JumpTo(Join(hi, lo));
      Charge(cycles);
    }

    method ExecRts(cycles: nat)
      requires Valid()
      modifies this`a, this`x, this`y, this`s, this`p, this`pc, this`halted, this`last, bus, bus.ram
      ensures Valid()
      ensures State() == S.ExecRts(old(State()), cycles)
    {
      hide Valid, State, S.Rd, S.PullWord;
      var _ := ReadByte(pc);
      var _ := ReadByte(0x100 + s);
      var w: word := PullWord();
      var _ := ReadByte(w);
      JumpTo(Wrap16(w + 1));
      Charge(cycles);
    }

    method PullStatus()
      requires Valid()
      modifies this`s, this`p, bus
      ensures Valid()
      ensures State() == S.PullStatus(old(State()))
    {
      hide Read, S.ByteStatus;
      var v := PullByte();
      p := (S.ByteStatus(v) & !FLAG_BREAK) | FLAG_UNUSED;
    }

    method ExecRti(cycles: nat)
      requires Valid()
      modifies this`a, this`x, this`y, this`s, this`p, this`pc, this`halted, this`last, bus, bus.ram
      ensures Valid()
      ensures State() == S.ExecRti(old(State()), cycles)
    {
      hide Valid, State, S.Rd, S.PullStatus, S.PullWord;
      var _ := ReadByte(pc);
      var _ := ReadByte(0x100 + s);
      PullStatus();
      var w := PullWord();
      JumpTo(w);
      Charge(cycles);
    }

    method MaskIrq()
      requires Valid()
      modifies this`p
      ensures Valid()
      ensures State() == old(State()).(r := old(R()).(p := SetFlag(old(p), FLAG_INTERRUPT, true)))
    {
      PutFlag(FLAG_INTERRUPT, true);
    }

    /** Push PC and P, load the vector, mask IRQ. */
    method Trap(brk: bool, vector: word)
      requires Valid()
      modifies this`s, this`p, this`pc, bus, bus.ram
      ensures Valid()
      ensures State() == S.Trap(old(State()), brk, vector)
    {
      hide Valid, State, S.PushWord, S.Push, S.RdWord, S.PushedStatus, SetFlag;
      PushWord(pc);
      PushByte(S.PushedStatus(p, brk));
      var w := ReadWord(vector);
      JumpTo(w);
      MaskIrq();
    }

    method ExecBrk(cycles: nat)
      requires Valid()
      modifies this`a, this`x, this`y, this`s, this`p, this`pc, this`halted, this`last, bus, bus.ram
      ensures Valid()
      ensures State() == S.ExecBrk(old(State()), cycles)
    {
      hide Valid, State, S.RdPc, S.Trap;
      var _ := ReadPc();
      Trap(true, S.IRQ_VECTOR);
      Charge(cycles);
    }

    method ExecPush(v: byte, cycles: nat)
      requires Valid()
      modifies this`a, this`x, this`y, this`s, this`p, this`pc, this`halted, this`last, bus, bus.ram
      ensures Valid()
      ensures State() == S.Push(S.Rd(old(State()), old(pc)).0, v).(last := cycles)
    {
      hide Valid, State, S.Rd, S.Push;
      var _ := ReadByte(pc);
      PushByte(v);
      Charge(cycles);
    }

    method ExecPla(cycles: nat)
      requires Valid()
      modifies this`a, this`x, this`y, this`s, this`p, this`pc, this`halted, this`last, bus, bus.ram
      ensures Valid()
      ensures State() == S.ExecPla(old(State()), cycles)
    {
      hide Valid, State, S.Rd, S.Pull, UpdateNz;
      var _ := ReadByte(pc);
      var _ := ReadByte(0x100 + s);
      var v := PullByte();
      LoadRegs(LDA, v);
      Charge(cycles);
    }

    method ExecPlp(cycles: nat)
      requires Valid()
      modifies this`a, this`x, this`y, this`s, this`p, this`pc, this`halted, this`last, bus, bus.ram
      ensures Valid()
      ensures State() == S.ExecPlp(old(State()), cycles)
    {
      hide Valid, State, S.Rd, S.PullStatus;
      var _ := ReadByte(pc);
      var _ := ReadByte(0x100 + s);
      PullStatus();
      Charge(cycles);
    }

    method Halt()
      requires Valid()
      modifies this`halted
      ensures Valid()
      ensures State() == old(State()).(halted := true)
    {
      halted := true;
    }

    method ExecJam(cycles: nat)
      requires Valid()
      modifies this`a, this`x, this`y, this`s, this`p, this`pc, this`halted, this`last, bus, bus.ram
      ensures Valid()
      ensures State() == S.Exec(old(State()), Jam(cycles))
    {
      hide Valid, State, S.Rd;
      var _ := ReadByte(Wrap16(pc - 1));
      JumpTo(Wrap16(pc - 1));
      Halt();
      Charge(cycles);
    }

    method ExecJmpAbs(cycles: nat)
      requires Valid()
      modifies this`a, this`x, this`y, this`s, this`p, this`pc, this`halted, this`last, bus, bus.ram
      ensures Valid()
      ensures State() == S.Exec(old(State()), JmpAbs(cycles))
    {
      hide Valid, State, S.AddrAbs;
      var ea := AddrAbs();
      JumpTo(ea);
      Charge(cycles);
    }

    method ExecJmpInd(cycles: nat)
      requires Valid()
      modifies this`a, this`x, this`y, this`s, this`p, this`pc, this`halted, this`last, bus, bus.ram
      ensures Valid()
      ensures State() == S.Exec(old(State()), JmpInd(cycles))
    {
      hide Valid, State, S.AddrInd;
      var ea := AddrInd();
      JumpTo(ea);
      Charge(cycles);
    }

    /** Handlers that address memory or branch. */
    predicate IsPlain(h: Handler) {
      h.OnLoad? || h.OnModify? || h.OnStore? || h.OnUnstable? || h.OnImplied? || h.OnBranch? || h.JmpAbs? || h.JmpInd?
    }

    method ExecPlain(h: Handler)
      requires Valid() && IsPlain(h)
      modifies this`a, this`x, this`y, this`s, this`p, this`pc, this`halted, this`last, bus, bus.ram
      ensures Valid()
      ensures State() == S.Exec(old(State()), h)
    {
      hide Valid, State, S.ExecLoad, S.ExecModify, S.ExecStore, S.ExecUnstable, S.ExecImplied, S.ExecBranch;
      match h
      case OnLoad(op, mode, n) => ExecLoad(op, mode, n);
      case OnModify(op, mode, n) => ExecModify(op, mode, n);
      case OnStore(op, mode, n) => ExecStore(op, mode, n);
      case OnUnstable(op, mode, n) => ExecUnstable(op, mode, n);
      case OnImplied(op, n) => ExecImplied(op, n);
      case OnBranch(op, n) => ExecBranch(op, n);
      case JmpAbs(n) => ExecJmpAbs(n);
      case JmpInd(n) => ExecJmpInd(n);
    }

    /** `dispatch[opcode](cpu)`. */
    method Exec(h: Handler)
      requires Valid()
      modifies this`a, this`x, this`y, this`s, this`p, this`pc, this`halted, this`last, bus, bus.ram
      ensures Valid()
      ensures State() == S.Exec(old(State()), h)
    {
      hide Valid, State, S.ExecJsr, S.ExecRts, S.ExecRti, S.ExecBrk, S.ExecPla, S.ExecPlp, S.Push, S.Rd, S.PushedStatus;
      if IsPlain(h) {
        hide S.Exec;
        ExecPlain(h);
        return;
      }
      match h
      case Jsr(n) => ExecJsr(n);
      case Rts(n) => ExecRts(n);
      case Rti(n) => ExecRti(n);
      case Brk(n) => ExecBrk(n);
      case Pha(n) => ExecPush(a, n);
      case Php(n) => ExecPush(S.PushedStatus(p, true), n);
      case Pla(n) => ExecPla(n);
      case Plp(n) => ExecPlp(n);
      case Jam(n) => ExecJam(n);
    }

    // cpu_step

    /** Records a non-sequential transfer in the ring. */
    method NoteTransfer()
      requires Valid()
      modifies this`prevPc, this`prevValid, ring, ring.slots
      ensures Valid()
      ensures State() == S.NoteTransfer(old(State()))
    {
      if prevValid {
        var delta := pc - prevPc;
        if delta < 0 || delta > 3 {
          ring.Record(S.Edge(prevPc, pc));
        }
      }
      prevPc := pc;
      prevValid := true;
    }

    method Interrupt(vector: word)
      requires Valid()
      modifies this`s, this`p, this`pc, bus, bus.ram
      ensures Valid()
      ensures State() == S.Interrupt(old(State()), vector)
    {
      hide Valid, State, S.Rd, S.Trap;
      var _ := ReadByte(pc);
      Trap(false, vector);
    }

    /** The refresh loop: every whole group of 61 steals one cycle. */
    method StealCycles(cycles: nat) returns (total: nat)
      requires Valid()
      modifies this`dram
      ensures Valid()
      ensures State() == old(State()).(dram := S.Steal(old(dram), cycles).0)
      ensures total == cycles + S.Steal(old(dram), cycles).1
    {
      total := cycles;
      dram := dram + cycles * 4;
      while dram >= 61
        invariant bus.Valid() && ring.Valid()
        invariant dram + 61 * (total - cycles) == old(dram) + 4 * cycles && total >= cycles
      {
        dram := dram - 61;
        total := total + 1;
      }
      Quotient(old(dram) + 4 * cycles, total - cycles, dram);
    }

    /** Fetch and dispatch one opcode. */
    method Dispatch() returns (cycles: nat)
      requires Valid()
      modifies this, bus, bus.ram, ring, ring.slots
      ensures Valid()
      ensures State() == S.Dispatch(old(State())) && cycles == last
    {
      hide Valid, State, S.RdPc, S.NoteTransfer, S.Exec, Decode;
      NoteTransfer();
      var opcode := ReadPc();
      Exec(Decode(opcode));
      cycles := last;
    }

    method ClearNmi()
      requires Valid()
      modifies this`nmi
      ensures Valid()
      ensures State() == old(State()).(nmi := false)
    {
      nmi := false;
    }

    method ClearIrq()
      requires Valid()
      modifies this`irq
      ensures Valid()
      ensures State() == old(State()).(irq := false)
    {
      irq := false;
    }

    /** Acknowledge a pending interrupt and enter its handler. */
    method Serve(isNmi: bool)
      requires Valid()
      modifies this, bus, bus.ram, ring, ring.slots
      ensures Valid()
      ensures State() == (if isNmi then S.Interrupt(S.NoteTransfer(old(State())).(nmi := false), S.NMI_VECTOR)
                          else S.Interrupt(S.NoteTransfer(old(State())).(irq := false), S.IRQ_VECTOR))
    {
      hide Valid, State, S.NoteTransfer, S.Interrupt;
      NoteTransfer();
      if isNmi {
        ClearNmi();
        Interrupt(S.NMI_VECTOR);
      } else {
        ClearIrq();
        Interrupt(S.IRQ_VECTOR);
      }
    }

    method Step() returns (cycles: nat)
      requires Valid()
      modifies this, bus, bus.ram, ring, ring.slots
      ensures Valid()
      ensures (State(), cycles) == S.Step(old(State()))
    {
      hide TraceRing.Valid, Bus.State, S.NoteTransfer, S.Interrupt, S.Dispatch, S.Steal, Has;
      if halted { return 1; }
      if nmi {
        Serve(true);
        return 7;
      }
      if irq && !Has(p, FLAG_INTERRUPT) {
        Serve(false);
        return 7;
      }
      cycles := Dispatch();
      if refresh {
        cycles := StealCycles(cycles);
      }
    }

    // Lines and reset

    method SetIrq(level: bool)
      requires Valid()
      modifies this`irq
      ensures Valid()
      ensures State() == S.Signal(old(State()), S.Lines(false, S.DriveIrq(level), S.NoKey))
    {
      irq := level;
    }

    method RaiseNmi()
      requires Valid()
      modifies this`nmi
      ensures Valid()
      ensures State() == S.Signal(old(State()), S.Lines(true, S.KeepIrq, S.NoKey))
    {
      nmi := true;
    }

    method ResetRegisters()
      requires Valid()
      modifies this`a, this`x, this`y, this`s, this`p
      ensures Valid()
      ensures State() == old(State()).(r := S.ResetRegs())
    {
      a, x, y, s, p := 0, 0, 0, 0xFD, FLAG_UNUSED | FLAG_INTERRUPT;
    }

    method ResetLines()
      requires Valid()
      modifies this`nmi, this`irq, this`halted
      ensures Valid()
      ensures State() == old(State()).(nmi := false, irq := false, halted := false)
    {
      nmi, irq, halted := false, false, false;
    }

    method ClearTrace()
      requires Valid()
      modifies this`prevPc, this`prevValid, ring, ring.slots
      ensures Valid()
      ensures State() == old(State()).(prevPc := 0, prevValid := false, edges := [])
    {
      prevPc, prevValid := 0, false;
      ring.Clear();
    }

    method Reset()
      requires Valid()
      modifies this, bus, ring, ring.slots
      ensures Valid()
      ensures State() == S.Reset(old(State()))
    {
      hide Valid, State, Read;
      ResetRegisters();
      ResetLines();
      var w := ReadWord(S.RESET_VECTOR);
      JumpTo(w);
      ClearTrace();
    }
  }
}
