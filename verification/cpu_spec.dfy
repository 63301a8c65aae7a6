/** `cpu_step` as a function on machine states.  Each helper performs the bus
    cycles of its counterpart in `cpu.c` in the same order, dummies included. */
module CpuSpec {
  import opened Bytes
  import opened BusModel
  import opened Alu
  import opened OpcodeTable

  const NMI_VECTOR: word := 0xFFFA
  const RESET_VECTOR: word := 0xFFFC
  const IRQ_VECTOR: word := 0xFFFE

  /** A recorded non-sequential transfer of control. */
  datatype Edge = Edge(from: word, to: word)

  /** `struct cpu` with its bus, the static DRAM accumulator of `cpu_step`, and
      every edge recorded so far (the ring in `struct cpu` keeps the last 24). */
  datatype Machine = Machine(
    r: Regs, pc: word, nmi: bool, irq: bool, halted: bool, last: nat, bus: BusState,
    prevPc: word, prevValid: bool, edges: seq<Edge>, refresh: bool, dram: nat)

  // Memory helpers

  function Rd(m: Machine, addr: word): (Machine, byte) {
    var (b, v) := Read(m.bus, addr);
    (m.(bus := b), v)
  }

  function Wr(m: Machine, addr: word, v: byte): Machine { m.(bus := Write(m.bus, addr, v, Store)) }

  function WrDummy(m: Machine, addr: word, v: byte): Machine { m.(bus := Write(m.bus, addr, v, Dummy)) }

  /** `read_byte(cpu, cpu->pc++)`. */
  function RdPc(m: Machine): (Machine, byte) {
    var (m1, v) := Rd(m, m.pc);
    (m1.(pc := Wrap16(m.pc + 1)), v)
  }

  function RdWord(m: Machine, addr: word): (Machine, word) {
    var (m1, lo) := Rd(m, addr);
    var (m2, hi) := Rd(m1, Wrap16(addr + 1));
    (m2, Join(hi, lo))
  }

  /** A zero-page pointer wraps inside page zero. */
  function RdZpWord(m: Machine, zp: byte): (Machine, word) {
    var (m1, lo) := Rd(m, zp);
    var (m2, hi) := Rd(m1, Wrap8(zp + 1));
    (m2, Join(hi, lo))
  }

  // Stack helpers

  function StackTop(m: Machine): word { 0x100 + m.r.s }

  function Push(m: Machine, v: byte): Machine {
    var m1 := Wr(m, StackTop(m), v);
    m1.(r := m1.r.(s := Wrap8(m1.r.s - 1)))
  }

  function Pull(m: Machine): (Machine, byte) {
    var m1 := m.(r := m.r.(s := Wrap8(m.r.s + 1)));
    Rd(m1, StackTop(m1))
  }

  function PushWord(m: Machine, w: word): Machine { Push(Push(m, Hi(w)), Lo(w)) }

  function PullWord(m: Machine): (Machine, word) {
    var (m1, lo) := Pull(m);
    var (m2, hi) := Pull(m1);
    (m2, Join(hi, lo))
  }

  // Addressing modes: new machine, effective address, page-crossing flag.
  // `always` selects the variant that issues the uncorrected read on every run.

  function Uncorrected(base: word, a: word): word { Join(Hi(base), Lo(a)) }

  function Indexed(m: Machine, base: word, index: byte, always: bool): (Machine, word, bool) {
    var a := Wrap16(base + index);
    var px := Hi(base) != Hi(a);
    (if px || always then Rd(m, Uncorrected(base, a)).0 else m, a, px)
  }

  function AddrZpIndexed(m: Machine, index: byte): (Machine, word, bool) {
    var (m1, base) := RdPc(m);
    (Rd(m1, base).0, Wrap8(base + index), false)
  }

  function AddrAbs(m: Machine): (Machine, word) {
    var (m1, a) := RdWord(m, m.pc);
    (m1.(pc := Wrap16(m1.pc + 2)), a)
  }

  function AddrIzX(m: Machine): (Machine, word) {
    var (m1, raw) := RdPc(m);
    RdZpWord(Rd(m1, raw).0, Wrap8(raw + m.r.x))
  }

  function IndirectBase(m: Machine): (Machine, word) {
    var (m1, zp) := RdPc(m);
    RdZpWord(m1, zp)
  }

  /** JMP (ptr): the high byte never leaves the pointer's page. */
  function AddrInd(m: Machine): (Machine, word) {
    var (m1, ptr) := AddrAbs(m);
    if Lo(ptr) == 0xFF then
      var (m2, lo) := Rd(m1, ptr);
      var (m3, hi) := Rd(m2, Join(Hi(ptr), 0));
      (m3, Join(hi, lo))
    else RdWord(m1, ptr)
  }

  function Address(m: Machine, mode: Mode, always: bool): (Machine, word, bool) {
    match mode
    case Imm => (m.(pc := Wrap16(m.pc + 1)), m.pc, false)
    case Zp => var (m1, a) := RdPc(m); (m1, a, false)
    case ZpX => AddrZpIndexed(m, m.r.x)
    case ZpY => AddrZpIndexed(m, m.r.y)
    case Abs => var (m1, a) := AddrAbs(m); (m1, a, false)
    case AbsX => var (m1, base) := AddrAbs(m); Indexed(m1, base, m.r.x, always)
    case AbsY => var (m1, base) := AddrAbs(m); Indexed(m1, base, m.r.y, always)
    case IzX => var (m1, a) := AddrIzX(m); (m1, a, false)
    case IzY => var (m1, base) := IndirectBase(m); Indexed(m1, base, m.r.y, always)
  }

  // Handlers

  function Operand(m: Machine, mode: Mode): (Machine, byte, bool) {
    var (m1, a, px) := Address(m, mode, false);
    var (m2, v) := Rd(m1, a);
    (m2, v, px)
  }

  function Loaded(m: Machine, op: LoadOp, v: byte, cycles: nat): Machine {
    m.(r := Load(op, m.r, v), last := cycles)
  }

  function ExecLoad(m: Machine, op: LoadOp, mode: Mode, cycles: nat): Machine {
    var (m1, v, px) := Operand(m, mode);
    Loaded(m1, op, v, cycles + if px then 1 else 0)
  }

  /** Read, write back unmodified, write the result. */
  function ModifyAt(m: Machine, op: ModifyOp, a: word): Machine {
    var (m1, t) := Rd(m, a);
    var m2 := WrDummy(m1, a, t);
    var (r, t') := Modify(op, m2.r, t);
    Wr(m2.(r := r), a, t')
  }

  function ExecModify(m: Machine, op: ModifyOp, mode: Mode, cycles: nat): Machine {
    var (m1, a, px) := Address(m, mode, true);
    ModifyAt(m1, op, a).(last := cycles)
  }

  function StoreAt(m: Machine, op: StoreOp, a: word, fix: bool): Machine {
    var m1 := if fix then Rd(m, a).0 else m;
    Wr(m1, a, Stored(op, m1.r))
  }

  function ExecStore(m: Machine, op: StoreOp, mode: Mode, cycles: nat): Machine {
    var (m1, a, px) := Address(m, mode, false);
    StoreAt(m1, op, a, NeedsFix(mode) && !px).(last := cycles)
  }

  /** Dummy read, then the store; a page crossing corrupts the high address byte. */
  function StoreAcross(m: Machine, base: word, a: word, v: byte): Machine {
    Wr(Rd(m, Uncorrected(base, a)).0, if Hi(base) != Hi(a) then Join(v, Lo(a)) else a, v)
  }

  /** Base address; TAS also moves A AND X to S before the store. */
  function UnstableBase(m: Machine, op: UnstableOp, mode: Mode): (Machine, word) {
    var (m1, base) := if mode.IzY? then IndirectBase(m) else AddrAbs(m);
    (if op.TAS? then m1.(r := m1.r.(s := Masked(op, m.r))) else m1, base)
  }

  function ExecUnstable(m: Machine, op: UnstableOp, mode: Mode, cycles: nat): Machine {
    var (m1, base) := UnstableBase(m, op, mode);
    var a := Wrap16(base + if op.SHY? then m.r.x else m.r.y);
    StoreAcross(m1, base, a, And8(Masked(op, m.r), Wrap8(Hi(base) + 1))).(last := cycles)
  }

  function ExecImplied(m: Machine, op: ImpliedOp, cycles: nat): Machine {
    Rd(m, m.pc).0.(r := Implied(op, m.r), last := cycles)
  }

  function BranchTarget(next: word, offset: byte): word { Wrap16(next + Signed(offset)) }

  /** New machine and the extra cycles: 0 not taken, 1 taken, 2 across a page. */
  function DoBranch(m: Machine, cond: bool): (Machine, nat) {
    var (m1, offset) := RdPc(m);
    if !cond then (m1, 0)
    else
      var target := BranchTarget(m1.pc, offset);
      var m2 := Rd(m1, m1.pc).0;
      if Hi(m1.pc) != Hi(target) then (Rd(m2, Uncorrected(m1.pc, target)).0.(pc := target), 2)
      else (m2.(pc := target), 1)
  }

  function ExecBranch(m: Machine, op: BranchOp, cycles: nat): Machine {
    var (m1, extra) := DoBranch(m, Taken(op, m.r.p));
    m1.(last := cycles + extra)
  }

  function ExecJsr(m: Machine, cycles: nat): Machine {
    var (m1, lo) := RdPc(m);
    var m2 := Rd(m1, StackTop(m1)).0;
    var m3 := PushWord(m2, m2.pc);
    var (m4, hi) := Rd(m3, m3.pc);
    m4.(pc := Join(hi, lo), last := cycles)
  }

  function ExecRts(m: Machine, cycles: nat): Machine {
    var m1 := Rd(m, m.pc).0;
    var m2 := Rd(m1, StackTop(m1)).0;
    var (m3, w) := PullWord(m2);
    Rd(m3, w).0.(pc := Wrap16(w + 1), last := cycles)
  }

  // P travels through memory as a byte

  function StatusByte(p: bv8): byte { p as int }

  function ByteStatus(v: byte): bv8 { v as bv8 }

  function PulledStatus(v: byte): bv8 { (ByteStatus(v) & !FLAG_BREAK) | FLAG_UNUSED }

  function PushedStatus(p: bv8, brk: bool): byte {
    StatusByte(if brk then p | FLAG_BREAK | FLAG_UNUSED else (p & !FLAG_BREAK) | FLAG_UNUSED)
  }

  function PullStatus(m: Machine): Machine {
    var (m1, v) := Pull(m);
    m1.(r := m1.r.(p := PulledStatus(v)))
  }

  function ExecRti(m: Machine, cycles: nat): Machine {
    var m1 := Rd(m, m.pc).0;
    var m2 := Rd(m1, StackTop(m1)).0;
    var (m3, w) := PullWord(PullStatus(m2));
    m3.(pc := w, last := cycles)
  }

  /** The part BRK and the hardware interrupts share: push PC and P, mask IRQ,
      load the vector. */
  function Trap(m: Machine, brk: bool, vector: word): Machine {
    var m1 := PushWord(m, m.pc);
    var m2 := Push(m1, PushedStatus(m1.r.p, brk));
    var (m3, w) := RdWord(m2, vector);
    m3.(pc := w, r := m3.r.(p := SetFlag(m3.r.p, FLAG_INTERRUPT, true)))
  }

  function ExecBrk(m: Machine, cycles: nat): Machine {
    Trap(RdPc(m).0, true, IRQ_VECTOR).(last := cycles)
  }

  function ExecPla(m: Machine, cycles: nat): Machine {
    var m1 := Rd(m, m.pc).0;
    var (m2, v) := Pull(Rd(m1, StackTop(m1)).0);
    m2.(r := SetA(m2.r, v), last := cycles)
  }

  function ExecPlp(m: Machine, cycles: nat): Machine {
    var m1 := Rd(m, m.pc).0;
    PullStatus(Rd(m1, StackTop(m1)).0).(last := cycles)
  }

  function Exec(m: Machine, h: Handler): Machine {
    match h
    case OnLoad(op, mode, n) => ExecLoad(m, op, mode, n)
    case OnModify(op, mode, n) => ExecModify(m, op, mode, n)
    case OnStore(op, mode, n) => ExecStore(m, op, mode, n)
    case OnUnstable(op, mode, n) => ExecUnstable(m, op, mode, n)
    case OnImplied(op, n) => ExecImplied(m, op, n)
    case OnBranch(op, n) => ExecBranch(m, op, n)
    case JmpAbs(n) => var (m1, a) := AddrAbs(m); m1.(pc := a, last := n)
    case JmpInd(n) => var (m1, a) := AddrInd(m); m1.(pc := a, last := n)
    case Jsr(n) => ExecJsr(m, n)
    case Rts(n) => ExecRts(m, n)
    case Rti(n) => ExecRti(m, n)
    case Brk(n) => ExecBrk(m, n)
    case Pha(n) => Push(Rd(m, m.pc).0, m.r.a).(last := n)
    case Php(n) => Push(Rd(m, m.pc).0, PushedStatus(m.r.p, true)).(last := n)
    case Pla(n) => ExecPla(m, n)
    case Plp(n) => ExecPlp(m, n)
    case Jam(n) =>
      var pc := Wrap16(m.pc - 1);
      Rd(m, pc).0.(pc := pc, halted := true, last := n)
  }

  // cpu_step

  /** A transfer is sequential when it moves 0 to 3 bytes forward. */
  function NoteTransfer(m: Machine): Machine {
    var delta := m.pc - m.prevPc;
    m.(edges := if m.prevValid && (delta < 0 || delta > 3) then m.edges + [Edge(m.prevPc, m.pc)] else m.edges,
       prevPc := m.pc, prevValid := true)
  }

  predicate TakesNmi(m: Machine) { !m.halted && m.nmi }

  predicate TakesIrq(m: Machine) { !m.halted && !m.nmi && m.irq && !Has(m.r.p, FLAG_INTERRUPT) }

  predicate TakesInterrupt(m: Machine) { TakesNmi(m) || TakesIrq(m) }

  predicate Dispatches(m: Machine) { !m.halted && !TakesInterrupt(m) }

  function Interrupt(m: Machine, vector: word): Machine { Trap(Rd(m, m.pc).0, false, vector) }

  function FetchDecode(m: Machine): (Machine, Handler) {
    var (m1, opcode) := RdPc(NoteTransfer(m));
    (m1, Decode(opcode))
  }

  /** The instruction proper, before DRAM refresh. */
  function Dispatch(m: Machine): Machine {
    var (m1, h) := FetchDecode(m);
    Exec(m1, h)
  }

  /** 4 of every 65 clock periods go to refresh: 4 stolen cycles per 61 run. */
  function Steal(dram: nat, cycles: nat): (nat, nat) {
    ((dram + 4 * cycles) % 61, (dram + 4 * cycles) / 61)
  }

  function Step(m: Machine): (Machine, nat) {
    if m.halted then (m, 1)
    else if TakesNmi(m) then (Interrupt(NoteTransfer(m).(nmi := false), NMI_VECTOR), 7)
    else if TakesIrq(m) then (Interrupt(NoteTransfer(m).(irq := false), IRQ_VECTOR), 7)
    else
      var m1 := Dispatch(m);
      if m1.refresh then
        var (dram, stolen) := Steal(m1.dram, m1.last);
        (m1.(dram := dram), m1.last + stolen)
      else (m1, m1.last)
  }

  // Outside world: what the main loop may do between steps

  datatype IrqLine = KeepIrq | DriveIrq(level: bool)

  datatype KeyLine = NoKey | Key(code: byte)

  datatype Lines = Lines(nmi: bool, irq: IrqLine, key: KeyLine)

  /** `cpu_nmi`, `cpu_irq` and the PIA latch of `bus_update_keyboard`. */
  function Signal(m: Machine, l: Lines): Machine {
    m.(nmi := m.nmi || l.nmi,
       irq := if l.irq.DriveIrq? then l.irq.level else m.irq,
       bus := if l.key.Key? then m.bus.(pia := LatchKey(m.bus.pia, l.key.code)) else m.bus)
  }

  function ResetRegs(): Regs { Regs(0, 0, 0, 0xFD, FLAG_UNUSED | FLAG_INTERRUPT) }

  function Reset(m: Machine): Machine {
    var (m1, w) := RdWord(m, RESET_VECTOR);
    m1.(r := ResetRegs(), pc := w, nmi := false, irq := false, halted := false,
        prevPc := 0, prevValid := false, edges := [])
  }
}
