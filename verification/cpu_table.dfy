/** The dispatch table of `cpu.c`, one entry per opcode: which kind of handler
    runs, on which operation and addressing mode, and the cycle count the
    handler stores in `last_cycles` before any page-crossing or branch penalty. */
module OpcodeTable {
  import opened Bytes
  import opened Alu

  datatype Mode = Imm | Zp | ZpX | ZpY | Abs | AbsX | AbsY | IzX | IzY

  datatype Handler =
    | OnLoad(load: LoadOp, mode: Mode, cycles: nat)
    | OnModify(rmw: ModifyOp, mode: Mode, cycles: nat)
    | OnStore(store: StoreOp, mode: Mode, cycles: nat)
    | OnUnstable(unstable: UnstableOp, mode: Mode, cycles: nat)
    | OnImplied(implied: ImpliedOp, cycles: nat)
    | OnBranch(branch: BranchOp, cycles: nat)
    | JmpAbs(cycles: nat) | JmpInd(cycles: nat)
    | Jsr(cycles: nat) | Rts(cycles: nat) | Rti(cycles: nat) | Brk(cycles: nat)
    | Pha(cycles: nat) | Php(cycles: nat) | Pla(cycles: nat) | Plp(cycles: nat)
    | Jam(cycles: nat)

  /** Bus accesses an addressing mode makes when no page is crossed. */
  function ModeCost(mode: Mode, always: bool): nat {
    match mode
    case Imm => 0
    case Zp => 1
    case ZpX | ZpY | Abs => 2
    case AbsX | AbsY => if always then 3 else 2
    case IzX => 4
    case IzY => if always then 4 else 3
  }

  /** Indexed stores read the effective address when no page is crossed. */
  predicate NeedsFix(mode: Mode) { mode.AbsX? || mode.AbsY? || mode.IzY? }

  /** The cycle count dictated by the handler's shape alone: opcode fetch,
      addressing, and the data accesses of its kind. */
  predicate WellTimed(h: Handler) {
    match h
    case OnLoad(_, mode, n) => n == 1 + ModeCost(mode, false) + 1
    case OnModify(_, mode, n) => !mode.Imm? && n == 1 + ModeCost(mode, true) + 3
    case OnStore(_, mode, n) => !mode.Imm? && n == 1 + ModeCost(mode, false) + if NeedsFix(mode) then 2 else 1
    case OnUnstable(op, mode, n) =>
      && mode == (if op.SHY? then AbsX else if mode.IzY? then IzY else AbsY)
      && n == 1 + ModeCost(mode, true) + 1
    case OnImplied(_, n) => n == 2
    case OnBranch(_, n) => n == 2
    case JmpAbs(n) => n == 3
    case JmpInd(n) => n == 5
    case Jsr(n) => n == 6
    case Rts(n) => n == 6
    case Rti(n) => n == 6
    case Brk(n) => n == 7
    case Pha(n) => n == 3
    case Php(n) => n == 3
    case Pla(n) => n == 4
    case Plp(n) => n == 4
    case Jam(n) => n == 1
  }

  function Row0(lo: int): (h: Handler)
    requires 0 <= lo < 16
    ensures WellTimed(h)
  {
    match lo
    case 0 => Brk(7)
    case 1 => OnLoad(ORA, IzX, 6)
    case 2 => Jam(1)
    case 3 => OnModify(SLO, IzX, 8)
    case 4 => OnLoad(NOP, Zp, 3)
    case 5 => OnLoad(ORA, Zp, 3)
    case 6 => OnModify(ASL, Zp, 5)
    case 7 => OnModify(SLO, Zp, 5)
    case 8 => Php(3)
    case 9 => OnLoad(ORA, Imm, 2)
    case 10 => OnImplied(ASLA, 2)
    case 11 => OnLoad(ANC, Imm, 2)
    case 12 => OnLoad(NOP, Abs, 4)
    case 13 => OnLoad(ORA, Abs, 4)
    case 14 => OnModify(ASL, Abs, 6)
    case _ => OnModify(SLO, Abs, 6)
  }

  function Row1(lo: int): (h: Handler)
    requires 0 <= lo < 16
    ensures WellTimed(h)
  {
    match lo
    case 0 => OnBranch(BPL, 2)
    case 1 => OnLoad(ORA, IzY, 5)
    case 2 => Jam(1)
    case 3 => OnModify(SLO, IzY, 8)
    case 4 => OnLoad(NOP, ZpX, 4)
    case 5 => OnLoad(ORA, ZpX, 4)
    case 6 => OnModify(ASL, ZpX, 6)
    case 7 => OnModify(SLO, ZpX, 6)
    case 8 => OnImplied(CLC, 2)
    case 9 => OnLoad(ORA, AbsY, 4)
    case 10 => OnImplied(NOPI, 2)
    case 11 => OnModify(SLO, AbsY, 7)
    case 12 => OnLoad(NOP, AbsX, 4)
    case 13 => OnLoad(ORA, AbsX, 4)
    case 14 => OnModify(ASL, AbsX, 7)
    case _ => OnModify(SLO, AbsX, 7)
  }

  function Row2(lo: int): (h: Handler)
    requires 0 <= lo < 16
    ensures WellTimed(h)
  {
    match lo
    case 0 => Jsr(6)
    case 1 => OnLoad(AND, IzX, 6)
    case 2 => Jam(1)
    case 3 => OnModify(RLA, IzX, 8)
    case 4 => OnLoad(BIT, Zp, 3)
    case 5 => OnLoad(AND, Zp, 3)
    case 6 => OnModify(ROL, Zp, 5)
    case 7 => OnModify(RLA, Zp, 5)
    case 8 => Plp(4)
    case 9 => OnLoad(AND, Imm, 2)
    case 10 => OnImplied(ROLA, 2)
    case 11 => OnLoad(ANC, Imm, 2)
    case 12 => OnLoad(BIT, Abs, 4)
    case 13 => OnLoad(AND, Abs, 4)
    case 14 => OnModify(ROL, Abs, 6)
    case _ => OnModify(RLA, Abs, 6)
  }

  function Row3(lo: int): (h: Handler)
    requires 0 <= lo < 16
    ensures WellTimed(h)
  {
    match lo
    case 0 => OnBranch(BMI, 2)
    case 1 => OnLoad(AND, IzY, 5)
    case 2 => Jam(1)
    case 3 => OnModify(RLA, IzY, 8)
    case 4 => OnLoad(NOP, ZpX, 4)
    case 5 => OnLoad(AND, ZpX, 4)
    case 6 => OnModify(ROL, ZpX, 6)
    case 7 => OnModify(RLA, ZpX, 6)
    case 8 => OnImplied(SEC, 2)
    case 9 => OnLoad(AND, AbsY, 4)
    case 10 => OnImplied(NOPI, 2)
    case 11 => OnModify(RLA, AbsY, 7)
    case 12 => OnLoad(NOP, AbsX, 4)
    case 13 => OnLoad(AND, AbsX, 4)
    case 14 => OnModify(ROL, AbsX, 7)
    case _ => OnModify(RLA, AbsX, 7)
  }

  function Row4(lo: int): (h: Handler)
    requires 0 <= lo < 16
    ensures WellTimed(h)
  {
    match lo
    case 0 => Rti(6)
    case 1 => OnLoad(EOR, IzX, 6)
    case 2 => Jam(1)
    case 3 => OnModify(SRE, IzX, 8)
    case 4 => OnLoad(NOP, Zp, 3)
    case 5 => OnLoad(EOR, Zp, 3)
    case 6 => OnModify(LSR, Zp, 5)
    case 7 => OnModify(SRE, Zp, 5)
    case 8 => Pha(3)
    case 9 => OnLoad(EOR, Imm, 2)
    case 10 => OnImplied(LSRA, 2)
    case 11 => OnLoad(ALR, Imm, 2)
    case 12 => JmpAbs(3)
    case 13 => OnLoad(EOR, Abs, 4)
    case 14 => OnModify(LSR, Abs, 6)
    case _ => OnModify(SRE, Abs, 6)
  }

  function Row5(lo: int): (h: Handler)
    requires 0 <= lo < 16
    ensures WellTimed(h)
  {
    match lo
    case 0 => OnBranch(BVC, 2)
    case 1 => OnLoad(EOR, IzY, 5)
    case 2 => Jam(1)
    case 3 => OnModify(SRE, IzY, 8)
    case 4 => OnLoad(NOP, ZpX, 4)
    case 5 => OnLoad(EOR, ZpX, 4)
    case 6 => OnModify(LSR, ZpX, 6)
    case 7 => OnModify(SRE, ZpX, 6)
    case 8 => OnImplied(CLI, 2)
    case 9 => OnLoad(EOR, AbsY, 4)
    case 10 => OnImplied(NOPI, 2)
    case 11 => OnModify(SRE, AbsY, 7)
    case 12 => OnLoad(NOP, AbsX, 4)
    case 13 => OnLoad(EOR, AbsX, 4)
    case 14 => OnModify(LSR, AbsX, 7)
    case _ => OnModify(SRE, AbsX, 7)
  }

  function Row6(lo: int): (h: Handler)
    requires 0 <= lo < 16
    ensures WellTimed(h)
  {
    match lo
    case 0 => Rts(6)
    case 1 => OnLoad(ADC, IzX, 6)
    case 2 => Jam(1)
    case 3 => OnModify(RRA, IzX, 8)
    case 4 => OnLoad(NOP, Zp, 3)
    case 5 => OnLoad(ADC, Zp, 3)
    case 6 => OnModify(ROR, Zp, 5)
    case 7 => OnModify(RRA, Zp, 5)
    case 8 => Pla(4)
    case 9 => OnLoad(ADC, Imm, 2)
    case 10 => OnImplied(RORA, 2)
    case 11 => OnLoad(ARR, Imm, 2)
    case 12 => JmpInd(5)
    case 13 => OnLoad(ADC, Abs, 4)
    case 14 => OnModify(ROR, Abs, 6)
    case _ => OnModify(RRA, Abs, 6)
  }

  function Row7(lo: int): (h: Handler)
    requires 0 <= lo < 16
    ensures WellTimed(h)
  {
    match lo
    case 0 => OnBranch(BVS, 2)
    case 1 => OnLoad(ADC, IzY, 5)
    case 2 => Jam(1)
    case 3 => OnModify(RRA, IzY, 8)
    case 4 => OnLoad(NOP, ZpX, 4)
    case 5 => OnLoad(ADC, ZpX, 4)
    case 6 => OnModify(ROR, ZpX, 6)
    case 7 => OnModify(RRA, ZpX, 6)
    case 8 => OnImplied(SEI, 2)
    case 9 => OnLoad(ADC, AbsY, 4)
    case 10 => OnImplied(NOPI, 2)
    case 11 => OnModify(RRA, AbsY, 7)
    case 12 => OnLoad(NOP, AbsX, 4)
    case 13 => OnLoad(ADC, AbsX, 4)
    case 14 => OnModify(ROR, AbsX, 7)
    case _ => OnModify(RRA, AbsX, 7)
  }

  function Row8(lo: int): (h: Handler)
    requires 0 <= lo < 16
    ensures WellTimed(h)
  {
    match lo
    case 0 => OnLoad(NOP, Imm, 2)
    case 1 => OnStore(STA, IzX, 6)
    case 2 => OnLoad(NOP, Imm, 2)
    case 3 => OnStore(SAX, IzX, 6)
    case 4 => OnStore(STY, Zp, 3)
    case 5 => OnStore(STA, Zp, 3)
    case 6 => OnStore(STX, Zp, 3)
    case 7 => OnStore(SAX, Zp, 3)
    case 8 => OnImplied(DEY, 2)
    case 9 => OnLoad(NOP, Imm, 2)
    case 10 => OnImplied(TXA, 2)
    case 11 => OnLoad(XAA, Imm, 2)
    case 12 => OnStore(STY, Abs, 4)
    case 13 => OnStore(STA, Abs, 4)
    case 14 => OnStore(STX, Abs, 4)
    case _ => OnStore(SAX, Abs, 4)
  }

  function Row9(lo: int): (h: Handler)
    requires 0 <= lo < 16
    ensures WellTimed(h)
  {
    match lo
    case 0 => OnBranch(BCC, 2)
    case 1 => OnStore(STA, IzY, 6)
    case 2 => Jam(1)
    case 3 => OnUnstable(AHX, IzY, 6)
    case 4 => OnStore(STY, ZpX, 4)
    case 5 => OnStore(STA, ZpX, 4)
    case 6 => OnStore(STX, ZpY, 4)
    case 7 => OnStore(SAX, ZpY, 4)
    case 8 => OnImplied(TYA, 2)
    case 9 => OnStore(STA, AbsY, 5)
    case 10 => OnImplied(TXS, 2)
    case 11 => OnUnstable(TAS, AbsY, 5)
    case 12 => OnUnstable(SHY, AbsX, 5)
    case 13 => OnStore(STA, AbsX, 5)
    case 14 => OnUnstable(SHX, AbsY, 5)
    case _ => OnUnstable(AHX, AbsY, 5)
  }

  function RowA(lo: int): (h: Handler)
    requires 0 <= lo < 16
    ensures WellTimed(h)
  {
    match lo
    case 0 => OnLoad(LDY, Imm, 2)
    case 1 => OnLoad(LDA, IzX, 6)
    case 2 => OnLoad(LDX, Imm, 2)
    case 3 => OnLoad(LAX, IzX, 6)
    case 4 => OnLoad(LDY, Zp, 3)
    case 5 => OnLoad(LDA, Zp, 3)
    case 6 => OnLoad(LDX, Zp, 3)
    case 7 => OnLoad(LAX, Zp, 3)
    case 8 => OnImplied(TAY, 2)
    case 9 => OnLoad(LDA, Imm, 2)
    case 10 => OnImplied(TAX, 2)
    case 11 => OnLoad(LXA, Imm, 2)
    case 12 => OnLoad(LDY, Abs, 4)
    case 13 => OnLoad(LDA, Abs, 4)
    case 14 => OnLoad(LDX, Abs, 4)
    case _ => OnLoad(LAX, Abs, 4)
  }

  function RowB(lo: int): (h: Handler)
    requires 0 <= lo < 16
    ensures WellTimed(h)
  {
    match lo
    case 0 => OnBranch(BCS, 2)
    case 1 => OnLoad(LDA, IzY, 5)
    case 2 => Jam(1)
    case 3 => OnLoad(LAX, IzY, 5)
    case 4 => OnLoad(LDY, ZpX, 4)
    case 5 => OnLoad(LDA, ZpX, 4)
    case 6 => OnLoad(LDX, ZpY, 4)
    case 7 => OnLoad(LAX, ZpY, 4)
    case 8 => OnImplied(CLV, 2)
    case 9 => OnLoad(LDA, AbsY, 4)
    case 10 => OnImplied(TSX, 2)
    case 11 => OnLoad(LAS, AbsY, 4)
    case 12 => OnLoad(LDY, AbsX, 4)
    case 13 => OnLoad(LDA, AbsX, 4)
    case 14 => OnLoad(LDX, AbsY, 4)
    case _ => OnLoad(LAX, AbsY, 4)
  }

  function RowC(lo: int): (h: Handler)
    requires 0 <= lo < 16
    ensures WellTimed(h)
  {
    match lo
    case 0 => OnLoad(CPY, Imm, 2)
    case 1 => OnLoad(CMP, IzX, 6)
    case 2 => OnLoad(NOP, Imm, 2)
    case 3 => OnModify(DCP, IzX, 8)
    case 4 => OnLoad(CPY, Zp, 3)
    case 5 => OnLoad(CMP, Zp, 3)
    case 6 => OnModify(DEC, Zp, 5)
    case 7 => OnModify(DCP, Zp, 5)
    case 8 => OnImplied(INY, 2)
    case 9 => OnLoad(CMP, Imm, 2)
    case 10 => OnImplied(DEX, 2)
    case 11 => OnLoad(SBX, Imm, 2)
    case 12 => OnLoad(CPY, Abs, 4)
    case 13 => OnLoad(CMP, Abs, 4)
    case 14 => OnModify(DEC, Abs, 6)
    case _ => OnModify(DCP, Abs, 6)
  }

  function RowD(lo: int): (h: Handler)
    requires 0 <= lo < 16
    ensures WellTimed(h)
  {
    match lo
    case 0 => OnBranch(BNE, 2)
    case 1 => OnLoad(CMP, IzY, 5)
    case 2 => Jam(1)
    case 3 => OnModify(DCP, IzY, 8)
    case 4 => OnLoad(NOP, ZpX, 4)
    case 5 => OnLoad(CMP, ZpX, 4)
    case 6 => OnModify(DEC, ZpX, 6)
    case 7 => OnModify(DCP, ZpX, 6)
    case 8 => OnImplied(CLD, 2)
    case 9 => OnLoad(CMP, AbsY, 4)
    case 10 => OnImplied(NOPI, 2)
    case 11 => OnModify(DCP, AbsY, 7)
    case 12 => OnLoad(NOP, AbsX, 4)
    case 13 => OnLoad(CMP, AbsX, 4)
    case 14 => OnModify(DEC, AbsX, 7)
    case _ => OnModify(DCP, AbsX, 7)
  }

  function RowE(lo: int): (h: Handler)
    requires 0 <= lo < 16
    ensures WellTimed(h)
  {
    match lo
    case 0 => OnLoad(CPX, Imm, 2)
    case 1 => OnLoad(SBC, IzX, 6)
    case 2 => OnLoad(NOP, Imm, 2)
    case 3 => OnModify(ISC, IzX, 8)
    case 4 => OnLoad(CPX, Zp, 3)
    case 5 => OnLoad(SBC, Zp, 3)
    case 6 => OnModify(INC, Zp, 5)
    case 7 => OnModify(ISC, Zp, 5)
    case 8 => OnImplied(INX, 2)
    case 9 => OnLoad(SBC, Imm, 2)
    case 10 => OnImplied(NOPI, 2)
    case 11 => OnLoad(SBC, Imm, 2)
    case 12 => OnLoad(CPX, Abs, 4)
    case 13 => OnLoad(SBC, Abs, 4)
    case 14 => OnModify(INC, Abs, 6)
    case _ => OnModify(ISC, Abs, 6)
  }

  function RowF(lo: int): (h: Handler)
    requires 0 <= lo < 16
    ensures WellTimed(h)
  {
    match lo
    case 0 => OnBranch(BEQ, 2)
    case 1 => OnLoad(SBC, IzY, 5)
    case 2 => Jam(1)
    case 3 => OnModify(ISC, IzY, 8)
    case 4 => OnLoad(NOP, ZpX, 4)
    case 5 => OnLoad(SBC, ZpX, 4)
    case 6 => OnModify(INC, ZpX, 6)
    case 7 => OnModify(ISC, ZpX, 6)
    case 8 => OnImplied(SED, 2)
    case 9 => OnLoad(SBC, AbsY, 4)
    case 10 => OnImplied(NOPI, 2)
    case 11 => OnModify(ISC, AbsY, 7)
    case 12 => OnLoad(NOP, AbsX, 4)
    case 13 => OnLoad(SBC, AbsX, 4)
    case 14 => OnModify(INC, AbsX, 7)
    case _ => OnModify(ISC, AbsX, 7)
  }

  /** The handler `dispatch[opcode]`; all 256 carry the count their shape dictates. */
  function Decode(opcode: byte): (h: Handler)
    ensures WellTimed(h)
  {
    var lo := opcode % 16;
    match opcode / 16
    case 0 => Row0(lo)
    case 1 => Row1(lo)
    case 2 => Row2(lo)
    case 3 => Row3(lo)
    case 4 => Row4(lo)
    case 5 => Row5(lo)
    case 6 => Row6(lo)
    case 7 => Row7(lo)
    case 8 => Row8(lo)
    case 9 => Row9(lo)
    case 10 => RowA(lo)
    case 11 => RowB(lo)
    case 12 => RowC(lo)
    case 13 => RowD(lo)
    case 14 => RowE(lo)
    case _ => RowF(lo)
  }
}
