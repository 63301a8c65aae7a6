/** The disassembler's mnemonics against the CPU's dispatch table: two tables kept
    apart in the source name the same operation for every opcode but two. */
module Mnemonics {
  import opened Bytes
  import A = Alu
  import opened OpcodeTable

  /** The name pool of `disasm.c`, in its order. */
  datatype Mnemonic =
    | BRK | ORA | JAM | SLO | NOP | ASL | PHP | ANC | BPL | CLC | JSR
    | AND | RLA | BIT | ROL | PLP | BMI | SEC | RTI | EOR | SRE | LSR
    | PHA | ALR | JMP | BVC | CLI | RTS | ADC | RRA | ROR | PLA | ARR
    | BVS | SEI | SKB | STA | SAX | STY | STX | DEY | TXA | XAA | BCC
    | AHX | TYA | TXS | TAS | SHY | SHX | LDY | LDA | LDX | LAX | TAY
    | TAX | BCS | CLV | TSX | LAS | CPY | CMP | DCP | DEC | INY | DEX
    | SBX | BNE | CLD | CPX | SBC | ISB | INC | INX | USBC | BEQ | SED

  // The op_name_idx table

  function Name0(lo: int): Mnemonic
    requires 0 <= lo < 16
  {
    match lo
    case 0 => BRK
    case 1 | 5 | 9 | 13 => ORA
    case 2 => JAM
    case 4 | 12 => NOP
    case 6 | 10 | 14 => ASL
    case 8 => PHP
    case 11 => ANC
    case _ => SLO
  }

  function Name1(lo: int): Mnemonic
    requires 0 <= lo < 16
  {
    match lo
    case 0 => BPL
    case 1 | 5 | 9 | 13 => ORA
    case 2 => JAM
    case 4 | 10 | 12 => NOP
    case 6 | 14 => ASL
    case 8 => CLC
    case _ => SLO
  }

  function Name2(lo: int): Mnemonic
    requires 0 <= lo < 16
  {
    match lo
    case 0 => JSR
    case 1 | 5 | 9 | 13 => AND
    case 2 => JAM
    case 4 | 12 => BIT
    case 6 | 10 | 14 => ROL
    case 8 => PLP
    case 11 => ANC
    case _ => RLA
  }

  function Name3(lo: int): Mnemonic
    requires 0 <= lo < 16
  {
    match lo
    case 0 => BMI
    case 1 | 5 | 9 | 13 => AND
    case 2 => JAM
    case 4 | 10 | 12 => NOP
    case 6 | 14 => ROL
    case 8 => SEC
    case _ => RLA
  }

  function Name4(lo: int): Mnemonic
    requires 0 <= lo < 16
  {
    match lo
    case 0 => RTI
    case 1 | 5 | 9 | 13 => EOR
    case 2 => JAM
    case 4 => NOP
    case 6 | 10 | 14 => LSR
    case 8 => PHA
    case 11 => ALR
    case 12 => JMP
    case _ => SRE
  }

  function Name5(lo: int): Mnemonic
    requires 0 <= lo < 16
  {
    match lo
    case 0 => BVC
    case 1 | 5 | 9 | 13 => EOR
    case 2 => JAM
    case 4 | 10 | 12 => NOP
    case 6 | 14 => LSR
    case 8 => CLI
    case _ => SRE
  }

  function Name6(lo: int): Mnemonic
    requires 0 <= lo < 16
  {
    match lo
    case 0 => RTS
    case 1 | 5 | 9 | 13 => ADC
    case 2 => JAM
    case 4 => NOP
    case 6 | 10 | 14 => ROR
    case 8 => PLA
    case 11 => ARR
    case 12 => JMP
    case _ => RRA
  }

  function Name7(lo: int): Mnemonic
    requires 0 <= lo < 16
  {
    match lo
    case 0 => BVS
    case 1 | 5 | 9 | 13 => ADC
    case 2 => JAM
    case 4 | 10 | 12 => NOP
    case 6 | 14 => ROR
    case 8 => SEI
    case _ => RRA
  }

  function Name8(lo: int): Mnemonic
    requires 0 <= lo < 16
  {
    match lo
    case 0 | 2 | 9 => SKB
    case 1 | 5 | 13 => STA
    case 4 | 12 => STY
    case 6 | 14 => STX
    case 8 => DEY
    case 10 => TXA
    case 11 => XAA
    case _ => SAX
  }

  function Name9(lo: int): Mnemonic
    requires 0 <= lo < 16
  {
    match lo
    case 0 => BCC
    case 1 | 5 | 9 | 13 => STA
    case 2 => JAM
    case 4 => STY
    case 6 => STX
    case 7 => SAX
    case 8 => TYA
    case 10 => TXS
    case 11 => TAS
    case 12 => SHY
    case 14 => SHX
    case _ => AHX
  }

  function NameA(lo: int): Mnemonic
    requires 0 <= lo < 16
  {
    match lo
    case 0 | 4 | 12 => LDY
    case 1 | 5 | 9 | 13 => LDA
    case 2 | 6 | 14 => LDX
    case 8 => TAY
    case 10 => TAX
    case 11 => JAM
    case _ => LAX
  }

  function NameB(lo: int): Mnemonic
    requires 0 <= lo < 16
  {
    match lo
    case 0 => BCS
    case 1 | 5 | 9 | 13 => LDA
    case 2 => JAM
    case 4 | 12 => LDY
    case 6 | 14 => LDX
    case 8 => CLV
    case 10 => TSX
    case 11 => LAS
    case _ => LAX
  }

  function NameC(lo: int): Mnemonic
    requires 0 <= lo < 16
  {
    match lo
    case 0 | 4 | 12 => CPY
    case 1 | 5 | 9 | 13 => CMP
    case 2 => SKB
    case 6 | 14 => DEC
    case 8 => INY
    case 10 => DEX
    case 11 => SBX
    case _ => DCP
  }

  function NameD(lo: int): Mnemonic
    requires 0 <= lo < 16
  {
    match lo
    case 0 => BNE
    case 1 | 5 | 9 | 13 => CMP
    case 2 => JAM
    case 4 | 10 | 12 => NOP
    case 6 | 14 => DEC
    case 8 => CLD
    case _ => DCP
  }

  function NameE(lo: int): Mnemonic
    requires 0 <= lo < 16
  {
    match lo
    case 0 | 4 | 12 => CPX
    case 1 | 5 | 9 | 13 => SBC
    case 2 => SKB
    case 6 | 14 => INC
    case 8 => INX
    case 10 => NOP
    case 11 => USBC
    case _ => ISB
  }

  function NameF(lo: int): Mnemonic
    requires 0 <= lo < 16
  {
    match lo
    case 0 => BEQ
    case 1 | 5 | 9 | 13 => SBC
    case 2 => JAM
    case 4 | 10 | 12 => NOP
    case 6 | 14 => INC
    case 8 => SED
    case _ => ISB
  }

  /** `op_mnemonic(op_name_idx[opcode])`. */
  function OpName(opcode: byte): Mnemonic {
    var lo := opcode % 16;
    match opcode / 16
    case 0 => Name0(lo)
    case 1 => Name1(lo)
    case 2 => Name2(lo)
    case 3 => Name3(lo)
    case 4 => Name4(lo)
    case 5 => Name5(lo)
    case 6 => Name6(lo)
    case 7 => Name7(lo)
    case 8 => Name8(lo)
    case 9 => Name9(lo)
    case 10 => NameA(lo)
    case 11 => NameB(lo)
    case 12 => NameC(lo)
    case 13 => NameD(lo)
    case 14 => NameE(lo)
    case _ => NameF(lo)
  }

  // What the handlers do

  /** A no-op with an immediate operand is called SKB. */
  function LoadName(op: A.LoadOp, mode: Mode): Mnemonic {
    match op
    case ADC => ADC
    case AND => AND
    case BIT => BIT
    case CMP => CMP
    case CPX => CPX
    case CPY => CPY
    case EOR => EOR
    case LDA => LDA
    case LDX => LDX
    case LDY => LDY
    case ORA => ORA
    case SBC => SBC
    case LAX => LAX
    case LAS => LAS
    case XAA => XAA
    case ANC => ANC
    case ALR => ALR
    case ARR => ARR
    case SBX => SBX
    case NOP => if mode.Imm? then SKB else Mnemonic.NOP
    case LXA => LAX   // the pool has no name of its own for LXA
  }

  function ModifyName(op: A.ModifyOp): Mnemonic {
    match op
    case ASL => Mnemonic.ASL
    case LSR => Mnemonic.LSR
    case ROL => Mnemonic.ROL
    case ROR => Mnemonic.ROR
    case INC => Mnemonic.INC
    case DEC => Mnemonic.DEC
    case SLO => Mnemonic.SLO
    case RLA => Mnemonic.RLA
    case SRE => Mnemonic.SRE
    case RRA => Mnemonic.RRA
    case DCP => Mnemonic.DCP
    case ISC => ISB
  }

  function ImpliedName(op: A.ImpliedOp): Mnemonic {
    match op
    case ASLA => ASL
    case LSRA => LSR
    case ROLA => ROL
    case RORA => ROR
    case CLC => Mnemonic.CLC
    case CLI => Mnemonic.CLI
    case CLV => Mnemonic.CLV
    case CLD => Mnemonic.CLD
    case SEC => Mnemonic.SEC
    case SEI => Mnemonic.SEI
    case SED => Mnemonic.SED
    case DEX => Mnemonic.DEX
    case DEY => Mnemonic.DEY
    case INX => Mnemonic.INX
    case INY => Mnemonic.INY
    case TAX => Mnemonic.TAX
    case TAY => Mnemonic.TAY
    case TSX => Mnemonic.TSX
    case TXA => Mnemonic.TXA
    case TXS => Mnemonic.TXS
    case TYA => Mnemonic.TYA
    case NOPI => NOP
  }

  function StoreName(op: A.StoreOp): Mnemonic {
    match op case STA => Mnemonic.STA case STX => Mnemonic.STX case STY => Mnemonic.STY case SAX => Mnemonic.SAX
  }

  function UnstableName(op: A.UnstableOp): Mnemonic {
    match op case SHX => Mnemonic.SHX case SHY => Mnemonic.SHY case AHX => Mnemonic.AHX case TAS => Mnemonic.TAS
  }

  function BranchName(op: A.BranchOp): Mnemonic {
    match op
    case BPL => Mnemonic.BPL
    case BMI => Mnemonic.BMI
    case BVC => Mnemonic.BVC
    case BVS => Mnemonic.BVS
    case BCC => Mnemonic.BCC
    case BCS => Mnemonic.BCS
    case BNE => Mnemonic.BNE
    case BEQ => Mnemonic.BEQ
  }

  function HandlerName(h: Handler): Mnemonic {
    match h
    case OnLoad(op, mode, _) => LoadName(op, mode)
    case OnModify(op, _, _) => ModifyName(op)
    case OnStore(op, _, _) => StoreName(op)
    case OnUnstable(op, _, _) => UnstableName(op)
    case OnImplied(op, _) => ImpliedName(op)
    case OnBranch(op, _) => BranchName(op)
    case JmpAbs(_) | JmpInd(_) => JMP
    case Jsr(_) => JSR
    case Rts(_) => RTS
    case Rti(_) => RTI
    case Brk(_) => BRK
    case Pha(_) => PHA
    case Php(_) => PHP
    case Pla(_) => PLA
    case Plp(_) => PLP
    case Jam(_) => JAM
  }

  // Row by row

  lemma Row0Named(lo: int)
    requires 0 <= lo < 16
    ensures Name0(lo) == HandlerName(Row0(lo))
  {
    hide WellTimed, StoreName, UnstableName, BranchName;
    var h := Row0(lo);
    if h.OnLoad? {
      assert Name0(lo) == LoadName(h.load, h.mode);
    } else if h.OnModify? {
      assert Name0(lo) == ModifyName(h.rmw);
    }
  }

  lemma Row1Named(lo: int)
    requires 0 <= lo < 16
    ensures Name1(lo) == HandlerName(Row1(lo))
  {
    hide WellTimed, StoreName, UnstableName;
    var h := Row1(lo);
    if h.OnLoad? {
      assert Name1(lo) == LoadName(h.load, h.mode);
    } else if h.OnModify? {
      assert Name1(lo) == ModifyName(h.rmw);
    }
  }

  lemma Row2Named(lo: int)
    requires 0 <= lo < 16
    ensures Name2(lo) == HandlerName(Row2(lo))
  {
    hide WellTimed, StoreName, UnstableName, BranchName;
    var h := Row2(lo);
    if h.OnLoad? {
      assert Name2(lo) == LoadName(h.load, h.mode);
    } else if h.OnModify? {
      assert Name2(lo) == ModifyName(h.rmw);
    }
  }

  lemma Row3Named(lo: int)
    requires 0 <= lo < 16
    ensures Name3(lo) == HandlerName(Row3(lo))
  {
    hide WellTimed, StoreName, UnstableName;
    var h := Row3(lo);
    if h.OnLoad? {
      assert Name3(lo) == LoadName(h.load, h.mode);
    } else if h.OnModify? {
      assert Name3(lo) == ModifyName(h.rmw);
    }
  }

  lemma Row4Named(lo: int)
    requires 0 <= lo < 16
    ensures Name4(lo) == HandlerName(Row4(lo))
  {
    hide WellTimed, StoreName, UnstableName, BranchName;
    var h := Row4(lo);
    if h.OnLoad? {
      assert Name4(lo) == LoadName(h.load, h.mode);
    } else if h.OnModify? {
      assert Name4(lo) == ModifyName(h.rmw);
    }
  }

  lemma Row5Named(lo: int)
    requires 0 <= lo < 16
    ensures Name5(lo) == HandlerName(Row5(lo))
  {
    hide WellTimed, StoreName, UnstableName;
    var h := Row5(lo);
    if h.OnLoad? {
      assert Name5(lo) == LoadName(h.load, h.mode);
    } else if h.OnModify? {
      assert Name5(lo) == ModifyName(h.rmw);
    }
  }

  lemma Row6Named(lo: int)
    requires 0 <= lo < 16
    ensures Name6(lo) == HandlerName(Row6(lo))
  {
    hide WellTimed, StoreName, UnstableName, BranchName;
    var h := Row6(lo);
    if h.OnLoad? {
      assert Name6(lo) == LoadName(h.load, h.mode);
    } else if h.OnModify? {
      assert Name6(lo) == ModifyName(h.rmw);
    }
  }

  lemma Row7Named(lo: int)
    requires 0 <= lo < 16
    ensures Name7(lo) == HandlerName(Row7(lo))
  {
    hide WellTimed, StoreName, UnstableName;
    var h := Row7(lo);
    if h.OnLoad? {
      assert Name7(lo) == LoadName(h.load, h.mode);
    } else if h.OnModify? {
      assert Name7(lo) == ModifyName(h.rmw);
    }
  }

  lemma Row8Named(lo: int)
    requires 0 <= lo < 16
    ensures Name8(lo) == HandlerName(Row8(lo))
  {
    hide WellTimed, ModifyName, UnstableName, BranchName;
    var h := Row8(lo);
    if h.OnLoad? {
      assert Name8(lo) == LoadName(h.load, h.mode);
    } else if h.OnStore? {
      assert Name8(lo) == StoreName(h.store);
    }
  }

  lemma Row9Named(lo: int)
    requires 0 <= lo < 16
    ensures Name9(lo) == HandlerName(Row9(lo))
  {
    hide WellTimed, LoadName, ModifyName;
    var h := Row9(lo);
    if h.OnStore? {
      assert Name9(lo) == StoreName(h.store);
    }
  }

  lemma RowANamed(lo: int)
    requires 0 <= lo < 16 && lo != 11
    ensures NameA(lo) == HandlerName(RowA(lo))
  {
    hide WellTimed, ModifyName, StoreName, UnstableName, BranchName;
    var h := RowA(lo);
    if h.OnLoad? {
      assert NameA(lo) == LoadName(h.load, h.mode);
    }
  }

  lemma RowBNamed(lo: int)
    requires 0 <= lo < 16
    ensures NameB(lo) == HandlerName(RowB(lo))
  {
    hide WellTimed, ModifyName, StoreName, UnstableName;
    var h := RowB(lo);
    if h.OnLoad? {
      assert NameB(lo) == LoadName(h.load, h.mode);
    }
  }

  lemma RowCNamed(lo: int)
    requires 0 <= lo < 16
    ensures NameC(lo) == HandlerName(RowC(lo))
  {
    hide WellTimed, StoreName, UnstableName, BranchName;
    var h := RowC(lo);
    if h.OnLoad? {
      assert NameC(lo) == LoadName(h.load, h.mode);
    } else if h.OnModify? {
      assert NameC(lo) == ModifyName(h.rmw);
    }
  }

  lemma RowDNamed(lo: int)
    requires 0 <= lo < 16
    ensures NameD(lo) == HandlerName(RowD(lo))
  {
    hide WellTimed, StoreName, UnstableName;
    var h := RowD(lo);
    if h.OnLoad? {
      assert NameD(lo) == LoadName(h.load, h.mode);
    } else if h.OnModify? {
      assert NameD(lo) == ModifyName(h.rmw);
    }
  }

  lemma RowENamed(lo: int)
    requires 0 <= lo < 16 && lo != 11
    ensures NameE(lo) == HandlerName(RowE(lo))
  {
    hide WellTimed, StoreName, UnstableName, BranchName;
    var h := RowE(lo);
    if h.OnLoad? {
      assert NameE(lo) == LoadName(h.load, h.mode);
    } else if h.OnModify? {
      assert NameE(lo) == ModifyName(h.rmw);
    }
  }

  lemma RowFNamed(lo: int)
    requires 0 <= lo < 16
    ensures NameF(lo) == HandlerName(RowF(lo))
  {
    hide WellTimed, StoreName, UnstableName;
    var h := RowF(lo);
    if h.OnLoad? {
      assert NameF(lo) == LoadName(h.load, h.mode);
    } else if h.OnModify? {
      assert NameF(lo) == ModifyName(h.rmw);
    }
  }

  lemma TwoDiffer()
    ensures NameA(11) == JAM && HandlerName(RowA(11)) == LAX
    ensures NameE(11) == USBC && HandlerName(RowE(11)) == Mnemonic.SBC
  {
    hide WellTimed;
    assert RowA(11) == OnLoad(A.LXA, Imm, 2);
    assert RowE(11) == OnLoad(A.SBC, Imm, 2);
  }

  /** The printed mnemonic names the operation the CPU runs, for all 256 opcodes
      but $AB, printed as JAM, and $EB, printed as USBC. */
  lemma NamesAgree(opcode: byte)
    ensures OpName(opcode) == HandlerName(Decode(opcode)) <==> opcode != 0xAB && opcode != 0xEB
  {
    hide Name0, Row0, Name1, Row1, Name2, Row2, Name3, Row3, Name4, Row4, Name5, Row5, Name6, Row6, Name7, Row7,
      Name8, Row8, Name9, Row9, NameA, RowA, NameB, RowB, NameC, RowC, NameD, RowD, NameE, RowE, NameF, RowF,
      HandlerName, WellTimed;
    var lo := opcode % 16;
    TwoDiffer();
    match opcode / 16
    case 0 => Row0Named(lo);
    case 1 => Row1Named(lo);
    case 2 => Row2Named(lo);
    case 3 => Row3Named(lo);
    case 4 => Row4Named(lo);
    case 5 => Row5Named(lo);
    case 6 => Row6Named(lo);
    case 7 => Row7Named(lo);
    case 8 => Row8Named(lo);
    case 9 => Row9Named(lo);
    case 10 => if lo != 11 { RowANamed(lo); }
    case 11 => RowBNamed(lo);
    case 12 => RowCNamed(lo);
    case 13 => RowDNamed(lo);
    case 14 => if lo != 11 { RowENamed(lo); }
    case _ => RowFNamed(lo);
  }

  /** $EB really is SBC: the same operation, mode and cycles as $E9. */
  lemma UsbcIsSbc()
    ensures Decode(0xEB) == Decode(0xE9) && OpName(0xEB) == USBC && OpName(0xAB) == JAM
  {
    hide WellTimed;
    assert RowE(9) == OnLoad(A.SBC, Imm, 2) == RowE(11);
  }
}
