/** The disassembler of `disasm.c` against the CPU: the same addressing mode for
    every opcode but one, the same instruction boundaries along fall-through
    code, and a printed branch target that is the address branched to. */
module Disassembler {
  import opened Bytes
  import opened BusModel
  import opened Alu
  import opened OpcodeTable
  import opened CpuSpec
  import opened CpuFrame
  import opened CpuHandlers
  import opened CpuCycles

  datatype AddrMode = IMP | ACC | IMM | ZP | ZPX | ZPY | ABS | ABX | ABY | IND | IZX | IZY | REL

  // The op_mode table

  function Mode0(lo: int): AddrMode
    requires 0 <= lo < 16
  {
    match lo
    case 10 => ACC
    case 1 | 3 => IZX
    case 9 | 11 => IMM
    case 0 | 2 | 8 => IMP
    case 4 | 5 | 6 | 7 => ZP
    case _ => ABS
  }

  function Mode1(lo: int): AddrMode
    requires 0 <= lo < 16
  {
    match lo
    case 0 => REL
    case 1 | 3 => IZY
    case 9 | 11 => ABY
    case 2 | 8 | 10 => IMP
    case 4 | 5 | 6 | 7 => ZPX
    case _ => ABX
  }

  function Mode2(lo: int): AddrMode
    requires 0 <= lo < 16
  {
    match lo
    case 10 => ACC
    case 1 | 3 => IZX
    case 2 | 8 => IMP
    case 9 | 11 => IMM
    case 4 | 5 | 6 | 7 => ZP
    case _ => ABS
  }

  function Mode6(lo: int): AddrMode
    requires 0 <= lo < 16
  {
    match lo
    case 10 => ACC
    case 12 => IND
    case 1 | 3 => IZX
    case 9 | 11 => IMM
    case 0 | 2 | 8 => IMP
    case 13 | 14 | 15 => ABS
    case _ => ZP
  }

  function Mode8(lo: int): AddrMode
    requires 0 <= lo < 16
  {
    match lo
    case 1 | 3 => IZX
    case 8 | 10 => IMP
    case 0 | 2 | 9 | 11 => IMM
    case 4 | 5 | 6 | 7 => ZP
    case _ => ABS
  }

  function Mode9(lo: int): AddrMode
    requires 0 <= lo < 16
  {
    match lo
    case 0 => REL
    case 1 | 3 => IZY
    case 4 | 5 => ZPX
    case 6 | 7 => ZPY
    case 12 | 13 => ABX
    case 2 | 8 | 10 => IMP
    case _ => ABY
  }

  function ModeA(lo: int): AddrMode
    requires 0 <= lo < 16
  {
    match lo
    case 1 | 3 => IZX
    case 0 | 2 | 9 => IMM
    case 8 | 10 | 11 => IMP
    case 4 | 5 | 6 | 7 => ZP
    case _ => ABS
  }

  /** `op_mode[opcode]`; equal rows of the table share a function. */
  function OpMode(opcode: byte): AddrMode {
    var lo := opcode % 16;
    match opcode / 16
    case 2 => Mode2(lo)
    case 6 => Mode6(lo)
    case 10 => ModeA(lo)
    case 0 | 4 => Mode0(lo)
    case 9 | 11 => Mode9(lo)
    case 8 | 12 | 14 => Mode8(lo)
    case _ => Mode1(lo)
  }

  function Length(mode: AddrMode): nat {
    match mode
    case IMP | ACC => 1
    case ABS | ABX | ABY | IND => 3
    case _ => 2
  }

  /** One printed line: its length and the number after the mnemonic. */
  datatype Line = Line(mode: AddrMode, bytes: nat, operand: word)

  function Disassemble(b: BusState, pc: word): (BusState, Line) {
    var (b1, op) := Read(b, pc);
    var mode := OpMode(op);
    var n := Length(mode);
    if n == 1 then (b1, Line(mode, 1, 0))
    else
      var (b2, lo) := Read(b1, Wrap16(pc + 1));
      if mode.REL? then (b2, Line(mode, 2, Wrap16(pc + 2 + Signed(lo))))
      else if n == 2 then (b2, Line(mode, 2, lo))
      else
        var (b3, hi) := Read(b2, Wrap16(pc + 2));
        (b3, Line(mode, 3, Join(hi, lo)))
  }

  /** The bus reads of `cpu_disassemble`: opcode, length and operand. */
  method ReadLine(bus: Bus, pc: word) returns (line: Line, op: byte)
    requires bus.Valid()
    modifies bus
    ensures bus.Valid()
    ensures (bus.State(), line) == Disassemble(old(bus.State()), pc)
    ensures op == Read(old(bus.State()), pc).1
  {
    hide Read, OpMode, Bus.State;
    op := bus.BusRead(pc);
    var mode := OpMode(op);
    match mode
    case IMP | ACC =>
      line := Line(mode, 1, 0);
    case ABS | ABX | ABY | IND =>
      var lo := bus.BusRead(Wrap16(pc + 1));
      var hi := bus.BusRead(Wrap16(pc + 2));
      line := Line(mode, 3, Join(hi, lo));
    case REL =>
      var offset := bus.BusRead(Wrap16(pc + 1));
      line := Line(mode, 2, Wrap16(pc + 2 + Signed(offset)));
    case _ =>
      var v := bus.BusRead(Wrap16(pc + 1));
      line := Line(mode, 2, v);
  }

  // Both tables describe the same instruction set

  function Shown(mode: Mode): AddrMode {
    match mode
    case Imm => IMM
    case Zp => ZP
    case ZpX => ZPX
    case ZpY => ZPY
    case Abs => ABS
    case AbsX => ABX
    case AbsY => ABY
    case IzX => IZX
    case IzY => IZY
  }

  /** The mode the CPU's handler really uses. */
  function HandlerMode(h: Handler): AddrMode {
    match h
    case OnLoad(_, mode, _) => Shown(mode)
    case OnModify(_, mode, _) => Shown(mode)
    case OnStore(_, mode, _) => Shown(mode)
    case OnUnstable(_, mode, _) => Shown(mode)
    case OnImplied(op, _) => if op.ASLA? || op.LSRA? || op.ROLA? || op.RORA? then ACC else IMP
    case OnBranch(_, _) => REL
    case JmpAbs(_) | Jsr(_) => ABS
    case JmpInd(_) => IND
    case _ => IMP
  }

  lemma Row0Agrees(lo: int)
    requires 0 <= lo < 16
    ensures Mode0(lo) == HandlerMode(Row0(lo))
  {
  }

  lemma Row1Agrees(lo: int)
    requires 0 <= lo < 16
    ensures Mode1(lo) == HandlerMode(Row1(lo))
  {
  }

  lemma Row2Agrees(lo: int)
    requires 0 <= lo < 16
    ensures Mode2(lo) == HandlerMode(Row2(lo))
  {
  }

  lemma Row3Agrees(lo: int)
    requires 0 <= lo < 16
    ensures Mode1(lo) == HandlerMode(Row3(lo))
  {
  }

  lemma Row4Agrees(lo: int)
    requires 0 <= lo < 16
    ensures Mode0(lo) == HandlerMode(Row4(lo))
  {
  }

  lemma Row5Agrees(lo: int)
    requires 0 <= lo < 16
    ensures Mode1(lo) == HandlerMode(Row5(lo))
  {
  }

  lemma Row6Agrees(lo: int)
    requires 0 <= lo < 16
    ensures Mode6(lo) == HandlerMode(Row6(lo))
  {
  }

  lemma Row7Agrees(lo: int)
    requires 0 <= lo < 16
    ensures Mode1(lo) == HandlerMode(Row7(lo))
  {
  }

  lemma Row8Agrees(lo: int)
    requires 0 <= lo < 16
    ensures Mode8(lo) == HandlerMode(Row8(lo))
  {
  }

  lemma Row9Agrees(lo: int)
    requires 0 <= lo < 16
    ensures Mode9(lo) == HandlerMode(Row9(lo))
  {
  }

  lemma RowAAgrees(lo: int)
    requires 0 <= lo < 16
    ensures ModeA(lo) == HandlerMode(RowA(lo)) <==> lo != 11
  {
  }

  lemma RowBAgrees(lo: int)
    requires 0 <= lo < 16
    ensures Mode9(lo) == HandlerMode(RowB(lo))
  {
  }

  lemma RowCAgrees(lo: int)
    requires 0 <= lo < 16
    ensures Mode8(lo) == HandlerMode(RowC(lo))
  {
  }

  lemma RowDAgrees(lo: int)
    requires 0 <= lo < 16
    ensures Mode1(lo) == HandlerMode(RowD(lo))
  {
  }

  lemma RowEAgrees(lo: int)
    requires 0 <= lo < 16
    ensures Mode8(lo) == HandlerMode(RowE(lo))
  {
  }

  lemma RowFAgrees(lo: int)
    requires 0 <= lo < 16
    ensures Mode1(lo) == HandlerMode(RowF(lo))
  {
  }

  /** All 256 opcodes but $AB, which the disassembler prints as a one-byte JAM
      while the CPU runs the two-byte LXA. */
  lemma ModesAgree(opcode: byte)
    ensures OpMode(opcode) == HandlerMode(Decode(opcode)) <==> opcode != 0xAB
  {
    hide Mode0, Mode1, Mode2, Mode6, Mode8, Mode9, ModeA, Row0, Row1, Row2, Row3, Row4, Row5, Row6, Row7,
      Row8, Row9, RowA, RowB, RowC, RowD, RowE, RowF, HandlerMode, WellTimed;
    var lo := opcode % 16;
    Row0Agrees(lo); Row1Agrees(lo); Row2Agrees(lo); Row3Agrees(lo);
    Row4Agrees(lo); Row5Agrees(lo); Row6Agrees(lo); Row7Agrees(lo);
    Row8Agrees(lo); Row9Agrees(lo); RowAAgrees(lo); RowBAgrees(lo);
    RowCAgrees(lo); RowDAgrees(lo); RowEAgrees(lo); RowFAgrees(lo);
  }

  /** Printed length against bytes the CPU consumes: BRK's padding byte and $AB
      are the only differences. */
  lemma LengthsAgree(opcode: byte)
    ensures Length(OpMode(opcode)) == 1 + Operands(Decode(opcode))
            <==> opcode != 0xAB && !Decode(opcode).Brk?
  {
    hide Decode, WellTimed;
    ModesAgree(opcode);
    if opcode == 0xAB { LxaIsTwoBytes(); }
  }

  lemma LxaIsTwoBytes()
    ensures OpMode(0xAB) == IMP && Decode(0xAB) == OnLoad(LXA, Imm, 2)
    ensures Length(OpMode(0xAB)) == 1 && 1 + Operands(Decode(0xAB)) == 2
  {
    hide WellTimed;
  }

  lemma BrkIsTwoBytes()
    ensures Decode(0x00) == Brk(7) && Length(OpMode(0x00)) == 1 && 1 + Operands(Decode(0x00)) == 2
  {
    hide WellTimed;
  }

  /** A branch goes where the printed line says, or on to the next instruction. */
  lemma BranchGoesWherePrinted(m: Machine)
    requires Dispatches(m) && NextHandler(m).OnBranch?
    ensures var line := Disassemble(m.bus, m.pc).1;
            Dispatch(m).pc == if Taken(NextHandler(m).branch, m.r.p) then line.operand else Wrap16(m.pc + line.bytes)
  {
    hide Decode, Read, Taken, OpMode, DoBranch, Signed, BusHits, Moved, WellTimed, Hi, Dispatches;
    ModesAgree(Read(m.bus, m.pc).1);
    LxaIsTwoBytes();
    FetchMoves(m, 0);
    DoBranchMoves(FetchDecode(m).0, Taken(NextHandler(m).branch, m.r.p), 0);
    StepsWrap(m.pc, Signed(Read(Read(m.bus, m.pc).0, Wrap16(m.pc + 1)).1));
  }

  lemma StepsWrap(pc: word, d: int)
    ensures Wrap16(Wrap16(pc + 1) + 1) == Wrap16(pc + 2)
    ensures Wrap16(Wrap16(pc + 1) + 1 + d) == Wrap16(pc + 2 + d)
  {
  }

  // Sweeping

  /** Memory the CPU may execute from without side effects. */
  predicate IsCode(b: BusState, a: word) {
    b.flat || (Alias(a) >= ROM_BASE && b.romLoaded) || Reaches(|b.ram|, b.flat, a, Translate(|b.ram|, a))
  }

  function Code(b: BusState, a: word): byte
    requires IsCode(b, a)
  {
    if !b.flat && Alias(a) >= ROM_BASE then b.rom[Alias(a) - ROM_BASE] else b.ram[Translate(|b.ram|, a)]
  }

  lemma CodeIsRead(b: BusState, a: word)
    requires IsCode(b, a)
    ensures Read(b, a).1 == Code(b, a)
  {
  }

  /** Where the disassembler stands after printing `n` lines from `pc`. */
  function Sweep(b: BusState, pc: word, n: nat): (BusState, word) {
    if n == 0 then (b, pc)
    else
      var (b1, q) := Sweep(b, pc, n - 1);
      var (b2, line) := Disassemble(b1, q);
      (b2, Wrap16(q + line.bytes))
  }

  lemma {:induction false} SweepKeepsMemory(b: BusState, pc: word, n: nat)
    ensures var b' := Sweep(b, pc, n).0;
            b'.ram == b.ram && b'.rom == b.rom && b'.romLoaded == b.romLoaded && b'.flat == b.flat
  {
    hide OpMode, ReadCore;
    if n > 0 { SweepKeepsMemory(b, pc, n - 1); }
  }

  /** The next instruction leads to the one behind it: it falls through, or is a
      branch that is not taken. */
  predicate GoesOn(m: Machine) {
    var h := NextHandler(m);
    FallsThrough(h) || (h.OnBranch? && !Taken(h.branch, m.r.p))
  }

  /** A run that goes on at every step, from side-effect-free memory, over opcodes
      the run has not itself overwritten, $AB excepted. */
  ghost predicate StraightRun(m: Machine, ls: seq<Lines>) {
    ls == [] ||
    (var d := Before(m, ls);
     && StraightRun(m, ls[..|ls| - 1])
     && Dispatches(d) && GoesOn(d)
     && IsCode(m.bus, d.pc) && Code(m.bus, d.pc) != 0xAB
     && BusHits(d.bus, Translate(|m.bus.ram|, d.pc)) == BusHits(m.bus, Translate(|m.bus.ram|, d.pc)))
  }

  lemma {:induction false} RunMoves(m: Machine, ls: seq<Lines>, k: nat)
    ensures Moved(m.bus, RunTo(m, ls).bus, |RunTo(m, ls).bus.log| - |m.bus.log|, k)
  {
    hide Step, BusHits, Moved;
    if ls == [] {
      StaysMoved(m.bus, k);
    } else {
      var a, d := RunTo(m, ls[..|ls| - 1]), Before(m, ls);
      RunMoves(m, ls[..|ls| - 1], k);
      SignalMovesNothing(a, ls[|ls| - 1], k);
      StepMoves(d, k);
      MovedOn(m.bus, a.bus, d.bus, k);
      MovedOn(m.bus, d.bus, RunTo(m, ls).bus, k);
    }
  }

  lemma StaysMoved(b: BusState, k: nat)
    ensures Moved(b, b, 0, k)
  {
  }

  lemma SignalMovesNothing(m: Machine, l: Lines, k: nat)
    ensures Moved(m.bus, Signal(m, l).bus, |Signal(m, l).bus.log| - |m.bus.log|, k)
  {
    hide Hits;
    SignalMoves(m, l);
  }

  lemma StepMoves(m: Machine, k: nat)
    ensures Moved(m.bus, Step(m).0.bus, |Step(m).0.bus.log| - |m.bus.log|, k)
  {
    hide Step, BusHits, Jams, TakesInterrupt, BaseCycles, Dispatches;
    StepRuns(m, k);
  }

  lemma MovedOn(a: BusState, b: BusState, c: BusState, k: nat)
    requires Moved(a, b, |b.log| - |a.log|, k) && Moved(b, c, |c.log| - |b.log|, k)
    ensures Moved(a, c, |c.log| - |a.log|, k)
  {
    hide BusHits;
  }

  lemma HitsOfLog(m: Machine, ls: seq<Lines>, k: nat)
    requires ls != []
    ensures BusHits(Before(m, ls).bus, k) == BusHits(RunTo(m, ls[..|ls| - 1]).bus, k)
  {
    SignalMoves(RunTo(m, ls[..|ls| - 1]), ls[|ls| - 1]);
  }

  /** The opcode about to run is the byte the disassembler reads there. */
  lemma FetchesCode(m: Machine, ls: seq<Lines>)
    requires ls != [] && StraightRun(m, ls)
    ensures var d := Before(m, ls); NextHandler(d) == Decode(Code(m.bus, d.pc))
  {
    hide Decode, BusHits, Step, ReadCore, Dispatches, GoesOn;
    var d, k := Before(m, ls), Translate(|m.bus.ram|, Before(m, ls).pc);
    RunMoves(m, ls[..|ls| - 1], k);
    HitsOfLog(m, ls, k);
    SignalMoves(RunTo(m, ls[..|ls| - 1]), ls[|ls| - 1]);
    CodeIsRead(d.bus, d.pc);
  }

  /** The disassembler's sweep visits exactly the PCs the CPU visits. */
  lemma {:induction false} SweepFollowsCpu(m: Machine, ls: seq<Lines>)
    requires StraightRun(m, ls)
    ensures Sweep(m.bus, m.pc, |ls|).1 == RunTo(m, ls).pc
  {
    hide Disassemble, OpMode, Code, IsCode, Before, Length, StraightRun, RunTo, Wrap16;
    if ls == [] {
      StaysPut(m);
    } else {
      var before, d := ls[..|ls| - 1], Before(m, ls);
      StraightUnfolds(m, ls);
      StepFollows(m, ls);
      SweepFollowsCpu(m, before);
      SweepKeepsMemory(m.bus, m.pc, |before|);
      SweepLine(m.bus, Sweep(m.bus, m.pc, |before|).0, d.pc);
    }
  }

  lemma StaysPut(m: Machine)
    ensures RunTo(m, []) == m
  {
  }

  lemma StraightUnfolds(m: Machine, ls: seq<Lines>)
    requires ls != [] && StraightRun(m, ls)
    ensures var d := Before(m, ls);
            && StraightRun(m, ls[..|ls| - 1])
            && Dispatches(d) && GoesOn(d) && !NextHandler(d).Brk?
            && IsCode(m.bus, d.pc) && Code(m.bus, d.pc) != 0xAB
  {
    hide Before, Dispatches, NextHandler, IsCode, Code, BusHits;
  }

  lemma RunSteps(m: Machine, ls: seq<Lines>)
    requires ls != []
    ensures RunTo(m, ls) == Step(Before(m, ls)).0
    ensures Before(m, ls).pc == RunTo(m, ls[..|ls| - 1]).pc
  {
    hide Step;
    SignalMoves(RunTo(m, ls[..|ls| - 1]), ls[|ls| - 1]);
  }

  /** The last step of a straight run moves on by the printed length. */
  lemma StepFollows(m: Machine, ls: seq<Lines>)
    requires ls != [] && StraightRun(m, ls)
    ensures var d := Before(m, ls);
            && d.pc == RunTo(m, ls[..|ls| - 1]).pc && IsCode(m.bus, d.pc)
            && RunTo(m, ls).pc == Wrap16(d.pc + Length(OpMode(Code(m.bus, d.pc))))
  {
    hide Decode, Step, OpMode, Code, IsCode, Operands, Length, Dispatches, GoesOn, NextHandler, StraightRun,
      RunTo, Before, Wrap16, BusHits, Signal;
    var d := Before(m, ls);
    RunSteps(m, ls);
    StraightUnfolds(m, ls);
    FetchesCode(m, ls);
    LengthsAgree(Code(m.bus, d.pc));
    StepAdvances(d);
  }

  lemma StepAdvances(d: Machine)
    requires Dispatches(d) && GoesOn(d)
    ensures Step(d).0.pc == Wrap16(d.pc + 1 + Operands(NextHandler(d)))
  {
    hide Dispatch, BusHits, NextHandler, Taken;
    if FallsThrough(NextHandler(d)) { DispatchRuns(d, 0); } else { UntakenAdvances(d); }
  }

  lemma UntakenAdvances(d: Machine)
    requires Dispatches(d) && NextHandler(d).OnBranch? && !Taken(NextHandler(d).branch, d.r.p)
    ensures Dispatch(d).pc == Wrap16(d.pc + 2)
  {
    hide Decode, ReadCore, Taken;
    assert Wrap16(Wrap16(d.pc + 1) + 1) == Wrap16(d.pc + 2);
  }

  lemma SweepLine(b: BusState, b': BusState, a: word)
    requires IsCode(b, a) && b'.ram == b.ram && b'.rom == b.rom && b'.romLoaded == b.romLoaded && b'.flat == b.flat
    ensures Disassemble(b', a).1.bytes == Length(OpMode(Code(b, a)))
  {
    hide OpMode, ReadCore;
    CodeIsRead(b', a);
  }
}
