/** One lemma per kind of handler: bus accesses made against cycles charged, the
    RAM frame, the program-counter advance and the stack pointer. */
module CpuHandlers {
  import opened Bytes
  import opened BusModel
  import opened Alu
  import opened OpcodeTable
  import opened CpuSpec
  import opened CpuFrame

  /** Handlers that always continue with the next instruction. */
  predicate FallsThrough(h: Handler) {
    h.OnLoad? || h.OnModify? || h.OnStore? || h.OnUnstable? || h.OnImplied? ||
    h.Pha? || h.Php? || h.Pla? || h.Plp?
  }

  /** Handlers that leave S alone. */
  predicate KeepsStack(h: Handler) {
    match h
    case OnLoad(op, _, _) => !op.LAS?
    case OnUnstable(op, _, _) => !op.TAS?
    case OnImplied(op, _) => !op.TXS?
    case _ => h.OnModify? || h.OnStore? || h.OnBranch? || h.JmpAbs? || h.JmpInd? || h.Jam?
  }

  /** Bytes after the opcode that belong to the instruction. */
  function Operands(h: Handler): nat {
    match h
    case OnLoad(_, mode, _) => OperandBytes(mode)
    case OnModify(_, mode, _) => OperandBytes(mode)
    case OnStore(_, mode, _) => OperandBytes(mode)
    case OnUnstable(_, mode, _) => OperandBytes(mode)
    case OnBranch(_, _) => 1
    case JmpAbs(_) | JmpInd(_) | Jsr(_) => 2
    case Brk(_) => 1
    case _ => 0
  }

  /** The contract every handler meets after its opcode fetch. */
  ghost predicate Ran(m: Machine, m': Machine, h: Handler, k: nat) {
    && m' == m.(r := m'.r, pc := m'.pc, halted := m'.halted, last := m'.last, bus := m'.bus)
    && Moved(m.bus, m'.bus, if h.Jam? then 1 else m'.last - 1, k)
    && m'.halted == (m.halted || h.Jam?)
    && m'.last <= 8
    && (h.Jam? ==> m'.last == 1)
    && (m.r.p & FIXED == FLAG_UNUSED ==> m'.r.p & FIXED == FLAG_UNUSED)
    && (KeepsStack(h) ==> m'.r.s == m.r.s)
    && (FallsThrough(h) ==> m'.pc == Wrap16(m.pc + Operands(h)))
  }

  lemma WrMoves(m: Machine, addr: word, v: byte, k: nat)
    ensures Went(m, Wr(m, addr, v), m.pc, 1, k)
    ensures Went(m, WrDummy(m, addr, v), m.pc, 1, k)
  {
    WriteMoves(m.bus, addr, v, Store, k);
    WriteMoves(m.bus, addr, v, Dummy, k);
  }

  lemma LoadRuns(m: Machine, op: LoadOp, mode: Mode, cycles: nat, k: nat)
    requires WellTimed(OnLoad(op, mode, cycles))
    ensures Ran(m, ExecLoad(m, op, mode, cycles), OnLoad(op, mode, cycles), k)
  {
    hide Read, Write, BusHits, Address, Load;
    AddressMoves(m, mode, false, k);
    var (m1, a, px) := Address(m, mode, false);
    RdMoves(m1, a, k);
  }

  lemma ModifyAtMoves(m: Machine, op: ModifyOp, a: word, k: nat)
    ensures var m' := ModifyAt(m, op, a);
            && m' == m.(r := m'.r, bus := m'.bus) && Moved(m.bus, m'.bus, 3, k)
            && m'.r.p & FIXED == m.r.p & FIXED && m'.r.s == m.r.s
  {
    hide Read, Write, BusHits, Modify;
    RdMoves(m, a, k);
    var (m1, t) := Rd(m, a);
    WrMoves(m1, a, t, k);
    var m2 := WrDummy(m1, a, t);
    WrMoves(m2.(r := Modify(op, m2.r, t).0), a, Modify(op, m2.r, t).1, k);
  }

  /** Read, the unmodified byte written back, the result: in that order, at one
      address, with the registers the operation leaves. */
  lemma ModifyAtMakes(m: Machine, op: ModifyOp, a: word)
    ensures var m' := ModifyAt(m, op, a);
            && |Made(m, m')| == 3
            && var t := Made(m, m')[0].value;
            && Made(m, m') == [Access(a, Fetch, t), Access(a, Dummy, t), Access(a, Store, Modify(op, m.r, t).1)]
            && m' == m.(r := Modify(op, m.r, t).0, bus := m'.bus)
  {
    hide Rd, Wr, WrDummy, Modify;
    var (m1, t) := Rd(m, a);
    RdMade(m, m, a);
    var m2 := WrDummy(m1, a, t);
    WrMade(m, m1, a, t);
    var (r, t') := Modify(op, m2.r, t);
    WrMade(m, m2.(r := r), a, t');
  }

  lemma ModifyRuns(m: Machine, op: ModifyOp, mode: Mode, cycles: nat, k: nat)
    requires WellTimed(OnModify(op, mode, cycles))
    ensures Ran(m, ExecModify(m, op, mode, cycles), OnModify(op, mode, cycles), k)
  {
    hide BusHits, Address, ModifyAt;
    AddressMoves(m, mode, true, k);
    ModifyAtMoves(Address(m, mode, true).0, op, Address(m, mode, true).1, k);
  }

  lemma StoreAtMoves(m: Machine, op: StoreOp, a: word, fix: bool, k: nat)
    ensures Went(m, StoreAt(m, op, a, fix), m.pc, if fix then 2 else 1, k)
  {
    hide Read, Write, BusHits, Stored;
    RdMoves(m, a, k);
    var m1 := if fix then Rd(m, a).0 else m;
    WrMoves(m1, a, Stored(op, m1.r), k);
  }

  /** A store that pays the fix-up cycle reads where it then stores. */
  lemma StoreAtMakes(m: Machine, op: StoreOp, a: word, fix: bool)
    ensures var m' := StoreAt(m, op, a, fix);
            Made(m, m') ==
            (if fix then [Access(a, Fetch, Rd(m, a).1)] else []) + [Access(a, Store, Stored(op, m.r))]
  {
    hide Rd, Wr, Stored, Made;
    MadeByBus(m, m, m);
    RdMade(m, m, a);
    WrMade(m, if fix then Rd(m, a).0 else m, a, Stored(op, m.r));
  }

  lemma StoreRuns(m: Machine, op: StoreOp, mode: Mode, cycles: nat, k: nat)
    requires WellTimed(OnStore(op, mode, cycles))
    ensures Ran(m, ExecStore(m, op, mode, cycles), OnStore(op, mode, cycles), k)
  {
    hide BusHits, Address, StoreAt;
    AddressMoves(m, mode, false, k);
    var (m1, a, px) := Address(m, mode, false);
    StoreAtMoves(m1, op, a, NeedsFix(mode) && !px, k);
  }

  lemma StoreAcrossMoves(m: Machine, base: word, a: word, v: byte, k: nat)
    ensures Went(m, StoreAcross(m, base, a, v), m.pc, 2, k)
  {
    hide Read, Write, BusHits, Hi, Lo, Join, Uncorrected;
    RdMoves(m, Uncorrected(base, a), k);
    WrMoves(Rd(m, Uncorrected(base, a)).0, if Hi(base) != Hi(a) then Join(v, Lo(a)) else a, v, k);
  }

  lemma UnstableRuns(m: Machine, op: UnstableOp, mode: Mode, cycles: nat, k: nat)
    requires WellTimed(OnUnstable(op, mode, cycles))
    ensures Ran(m, ExecUnstable(m, op, mode, cycles), OnUnstable(op, mode, cycles), k)
  {
    hide Read, Write, BusHits, StoreAcross, And8, Masked, IndirectBase, AddrAbs, Hi;
    if mode.IzY? { IndirectBaseMoves(m, k); } else { AddrAbsMoves(m, k); }
    var (m1, base) := UnstableBase(m, op, mode);
    var a := Wrap16(base + if op.SHY? then m.r.x else m.r.y);
    StoreAcrossMoves(m1, base, a, And8(Masked(op, m.r), Wrap8(Hi(base) + 1)), k);
  }

  lemma TargetIsRelative(next: word, offset: byte, pc: word)
    requires next == Wrap16(pc + 1)
    ensures BranchTarget(next, offset) == Wrap16(pc + 1 + Signed(offset))
  {
  }

  /** A branch: no extra access if not taken, one if taken, two across a page. */
  lemma DoBranchMoves(m: Machine, cond: bool, k: nat)
    ensures var (m', extra) := DoBranch(m, cond);
            && m' == m.(pc := m'.pc, bus := m'.bus) && m'.bus.ram == m.bus.ram
            && Moved(m.bus, m'.bus, 1 + extra, k)
            && var next, target := Wrap16(m.pc + 1), Wrap16(m.pc + 1 + Signed(Rd(m, m.pc).1));
            && m'.pc == (if cond then target else next)
            && extra == if !cond then 0 else if Hi(next) == Hi(target) then 1 else 2
  {
    hide Read, Write, BusHits, BranchTarget, Hi, Uncorrected;
    TargetIsRelative(Wrap16(m.pc + 1), Rd(m, m.pc).1, m.pc);
    RdPcMoves(m, k);
    var (m1, offset) := RdPc(m);
    if cond {
      RdMoves(m1, m1.pc, k);
      RdMoves(Rd(m1, m1.pc).0, Uncorrected(m1.pc, BranchTarget(m1.pc, offset)), k);
    }
  }

  lemma BranchRuns(m: Machine, op: BranchOp, k: nat)
    ensures Ran(m, ExecBranch(m, op, 2), OnBranch(op, 2), k)
  {
    hide BusHits, Taken, DoBranch;
    DoBranchMoves(m, Taken(op, m.r.p), k);
  }

  lemma JumpsRun(m: Machine, k: nat)
    ensures Ran(m, Exec(m, JmpAbs(3)), JmpAbs(3), k)
    ensures Ran(m, Exec(m, JmpInd(5)), JmpInd(5), k)
  {
    hide BusHits, AddrAbs, AddrInd;
    AddrAbsMoves(m, k);
    AddrIndMoves(m, k);
  }

  lemma ImpliedRuns(m: Machine, op: ImpliedOp, n: nat, k: nat)
    requires WellTimed(OnImplied(op, n))
    ensures Ran(m, ExecImplied(m, op, n), OnImplied(op, n), k)
  {
    hide Read, BusHits, Implied;
    RdMoves(m, m.pc, k);
  }

  lemma JamRuns(m: Machine, n: nat, k: nat)
    requires WellTimed(Jam(n))
    ensures Ran(m, Exec(m, Jam(n)), Jam(n), k)
  {
    hide Read, BusHits;
    RdMoves(m, Wrap16(m.pc - 1), k);
  }

  // Stack handlers

  lemma PushMoves(m: Machine, v: byte, k: nat)
    ensures Push(m, v) == m.(r := m.r.(s := Wrap8(m.r.s - 1)), bus := Push(m, v).bus)
    ensures Moved(m.bus, Push(m, v).bus, 1, k)
  {
    WrMoves(m, StackTop(m), v, k);
  }

  lemma PushWordMoves(m: Machine, w: word, k: nat)
    ensures PushWord(m, w) == m.(r := m.r.(s := Wrap8(m.r.s - 2)), bus := PushWord(m, w).bus)
    ensures Moved(m.bus, PushWord(m, w).bus, 2, k)
  {
    hide Read, Write, BusHits, Push;
    PushMoves(m, Hi(w), k);
    PushMoves(Push(m, Hi(w)), Lo(w), k);
  }

  lemma PullMoves(m: Machine, k: nat)
    ensures Pull(m).0 == m.(r := m.r.(s := Wrap8(m.r.s + 1)), bus := Pull(m).0.bus)
    ensures Moved(m.bus, Pull(m).0.bus, 1, k)
    ensures Pull(m).0.bus.ram == m.bus.ram
  {
    var m1 := m.(r := m.r.(s := Wrap8(m.r.s + 1)));
    RdMoves(m1, StackTop(m1), k);
  }

  lemma PullWordMoves(m: Machine, k: nat)
    ensures PullWord(m).0 == m.(r := m.r.(s := Wrap8(m.r.s + 2)), bus := PullWord(m).0.bus)
    ensures Moved(m.bus, PullWord(m).0.bus, 2, k)
    ensures PullWord(m).0.bus.ram == m.bus.ram
  {
    hide Read, Write, BusHits, Pull;
    PullMoves(m, k);
    PullMoves(Pull(m).0, k);
  }

  /** The two dummy reads every pulling instruction starts with. */
  lemma PeekStackMoves(m: Machine, k: nat)
    ensures var m2 := Rd(Rd(m, m.pc).0, StackTop(m)).0;
            Went(m, m2, m.pc, 2, k) && m2.bus.ram == m.bus.ram
  {
    hide Read, Write, BusHits;
    RdMoves(m, m.pc, k);
    RdMoves(Rd(m, m.pc).0, StackTop(m), k);
  }

  lemma JsrRuns(m: Machine, k: nat)
    ensures Ran(m, ExecJsr(m, 6), Jsr(6), k)
  {
    hide Read, Write, BusHits, PushWord;
    RdPcMoves(m, k);
    var m1 := RdPc(m).0;
    RdMoves(m1, StackTop(m1), k);
    var m2 := Rd(m1, StackTop(m1)).0;
    PushWordMoves(m2, m2.pc, k);
    var m3 := PushWord(m2, m2.pc);
    RdMoves(m3, m3.pc, k);
  }

  lemma RtsRuns(m: Machine, k: nat)
    ensures Ran(m, ExecRts(m, 6), Rts(6), k)
  {
    hide Read, Write, BusHits, PullWord;
    PeekStackMoves(m, k);
    var m2 := Rd(Rd(m, m.pc).0, StackTop(m)).0;
    PullWordMoves(m2, k);
    RdMoves(PullWord(m2).0, PullWord(m2).1, k);
  }

  lemma RtiRuns(m: Machine, k: nat)
    ensures Ran(m, ExecRti(m, 6), Rti(6), k)
  {
    hide Read, Write, BusHits, PullWord, Pull;
    PeekStackMoves(m, k);
    var m2 := Rd(Rd(m, m.pc).0, StackTop(m)).0;
    PullMoves(m2, k);
    PullWordMoves(PullStatus(m2), k);
  }

  lemma TrapMoves(m: Machine, brk: bool, vector: word, k: nat)
    ensures var m' := Trap(m, brk, vector);
            && m' == m.(r := m'.r, pc := m'.pc, bus := m'.bus)
            && Moved(m.bus, m'.bus, 5, k)
            && m'.r == m.r.(s := Wrap8(m.r.s - 3), p := SetFlag(m.r.p, FLAG_INTERRUPT, true))
  {
    hide Read, Write, BusHits, Push, PushWord, RdWord, PushedStatus, SetFlag;
    PushWordMoves(m, m.pc, k);
    var m1 := PushWord(m, m.pc);
    PushMoves(m1, PushedStatus(m1.r.p, brk), k);
    RdWordMoves(Push(m1, PushedStatus(m1.r.p, brk)), vector, k);
  }

  lemma BrkRuns(m: Machine, k: nat)
    ensures Ran(m, ExecBrk(m, 7), Brk(7), k)
  {
    hide Read, Write, BusHits, Trap;
    RdPcMoves(m, k);
    TrapMoves(RdPc(m).0, true, IRQ_VECTOR, k);
  }

  lemma PullsRun(m: Machine, k: nat)
    ensures Ran(m, ExecPla(m, 4), Pla(4), k)
    ensures Ran(m, ExecPlp(m, 4), Plp(4), k)
  {
    hide Read, Write, BusHits, Pull;
    PeekStackMoves(m, k);
    PullMoves(Rd(Rd(m, m.pc).0, StackTop(m)).0, k);
  }

  lemma PushesRun(m: Machine, v: byte, n: nat, k: nat)
    ensures var m' := Push(Rd(m, m.pc).0, v).(last := 3);
            && m' == m.(r := m.r.(s := Wrap8(m.r.s - 1)), last := 3, bus := m'.bus)
            && Moved(m.bus, m'.bus, 2, k)
  {
    hide Read, Write, BusHits, Push;
    RdMoves(m, m.pc, k);
    PushMoves(Rd(m, m.pc).0, v, k);
  }

  lemma PushesAreRuns(m: Machine, k: nat)
    ensures Ran(m, Exec(m, Pha(3)), Pha(3), k)
    ensures Ran(m, Exec(m, Php(3)), Php(3), k)
  {
    hide BusHits, Push, Rd, PushedStatus;
    PushesRun(m, m.r.a, 3, k);
    PushesRun(m, PushedStatus(m.r.p, true), 3, k);
  }

  /** All 256 handlers. */
  lemma HandlerRuns(m: Machine, h: Handler, k: nat)
    requires WellTimed(h)
    ensures Ran(m, Exec(m, h), h, k)
  {
    hide Ran, ExecLoad, ExecModify, ExecStore, ExecUnstable, ExecImplied, ExecBranch, ExecJsr, ExecRts, ExecRti,
      ExecBrk, ExecPla, ExecPlp, AddrAbs, AddrInd, Push, Rd, PushedStatus;
    match h
    case OnLoad(op, mode, n) => LoadRuns(m, op, mode, n, k);
    case OnModify(op, mode, n) => ModifyRuns(m, op, mode, n, k);
    case OnStore(op, mode, n) => StoreRuns(m, op, mode, n, k);
    case OnUnstable(op, mode, n) => UnstableRuns(m, op, mode, n, k);
    case OnImplied(op, n) => ImpliedRuns(m, op, n, k);
    case OnBranch(op, n) => BranchRuns(m, op, k);
    case JmpAbs(_) => JumpsRun(m, k);
    case JmpInd(_) => JumpsRun(m, k);
    case Jsr(_) => JsrRuns(m, k);
    case Rts(_) => RtsRuns(m, k);
    case Rti(_) => RtiRuns(m, k);
    case Brk(_) => BrkRuns(m, k);
    case Pha(_) => PushesAreRuns(m, k);
    case Php(_) => PushesAreRuns(m, k);
    case Pla(_) => PullsRun(m, k);
    case Plp(_) => PullsRun(m, k);
    case Jam(n) => JamRuns(m, n, k);
  }
}
