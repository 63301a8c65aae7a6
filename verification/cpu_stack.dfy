/** Well-bracketed execution: JSR/RTS, PHA/PLA, PHP/PLP, BRK/RTI and hardware
    interrupt/RTI nest to any depth the 256-byte stack page can hold, and every
    close restores what its open saved. */
module CpuStack {
  import opened Bytes
  import opened BusModel
  import opened Alu
  import opened OpcodeTable
  import opened CpuSpec
  import opened CpuFrame
  import opened CpuHandlers
  import opened CpuCycles

  /** The stack page is RAM in every layout with at least 512 bytes. */
  predicate StackBacked(m: Machine) { |m.bus.ram| >= 0x200 }

  predicate StatusOk(m: Machine) { m.r.p & FIXED == FLAG_UNUSED }

  function Cell(m: Machine, i: int): byte
    requires StackBacked(m)
  {
    m.bus.ram[0x100 + Wrap8(i)]
  }

  // The five brackets

  datatype Kind = Call | SaveA | SaveP | Break | Intr

  predicate Opens(kind: Kind, m: Machine) {
    match kind
    case Call => Dispatches(m) && NextHandler(m).Jsr?
    case SaveA => Dispatches(m) && NextHandler(m).Pha?
    case SaveP => Dispatches(m) && NextHandler(m).Php?
    case Break => Dispatches(m) && NextHandler(m).Brk?
    case Intr => TakesInterrupt(m)
  }

  predicate Closes(kind: Kind, m: Machine) {
    && Dispatches(m)
    && match kind
       case Call => NextHandler(m).Rts?
       case SaveA => NextHandler(m).Pla?
       case SaveP => NextHandler(m).Plp?
       case Break | Intr => NextHandler(m).Rti?
  }

  // RAM after pushing a byte or a word with the stack pointer at `s`

  function Put(ram: seq<byte>, s: int, v: byte): (ram': seq<byte>)
    requires |ram| >= 0x200
    ensures |ram'| == |ram|
  {
    ram[0x100 + Wrap8(s) := v]
  }

  function PutWord(ram: seq<byte>, s: int, w: word): (ram': seq<byte>)
    requires |ram| >= 0x200
    ensures |ram'| == |ram|
  {
    Put(Put(ram, s, Hi(w)), s - 1, Lo(w))
  }

  function PutFrame(ram: seq<byte>, s: int, w: word, p: byte): (ram': seq<byte>)
    requires |ram| >= 0x200
    ensures |ram'| == |ram|
  {
    Put(PutWord(ram, s, w), s - 2, p)
  }

  /** RAM after a bracket opens: what is saved, and where. */
  function Opened(kind: Kind, m: Machine): (ram: seq<byte>)
    requires StackBacked(m)
    ensures |ram| == |m.bus.ram|
  {
    match kind
    case Call => PutWord(m.bus.ram, m.r.s, Wrap16(m.pc + 2))
    case SaveA => Put(m.bus.ram, m.r.s, m.r.a)
    case SaveP => Put(m.bus.ram, m.r.s, PushedStatus(m.r.p, true))
    case Break => PutFrame(m.bus.ram, m.r.s, Wrap16(m.pc + 2), PushedStatus(m.r.p, true))
    case Intr => PutFrame(m.bus.ram, m.r.s, m.pc, PushedStatus(m.r.p, false))
  }

  function Width(kind: Kind): int { match kind case Call => 2 case SaveA | SaveP => 1 case Break | Intr => 3 }

  /** What closing a bracket opened at `m` must give back. */
  predicate Restored(kind: Kind, m: Machine, m': Machine) {
    && m'.r.s == m.r.s
    && match kind
       case Call => m'.pc == Wrap16(m.pc + 3)
       case SaveA => m'.r.a == m.r.a
       case SaveP => m'.r.p == m.r.p
       case Break => m'.pc == Wrap16(m.pc + 2) && m'.r.p == m.r.p
       case Intr => m'.pc == m.pc && m'.r.p == m.r.p
  }

  // Stack-page effects

  lemma PushStores(m: Machine, v: byte)
    requires StackBacked(m)
    ensures Push(m, v).bus.ram == Put(m.bus.ram, m.r.s, v)
    ensures Push(m, v) == m.(r := m.r.(s := Wrap8(m.r.s - 1)), bus := Push(m, v).bus)
  {
  }

  lemma PullLoads(m: Machine)
    requires StackBacked(m)
    ensures Pull(m).1 == Cell(m, m.r.s + 1)
    ensures Pull(m).0.bus.ram == m.bus.ram
    ensures Pull(m).0 == m.(r := m.r.(s := Wrap8(m.r.s + 1)), bus := Pull(m).0.bus)
  {
  }

  lemma PushWordStores(m: Machine, w: word)
    requires StackBacked(m)
    ensures PushWord(m, w).bus.ram == PutWord(m.bus.ram, m.r.s, w)
    ensures PushWord(m, w) == m.(r := m.r.(s := Wrap8(m.r.s - 2)), bus := PushWord(m, w).bus)
  {
    hide Push, Hi, Lo;
    PushStores(m, Hi(w));
    PushStores(Push(m, Hi(w)), Lo(w));
  }

  lemma PullWordLoads(m: Machine)
    requires StackBacked(m)
    ensures PullWord(m).1 == Join(Cell(m, m.r.s + 2), Cell(m, m.r.s + 1))
    ensures PullWord(m).0.bus.ram == m.bus.ram
    ensures PullWord(m).0 == m.(r := m.r.(s := Wrap8(m.r.s + 2)), bus := PullWord(m).0.bus)
  {
    hide Pull, Join;
    PullLoads(m);
    PullLoads(Pull(m).0);
  }

  lemma TrapStores(m: Machine, brk: bool, vector: word)
    requires StackBacked(m)
    ensures Trap(m, brk, vector).bus.ram == PutFrame(m.bus.ram, m.r.s, m.pc, PushedStatus(m.r.p, brk))
  {
    hide Push, PushWord, Hi, Lo, PushedStatus, RdWord, Read, BusHits, PutWord;
    PushWordStores(m, m.pc);
    var m1 := PushWord(m, m.pc);
    PushStores(m1, PushedStatus(m1.r.p, brk));
    RdWordMoves(Push(m1, PushedStatus(m1.r.p, brk)), vector, 0);
  }

  // Opening

  lemma JsrStores(m: Machine)
    requires StackBacked(m)
    ensures ExecJsr(m, 6).bus.ram == PutWord(m.bus.ram, m.r.s, Wrap16(m.pc + 1))
    ensures ExecJsr(m, 6).r.s == Wrap8(m.r.s - 2)
  {
    hide PushWord, PutWord, Hi, Lo, Join, Read, BusHits;
    RdPcMoves(m, 0);
    var m1 := RdPc(m).0;
    RdMoves(m1, StackTop(m1), 0);
    var m2 := Rd(m1, StackTop(m1)).0;
    PushWordStores(m2, m2.pc);
    RdMoves(PushWord(m2, m2.pc), m2.pc, 0);
  }

  lemma PushStoresByte(m: Machine, v: byte)
    requires StackBacked(m)
    ensures Push(Rd(m, m.pc).0, v).bus.ram == Put(m.bus.ram, m.r.s, v)
    ensures Push(Rd(m, m.pc).0, v).r == m.r.(s := Wrap8(m.r.s - 1))
  {
    hide Push, Put, Read, BusHits;
    RdMoves(m, m.pc, 0);
    PushStores(Rd(m, m.pc).0, v);
  }

  lemma InterruptStores(m: Machine, vector: word)
    requires StackBacked(m)
    ensures Interrupt(m, vector).bus.ram == PutFrame(m.bus.ram, m.r.s, m.pc, PushedStatus(m.r.p, false))
    ensures Interrupt(m, vector).r.s == Wrap8(m.r.s - 3)
  {
    hide Trap, PutFrame, Read, BusHits, PushedStatus;
    RdMoves(m, m.pc, 0);
    TrapStores(Rd(m, m.pc).0, false, vector);
    TrapMoves(Rd(m, m.pc).0, false, vector, 0);
  }

  lemma BrkStores(m: Machine)
    requires StackBacked(m)
    ensures ExecBrk(m, 7).bus.ram == PutFrame(m.bus.ram, m.r.s, Wrap16(m.pc + 1), PushedStatus(m.r.p, true))
    ensures ExecBrk(m, 7).r.s == Wrap8(m.r.s - 3)
  {
    hide Trap, PutFrame, Read, BusHits, PushedStatus;
    RdPcMoves(m, 0);
    TrapStores(RdPc(m).0, true, IRQ_VECTOR);
    TrapMoves(RdPc(m).0, true, IRQ_VECTOR, 0);
  }

  lemma InterruptOpens(m: Machine)
    requires StackBacked(m) && Opens(Intr, m)
    ensures Step(m).0.bus.ram == Opened(Intr, m)
    ensures Step(m).0.r.s == Wrap8(m.r.s - Width(Intr))
  {
    hide Interrupt, BusHits, PushedStatus, PutFrame;
    InterruptStores(NoteTransfer(m).(nmi := false), NMI_VECTOR);
    InterruptStores(NoteTransfer(m).(irq := false), IRQ_VECTOR);
  }

  lemma StepExecutes(m: Machine)
    requires Dispatches(m)
    ensures var m1 := Exec(FetchDecode(m).0, NextHandler(m));
            Step(m).0.bus == m1.bus && Step(m).0.r == m1.r && Step(m).0.pc == m1.pc
  {
    hide Exec, Decode, RdPc, Steal, TakesNmi, TakesIrq;
    assert !TakesNmi(m) && !TakesIrq(m);
  }

  lemma InstructionOpens(kind: Kind, m: Machine)
    requires StackBacked(m) && Opens(kind, m) && !kind.Intr?
    ensures Step(m).0.bus.ram == Opened(kind, m)
    ensures Step(m).0.r.s == Wrap8(m.r.s - Width(kind))
  {
    hide Step, FetchDecode, NextHandler, Push, ExecJsr, ExecBrk, BusHits, PushedStatus, Put, PutWord, PutFrame, Moved,
      TakesInterrupt;
    StepExecutes(m);
    FetchMoves(m, 0);
    var m1 := FetchDecode(m).0;
    match kind
    case Call => JsrStores(m1);
    case SaveA => PushStoresByte(m1, m1.r.a);
    case SaveP => PushStoresByte(m1, PushedStatus(m1.r.p, true));
    case Break => BrkStores(m1);
  }

  /** Opening a bracket stores exactly its bytes and lowers S by their number. */
  lemma OpenStores(kind: Kind, m: Machine)
    requires StackBacked(m) && Opens(kind, m)
    ensures Step(m).0.bus.ram == Opened(kind, m)
    ensures Step(m).0.r.s == Wrap8(m.r.s - Width(kind))
  {
    hide Step, Opened, Opens;
    if kind.Intr? { InterruptOpens(m); } else { InstructionOpens(kind, m); }
  }

  // Closing

  /** The stack reads of every pulling handler, after its two dummy reads. */
  function Peeked(m: Machine): Machine { Rd(Rd(m, m.pc).0, StackTop(m)).0 }

  lemma RtsLoads(m: Machine)
    requires StackBacked(m)
    ensures ExecRts(m, 6).pc == Wrap16(Join(Cell(m, m.r.s + 2), Cell(m, m.r.s + 1)) + 1)
    ensures ExecRts(m, 6).r.s == Wrap8(m.r.s + 2) && ExecRts(m, 6).bus.ram == m.bus.ram
  {
    hide PullWord, Rd, BusHits, Join, Moved;
    RdMoves(m, m.pc, 0);
    PeekStackMoves(m, 0);
    PullWordLoads(Peeked(m));
    RdMoves(PullWord(Peeked(m)).0, PullWord(Peeked(m)).1, 0);
  }

  lemma RtiLoads(m: Machine)
    requires StackBacked(m)
    ensures ExecRti(m, 6).pc == Join(Cell(m, m.r.s + 3), Cell(m, m.r.s + 2))
    ensures ExecRti(m, 6).r == m.r.(s := Wrap8(m.r.s + 3), p := PulledStatus(Cell(m, m.r.s + 1)))
    ensures ExecRti(m, 6).bus.ram == m.bus.ram
  {
    hide Pull, PullWord, Rd, BusHits, Join, PulledStatus, Moved;
    RdMoves(m, m.pc, 0);
    PeekStackMoves(m, 0);
    PullLoads(Peeked(m));
    PullWordLoads(PullStatus(Peeked(m)));
  }

  lemma PlaPlpLoad(m: Machine)
    requires StackBacked(m)
    ensures ExecPla(m, 4).r.a == Cell(m, m.r.s + 1) && ExecPla(m, 4).r.s == Wrap8(m.r.s + 1)
    ensures ExecPlp(m, 4).r == m.r.(s := Wrap8(m.r.s + 1), p := PulledStatus(Cell(m, m.r.s + 1)))
    ensures ExecPla(m, 4).bus.ram == m.bus.ram && ExecPlp(m, 4).bus.ram == m.bus.ram
  {
    hide Pull, Read, BusHits, PulledStatus;
    PeekStackMoves(m, 0);
    PullLoads(Peeked(m));
  }

  lemma StatusByteRoundTrip(p: bv8)
    ensures ByteStatus(StatusByte(p)) == p
  {
  }

  /** P survives the trip through memory: B is set or cleared on the way out
      and both fixed bits are forced on the way back. */
  lemma StatusRoundTrip(p: bv8, brk: bool)
    requires p & FIXED == FLAG_UNUSED
    ensures PulledStatus(PushedStatus(p, brk)) == p
  {
    hide StatusByte, ByteStatus;
    StatusByteRoundTrip(if brk then p | FLAG_BREAK | FLAG_UNUSED else (p & !FLAG_BREAK) | FLAG_UNUSED);
  }

  lemma JoinHalves(w: word)
    ensures Join(Hi(w), Lo(w)) == w
  {
  }

  /** The stack cell `i` above `s`; the bytes of an open bracket lie at 0, -1, -2. */
  function At(ram: seq<byte>, s: int, i: int): byte
    requires |ram| >= 0x200
  {
    ram[0x100 + Wrap8(s + i)]
  }

  lemma PutAt(ram: seq<byte>, s: int, d: int, v: byte, i: int)
    requires |ram| >= 0x200 && -256 < i - d < 256
    ensures At(Put(ram, s + d, v), s, i) == if i == d then v else At(ram, s, i)
  {
  }

  lemma PutFrameAt(ram: seq<byte>, s: int, w: word, p: byte, i: int)
    requires |ram| >= 0x200 && -2 <= i <= 254
    ensures i < 254 ==>
              At(PutFrame(ram, s, w, p), s, i) ==
              if i == 0 then Hi(w) else if i == -1 then Lo(w) else if i == -2 then p else At(ram, s, i)
    ensures -1 <= i ==> At(PutWord(ram, s, w), s, i) ==
                        if i == 0 then Hi(w) else if i == -1 then Lo(w) else At(ram, s, i)
  {
    hide At, Put, Hi, Lo;
    PutAt(ram, s, 0, Hi(w), i);
    PutAt(Put(ram, s, Hi(w)), s, -1, Lo(w), i);
    if i < 254 { PutAt(PutWord(ram, s, w), s, -2, p, i); }
  }

  /** What lies on the stack page once a bracket is open. */
  lemma OpenedAt(kind: Kind, m: Machine, i: int)
    requires StackBacked(m) && -Width(kind) < i <= 256 - Width(kind)
    ensures kind.SaveA? && i == 0 ==> At(Opened(kind, m), m.r.s, i) == m.r.a
    ensures kind.SaveP? && i == 0 ==> At(Opened(kind, m), m.r.s, i) == PushedStatus(m.r.p, true)
    ensures (kind.Call? || kind.Break?) && i == 0 ==> At(Opened(kind, m), m.r.s, i) == Hi(Wrap16(m.pc + 2))
    ensures (kind.Call? || kind.Break?) && i == -1 ==> At(Opened(kind, m), m.r.s, i) == Lo(Wrap16(m.pc + 2))
    ensures kind.Break? && i == -2 ==> At(Opened(kind, m), m.r.s, i) == PushedStatus(m.r.p, true)
    ensures kind.Intr? && i == 0 ==> At(Opened(kind, m), m.r.s, i) == Hi(m.pc)
    ensures kind.Intr? && i == -1 ==> At(Opened(kind, m), m.r.s, i) == Lo(m.pc)
    ensures kind.Intr? && i == -2 ==> At(Opened(kind, m), m.r.s, i) == PushedStatus(m.r.p, false)
    ensures i > 0 ==> At(Opened(kind, m), m.r.s, i) == At(m.bus.ram, m.r.s, i)
  {
    hide At, Put, PutWord, PutFrame, Hi, Lo, PushedStatus;
    match kind
    case Call => PutFrameAt(m.bus.ram, m.r.s, Wrap16(m.pc + 2), 0, i);
    case SaveA => PutAt(m.bus.ram, m.r.s, 0, m.r.a, i);
    case SaveP => PutAt(m.bus.ram, m.r.s, 0, PushedStatus(m.r.p, true), i);
    case Break => PutFrameAt(m.bus.ram, m.r.s, Wrap16(m.pc + 2), PushedStatus(m.r.p, true), i);
    case Intr => PutFrameAt(m.bus.ram, m.r.s, m.pc, PushedStatus(m.r.p, false), i);
  }

  lemma CellIsAt(d: Machine, s: int, w: int, j: int)
    requires StackBacked(d) && d.r.s == Wrap8(s - w)
    ensures Cell(d, d.r.s + j) == At(d.bus.ram, s, j - w)
  {
  }

  lemma CloseLoads(kind: Kind, d: Machine)
    requires StackBacked(d) && Closes(kind, d)
    ensures var d', s := Step(d).0, d.r.s;
            && d'.r.s == Wrap8(s + Width(kind)) && d'.bus.ram == d.bus.ram
            && (kind.Call? ==> d'.pc == Wrap16(Join(Cell(d, s + 2), Cell(d, s + 1)) + 1))
            && (kind.SaveA? ==> d'.r.a == Cell(d, s + 1))
            && (kind.SaveP? ==> d'.r.p == PulledStatus(Cell(d, s + 1)))
            && (kind.Break? || kind.Intr? ==>
                  d'.r.p == PulledStatus(Cell(d, s + 1)) && d'.pc == Join(Cell(d, s + 3), Cell(d, s + 2)))
  {
    hide Step, FetchDecode, NextHandler, ExecRts, ExecRti, ExecPla, ExecPlp, BusHits, PulledStatus, Join, Moved,
      TakesInterrupt;
    StepExecutes(d);
    FetchMoves(d, 0);
    var d1 := FetchDecode(d).0;
    match kind
    case Call => RtsLoads(d1);
    case SaveA => PlaPlpLoad(d1);
    case SaveP => PlaPlpLoad(d1);
    case Break => RtiLoads(d1);
    case Intr => RtiLoads(d1);
  }

  /** The close reads back what `m` saved, provided the saved cells are intact. */
  lemma CloseRestores(kind: Kind, m: Machine, d: Machine)
    requires StackBacked(m) && StatusOk(m)
    requires StackBacked(d) && Closes(kind, d) && d.r.s == Wrap8(m.r.s - Width(kind))
    requires forall i :: -Width(kind) < i <= 0 ==> At(d.bus.ram, m.r.s, i) == At(Opened(kind, m), m.r.s, i)
    ensures Restored(kind, m, Step(d).0)
    ensures Step(d).0.bus.ram == d.bus.ram
  {
    hide Step, PushedStatus, PulledStatus, Hi, Lo, Join, Opened, At, Cell, Closes;
    CloseLoads(kind, d);
    var w := Width(kind);
    CellIsAt(d, m.r.s, w, 1);
    OpenedAt(kind, m, 1 - w);
    if w > 1 { CellIsAt(d, m.r.s, w, 2); OpenedAt(kind, m, 2 - w); }
    if w > 2 { CellIsAt(d, m.r.s, w, 3); OpenedAt(kind, m, 3 - w); }
    StatusRoundTrip(m.r.p, !kind.Intr?);
    JoinHalves(m.pc);
    JoinHalves(Wrap16(m.pc + 2));
  }

  // Nesting

  /** A run as a tree.  `Plain` steps may do anything but move S or write to a
      live stack byte; the lines say what the outside world does before each step. */
  datatype Nest =
    | Leaf
    | Plain(lines: Lines, rest: Nest)
    | Bracket(kind: Kind, open: Lines, body: Nest, close: Lines, rest: Nest)

  function RunNest(t: Nest, m: Machine): Machine {
    match t
    case Leaf => m
    case Plain(l, rest) => RunNest(rest, Step(Signal(m, l)).0)
    case Bracket(_, open, body, close, rest) =>
      RunNest(rest, Step(Signal(RunNest(body, Step(Signal(m, open)).0), close)).0)
  }

  /** A step that keeps S and writes to none of the `live` bytes above it. */
  ghost predicate PlainStep(m: Machine, live: int) {
    && (m.halted || (Dispatches(m) && KeepsStack(NextHandler(m))))
    && forall i :: 1 <= i <= live ==>
         Untouched(m, Step(m).0, i)
  }

  /** No write reached the `i`-th stack byte above S. */
  ghost predicate Untouched(m: Machine, m': Machine, i: int) {
    BusHits(m'.bus, 0x100 + Wrap8(m.r.s + i)) == BusHits(m.bus, 0x100 + Wrap8(m.r.s + i))
  }

  /** The machine really takes the steps the tree names, with `live` bytes
      already in use and never more than 256 in all. */
  ghost predicate Follows(t: Nest, m: Machine, live: int) {
    match t
    case Leaf => true
    case Plain(l, rest) =>
      var d := Signal(m, l);
      PlainStep(d, live) && Follows(rest, Step(d).0, live)
    case Bracket(kind, open, body, close, rest) =>
      var d := Signal(m, open);
      && Opens(kind, d) && live + Width(kind) <= 256
      && Follows(body, Step(d).0, live + Width(kind))
      && var e := Signal(RunNest(body, Step(d).0), close);
      && Closes(kind, e) && Follows(rest, Step(e).0, live)
  }

  /** Every bracket of the run, at every depth, gives back what it saved. */
  ghost predicate AllRestored(t: Nest, m: Machine) {
    match t
    case Leaf => true
    case Plain(l, rest) => AllRestored(rest, Step(Signal(m, l)).0)
    case Bracket(kind, open, body, close, rest) =>
      var d := Signal(m, open);
      var m2 := Step(Signal(RunNest(body, Step(d).0), close)).0;
      && AllRestored(body, Step(d).0)
      && Restored(kind, d, m2)
      && AllRestored(rest, m2)
  }

  ghost predicate SameLive(m: Machine, m': Machine, live: int)
    requires StackBacked(m)
  {
    && StackBacked(m') && m'.r.s == m.r.s
    && forall i :: 1 <= i <= live ==> At(m'.bus.ram, m.r.s, i) == At(m.bus.ram, m.r.s, i)
  }

  lemma StepKeepsStatus(m: Machine)
    requires StatusOk(m)
    ensures StatusOk(Step(m).0)
    ensures |Step(m).0.bus.ram| == |m.bus.ram|
  {
    hide Step, BusHits;
    StepRuns(m, 0);
  }

  lemma PlainKeeps(m: Machine, live: int)
    requires StackBacked(m) && PlainStep(m, live)
    ensures SameLive(m, Step(m).0, live)
  {
    hide Dispatch, BusHits, NextHandler, KeepsStack;
    DispatchRuns(m, 0);
    forall i | 1 <= i <= live
      ensures At(Step(m).0.bus.ram, m.r.s, i) == At(m.bus.ram, m.r.s, i)
    {
      assert m.halted || Untouched(m, Step(m).0, i);
      StepRuns(m, 0x100 + Wrap8(m.r.s + i));
    }
  }

  /** S comes back with the bytes below it: from inside a bracket to outside. */
  lemma Reindex(ram: seq<byte>, s: int, w: int, i: int)
    requires |ram| >= 0x200
    ensures At(ram, Wrap8(s - w), i) == At(ram, s, i - w)
  {
  }

  lemma OpenKeeps(kind: Kind, m: Machine, live: int)
    requires StackBacked(m) && Opens(kind, m) && 0 <= live && live + Width(kind) <= 256
    ensures var m1 := Step(m).0;
            && StackBacked(m1) && m1.bus.ram == Opened(kind, m) && m1.r.s == Wrap8(m.r.s - Width(kind))
            && forall i :: 1 <= i <= live ==> At(m1.bus.ram, m.r.s, i) == At(m.bus.ram, m.r.s, i)
  {
    hide Step, Opened, At, Opens;
    OpenStores(kind, m);
    forall i | 1 <= i <= live ensures At(Opened(kind, m), m.r.s, i) == At(m.bus.ram, m.r.s, i) {
      OpenedAt(kind, m, i);
    }
  }

  /** One bracket: if the body gave back everything above its own S, the close
      restores the open and leaves the outer bytes alone. */
  lemma BracketKeeps(kind: Kind, m: Machine, e: Machine, live: int)
    requires StackBacked(m) && StatusOk(m) && Opens(kind, m) && 0 <= live && live + Width(kind) <= 256
    requires StackBacked(Step(m).0) && SameLive(Step(m).0, e, live + Width(kind)) && Closes(kind, e)
    ensures Restored(kind, m, Step(e).0)
    ensures SameLive(m, Step(e).0, live)
  {
    hide Step, Opened, At, Opens, Closes;
    OpenKeeps(kind, m, live);
    var m1, s, w := Step(m).0, m.r.s, Width(kind);
    forall i | -w < i <= live ensures At(e.bus.ram, s, i) == At(m1.bus.ram, s, i) {
      Reindex(e.bus.ram, s, w, i + w);
      Reindex(m1.bus.ram, s, w, i + w);
    }
    CloseRestores(kind, m, e);
  }

  /** Any properly nested run that fits the stack page: S and every live byte
      come back, P keeps its fixed bits, and each close restores its open. */
  lemma {:induction false} NestedRunsRestore(t: Nest, m: Machine, live: int)
    requires StackBacked(m) && StatusOk(m) && 0 <= live <= 256
    requires Follows(t, m, live)
    ensures SameLive(m, RunNest(t, m), live)
    ensures StatusOk(RunNest(t, m))
    ensures AllRestored(t, m)
    decreases t
  {
    hide Step, At, Opens, Closes, PlainStep, Signal, Restored;
    match t
    case Leaf =>
    case Plain(l, rest) =>
      SignalMoves(m, l);
      var d := Signal(m, l);
      PlainKeeps(d, live);
      StepKeepsStatus(d);
      NestedRunsRestore(rest, Step(d).0, live);
    case Bracket(kind, open, body, close, rest) =>
      SignalMoves(m, open);
      var d := Signal(m, open);
      OpenKeeps(kind, d, live);
      StepKeepsStatus(d);
      var m1 := Step(d).0;
      NestedRunsRestore(body, m1, live + Width(kind));
      var b := RunNest(body, m1);
      SignalMoves(b, close);
      BracketKeeps(kind, d, Signal(b, close), live);
      StepKeepsStatus(Signal(b, close));
      NestedRunsRestore(rest, Step(Signal(b, close)).0, live);
  }

  /** From power-on or reset, whatever runs: bit 5 of P is set and B is clear. */
  lemma {:induction false} StatusAlwaysOk(m: Machine, ls: seq<Lines>)
    requires StatusOk(m)
    ensures StatusOk(RunTo(m, ls))
    ensures StatusOk(Reset(RunTo(m, ls)))
  {
    hide Step, Signal, RdWord;
    if ls != [] {
      StatusAlwaysOk(m, ls[..|ls| - 1]);
      SignalMoves(RunTo(m, ls[..|ls| - 1]), ls[|ls| - 1]);
      StepKeepsStatus(Before(m, ls));
    }
  }
}
