/** Cycle accounting: what `cpu_step` returns is the number of bus accesses it
    made, instruction by instruction and summed over whole runs. */
module CpuCycles {
  import opened Bytes
  import opened BusModel
  import opened Alu
  import opened OpcodeTable
  import opened CpuSpec
  import opened CpuFrame
  import opened CpuHandlers

  function Accesses(m: Machine): nat { |m.bus.log| }

  function NextHandler(m: Machine): Handler { FetchDecode(m).1 }

  predicate Jams(m: Machine) { Dispatches(m) && NextHandler(m).Jam? }

  lemma FetchMoves(m: Machine, k: nat)
    ensures var m1 := FetchDecode(m).0;
            && m1 == NoteTransfer(m).(bus := m1.bus, pc := Wrap16(m.pc + 1))
            && Moved(m.bus, m1.bus, 1, k)
            && BusHits(m1.bus, k) == BusHits(m.bus, k) && m1.bus.ram == m.bus.ram
    ensures WellTimed(NextHandler(m))
  {
    hide Decode, Read, BusHits;
    RdPcMoves(NoteTransfer(m), k);
  }

  /** `m'` is what the handler leaves, counted from before the opcode fetch. */
  ghost predicate Dispatched(m: Machine, m': Machine, h: Handler, k: nat) {
    && m' == NoteTransfer(m).(r := m'.r, pc := m'.pc, halted := m'.halted, last := m'.last, bus := m'.bus)
    && Moved(m.bus, m'.bus, if h.Jam? then 2 else m'.last, k)
    && m'.halted == (m.halted || h.Jam?)
    && m'.last <= 8
    && (h.Jam? ==> m'.last == 1)
    && (m.r.p & FIXED == FLAG_UNUSED ==> m'.r.p & FIXED == FLAG_UNUSED)
    && (KeepsStack(h) ==> m'.r.s == m.r.s)
    && (FallsThrough(h) ==> m'.pc == Wrap16(m.pc + 1 + Operands(h)))
  }

  lemma DispatchRuns(m: Machine, k: nat)
    ensures Dispatched(m, Dispatch(m), NextHandler(m), k)
  {
    hide FetchDecode, Exec, BusHits, WellTimed, Operands, KeepsStack;
    FetchMoves(m, k);
    HandlerRuns(FetchDecode(m).0, NextHandler(m), k);
  }

  lemma InterruptRuns(m: Machine, vector: word, k: nat)
    ensures var m' := Interrupt(m, vector);
            && m' == m.(r := m'.r, pc := m'.pc, bus := m'.bus)
            && Moved(m.bus, m'.bus, 6, k)
            && m'.r == m.r.(s := Wrap8(m.r.s - 3), p := SetFlag(m.r.p, FLAG_INTERRUPT, true))
  {
    hide Trap, Read, BusHits, SetFlag;
    RdMoves(m, m.pc, k);
    TrapMoves(Rd(m, m.pc).0, false, vector, k);
  }

  /** Cycles an executed instruction is charged before DRAM refresh. */
  function BaseCycles(m: Machine): nat { if Dispatches(m) then Dispatch(m).last else 0 }

  /** One step of `cpu_step`, every case. */
  lemma StepRuns(m: Machine, k: nat)
    ensures var (m', c) := Step(m);
            && Moved(m.bus, m'.bus,
                     if m.halted then 0 else if TakesInterrupt(m) then 6 else if Jams(m) then 2 else BaseCycles(m), k)
            && m'.refresh == m.refresh
            && (m.r.p & FIXED == FLAG_UNUSED ==> m'.r.p & FIXED == FLAG_UNUSED)
            && (Jams(m) ==> BaseCycles(m) == 1)
            && BaseCycles(m) <= 8 && (!Dispatches(m) ==> BaseCycles(m) == 0)
            && (m.halted ==> c == 1)
            && (TakesInterrupt(m) ==> c == 7)
            && (Dispatches(m) ==> c == BaseCycles(m) + if m.refresh then (m.dram + 4 * BaseCycles(m)) / 61 else 0)
            && m'.dram == (if m.refresh && Dispatches(m) then (m.dram + 4 * BaseCycles(m)) % 61 else m.dram)
  {
    hide Dispatch, Interrupt, BusHits, NextHandler;
    if !m.halted {
      DispatchRuns(m, k);
      InterruptRuns(NoteTransfer(m).(nmi := false), NMI_VECTOR, k);
      InterruptRuns(NoteTransfer(m).(irq := false), IRQ_VECTOR, k);
    }
  }

  /** Cycle exactness: with refresh off, a step returns exactly the bus accesses it
      made if and only if it runs an instruction other than a JAM. */
  lemma CycleExact(m: Machine)
    requires !m.refresh
    ensures Step(m).1 == Accesses(Step(m).0) - Accesses(m) <==> Dispatches(m) && !NextHandler(m).Jam?
  {
    hide Step, BusHits, NextHandler;
    StepRuns(m, 0);
  }

  /** `m` about to execute `opcode`, from a flat memory that holds nothing else. */
  function Facing(m: Machine, opcode: byte): Machine {
    var ram := seq(65536, _ => opcode);
    m.(halted := false, nmi := false, irq := false, refresh := false, bus := m.bus.(flat := true, ram := ram))
  }

  /** A JAM reads twice for its one cycle. */
  lemma JamIsNotExact(m: Machine)
    ensures var j := Facing(m, 0x02);
            Dispatches(j) && Step(j).1 == 1 && Accesses(Step(j).0) - Accesses(j) == 2
  {
    hide Step, BusHits, Moved;
    var j := Facing(m, 0x02);
    assert NextHandler(j) == Decode(0x02) == Jam(1);
    StepRuns(j, 0);
    MovedCounts(j.bus, Step(j).0.bus, 2, 0);
  }

  /** An interrupt entry makes six accesses in its seven cycles. */
  lemma InterruptIsNotExact(m: Machine)
    ensures var j := m.(halted := false, nmi := true);
            Step(j).1 == 7 && Accesses(Step(j).0) - Accesses(j) == 6
  {
    hide Step, BusHits, Moved;
    var j := m.(halted := false, nmi := true);
    StepRuns(j, 0);
    MovedCounts(j.bus, Step(j).0.bus, 6, 0);
  }

  /** A halted step makes no access in its one cycle. */
  lemma HaltedIsNotExact(m: Machine)
    ensures var j := m.(halted := true);
            Step(j).1 == 1 && Accesses(Step(j).0) - Accesses(j) == 0
  {
  }

  lemma MovedCounts(b: BusState, b': BusState, n: int, k: nat)
    requires Moved(b, b', n, k)
    ensures |b'.log| - |b.log| == n
  {
  }

  // Runs

  ghost function RunTo(m: Machine, ls: seq<Lines>): Machine
    decreases |ls|, 1
  {
    if ls == [] then m else Step(Before(m, ls)).0
  }

  /** The machine about to take the last step of the run. */
  ghost function Before(m: Machine, ls: seq<Lines>): Machine
    requires ls != []
    decreases |ls|, 0
  {
    Signal(RunTo(m, ls[..|ls| - 1]), ls[|ls| - 1])
  }

  datatype Ledger = Ledger(cycles: nat, base: nat, jams: nat, interrupts: nat, halts: nat)

  /** Totals over a run: cycles returned, cycles charged by executed
      instructions, and the three kinds of step that are not one access per cycle. */
  ghost function Tally(m: Machine, ls: seq<Lines>): Ledger
  {
    if ls == [] then Ledger(0, 0, 0, 0, 0)
    else
      var t, d := Tally(m, ls[..|ls| - 1]), Before(m, ls);
      Ledger(t.cycles + Step(d).1, t.base + BaseCycles(d),
             t.jams + (if Jams(d) then 1 else 0),
             t.interrupts + (if TakesInterrupt(d) then 1 else 0),
             t.halts + (if d.halted then 1 else 0))
  }

  /** Cycles lost to refresh after `base` executed cycles: 4 in every 61. */
  function Stolen(refresh: bool, base: nat): nat { if refresh then 4 * base / 61 else 0 }

  lemma StealAccumulates(base: nat, n: nat)
    ensures 4 * base / 61 + (4 * base % 61 + 4 * n) / 61 == 4 * (base + n) / 61
    ensures (4 * base % 61 + 4 * n) % 61 == 4 * (base + n) % 61
  {
  }

  lemma SignalMoves(m: Machine, l: Lines)
    ensures var d := Signal(m, l);
            && d == m.(nmi := d.nmi, irq := d.irq, bus := d.bus)
            && d.bus == m.bus.(pia := d.bus.pia)
  {
  }

  /** The books balance over every run from a zero accumulator, whatever the
      program and the interrupt and keyboard lines do.  Cycles: the C executed by
      instructions, seven an interrupt entry, one a halted step, and exactly
      floor(4C/61) stolen by refresh.  Accesses: C, one more a JAM, six an
      interrupt entry. */
  lemma {:induction false} LedgerBalances(m: Machine, ls: seq<Lines>)
    requires m.refresh ==> m.dram == 0
    ensures var t, m' := Tally(m, ls), RunTo(m, ls);
            && t.cycles == t.base + 7 * t.interrupts + t.halts + Stolen(m.refresh, t.base)
            && Accesses(m') - Accesses(m) == t.base + t.jams + 6 * t.interrupts
            && m'.refresh == m.refresh
            && (m.refresh ==> m'.dram == 4 * t.base % 61)
  {
    hide Step, BaseCycles, NextHandler, Signal, BusHits;
    if ls != [] {
      var before := ls[..|ls| - 1];
      LedgerBalances(m, before);
      SignalMoves(RunTo(m, before), ls[|ls| - 1]);
      var d := Before(m, ls);
      StepRuns(d, 0);
      StealAccumulates(Tally(m, before).base, BaseCycles(d));
    }
  }

  /** A step steals at most one cycle, so `cycles` never leaves `uint8_t`. */
  lemma StealsAtMostOne(m: Machine)
    requires m.dram < 61
    ensures Step(m).1 <= 9 && Step(m).0.dram < 61
  {
    hide Step, BaseCycles, Jams, BusHits;
    StepRuns(m, 0);
  }
}
