/** What every CPU helper leaves alone: one lemma per helper, giving the number
    of bus accesses made, the registers kept, and the frame on RAM. */
module CpuFrame {
  import opened Bytes
  import opened BusModel
  import opened Alu
  import opened OpcodeTable
  import opened CpuSpec

  /** Writes in `log` that landed on RAM cell `k`. */
  ghost function Hits(ramSize: nat, flat: bool, log: seq<Access>, k: nat): nat
  {
    if log == [] then 0
    else
      var e := log[|log| - 1];
      Hits(ramSize, flat, log[..|log| - 1], k) +
      if !e.kind.Fetch? && Reaches(ramSize, flat, e.addr, k) then 1 else 0
  }

  ghost function BusHits(b: BusState, k: nat): nat { Hits(|b.ram|, b.flat, b.log, k) }

  /** `b'` follows `b` after `n` accesses, and RAM cell `k` is as it was unless
      one of them wrote to it. */
  ghost predicate Moved(b: BusState, b': BusState, n: int, k: nat) {
    && |b'.log| == |b.log| + n
    && |b'.ram| == |b.ram| && b'.rom == b.rom && b'.romLoaded == b.romLoaded && b'.flat == b.flat
    && BusHits(b, k) <= BusHits(b', k)
    && (k < |b.ram| && BusHits(b, k) == BusHits(b', k) ==> b'.ram[k] == b.ram[k])
  }

  lemma ReadMoves(b: BusState, addr: word, k: nat)
    ensures Moved(b, Read(b, addr).0, 1, k)
    ensures Read(b, addr).0.ram == b.ram
    ensures BusHits(Read(b, addr).0, k) == BusHits(b, k)
  {
    var b' := Read(b, addr).0;
    assert b'.log[..|b'.log| - 1] == b.log;
  }

  lemma WriteMoves(b: BusState, addr: word, v: byte, kind: Kind, k: nat)
    requires !kind.Fetch?
    ensures Moved(b, Write(b, addr, v, kind), 1, k)
    ensures k < |b.ram| && Reaches(|b.ram|, b.flat, addr, k) ==> Write(b, addr, v, kind).ram[k] == v
    ensures !Reaches(|b.ram|, b.flat, addr, k) ==> BusHits(Write(b, addr, v, kind), k) == BusHits(b, k)
  {
    var b' := Write(b, addr, v, kind);
    assert b'.log[..|b'.log| - 1] == b.log;
  }

  // Machine level: `m'` is `m` after `n` accesses with the program counter at `pc`

  ghost predicate Went(m: Machine, m': Machine, pc: word, n: int, k: nat) {
    && m' == m.(bus := m'.bus, pc := pc)
    && Moved(m.bus, m'.bus, n, k)
  }

  lemma RdMoves(m: Machine, addr: word, k: nat)
    ensures Went(m, Rd(m, addr).0, m.pc, 1, k)
    ensures BusHits(Rd(m, addr).0.bus, k) == BusHits(m.bus, k)
    ensures Rd(m, addr).0.bus.ram == m.bus.ram
  {
    ReadMoves(m.bus, addr, k);
  }

  lemma RdPcMoves(m: Machine, k: nat)
    ensures Went(m, RdPc(m).0, Wrap16(m.pc + 1), 1, k)
    ensures BusHits(RdPc(m).0.bus, k) == BusHits(m.bus, k)
    ensures RdPc(m).0.bus.ram == m.bus.ram
  {
    ReadMoves(m.bus, m.pc, k);
  }

  lemma RdWordMoves(m: Machine, addr: word, k: nat)
    ensures Went(m, RdWord(m, addr).0, m.pc, 2, k)
    ensures RdWord(m, addr).0.bus.ram == m.bus.ram
  {
    hide Read, BusHits;
    RdMoves(m, addr, k);
    RdMoves(Rd(m, addr).0, Wrap16(addr + 1), k);
  }

  lemma RdZpWordMoves(m: Machine, zp: byte, k: nat)
    ensures Went(m, RdZpWord(m, zp).0, m.pc, 2, k)
  {
    hide Read, BusHits;
    RdMoves(m, zp, k);
    RdMoves(Rd(m, zp).0, Wrap8(zp + 1), k);
  }

  lemma AddrAbsMoves(m: Machine, k: nat)
    ensures Went(m, AddrAbs(m).0, Wrap16(m.pc + 2), 2, k)
  {
    hide Read, BusHits;
    RdWordMoves(m, m.pc, k);
  }

  lemma IndexedMoves(m: Machine, base: word, index: byte, always: bool, k: nat)
    ensures var (m', a, px) := Indexed(m, base, index, always);
            Went(m, m', m.pc, if px || always then 1 else 0, k)
  {
    hide Read, BusHits;
    RdMoves(m, Uncorrected(base, Wrap16(base + index)), k);
  }

  lemma AddrZpIndexedMoves(m: Machine, index: byte, k: nat)
    ensures Went(m, AddrZpIndexed(m, index).0, Wrap16(m.pc + 1), 2, k) && !AddrZpIndexed(m, index).2
  {
    hide Read, BusHits;
    RdPcMoves(m, k);
    RdMoves(RdPc(m).0, RdPc(m).1, k);
  }

  lemma IndirectBaseMoves(m: Machine, k: nat)
    ensures Went(m, IndirectBase(m).0, Wrap16(m.pc + 1), 3, k)
  {
    hide Read, BusHits;
    RdPcMoves(m, k);
    RdZpWordMoves(RdPc(m).0, RdPc(m).1, k);
  }

  lemma AddrIzXMoves(m: Machine, k: nat)
    ensures Went(m, AddrIzX(m).0, Wrap16(m.pc + 1), 4, k)
  {
    hide Read, BusHits;
    var (m1, raw) := RdPc(m);
    RdPcMoves(m, k);
    RdMoves(m1, raw, k);
    RdZpWordMoves(Rd(m1, raw).0, Wrap8(raw + m.r.x), k);
  }

  lemma AddrIndMoves(m: Machine, k: nat)
    ensures Went(m, AddrInd(m).0, Wrap16(m.pc + 2), 4, k)
  {
    hide Read, BusHits;
    AddrAbsMoves(m, k);
    var (m1, ptr) := AddrAbs(m);
    if Lo(ptr) == 0xFF {
      RdMoves(m1, ptr, k);
      RdMoves(Rd(m1, ptr).0, Join(Hi(ptr), 0), k);
    } else {
      RdWordMoves(m1, ptr, k);
    }
  }

  // What was read and written, from the log

  /** The accesses made on the way from `m` to `m'`. */
  function Made(m: Machine, m': Machine): seq<Access> {
    if |m.bus.log| <= |m'.bus.log| then m'.bus.log[|m.bus.log|..] else []
  }

  lemma RdMade(m0: Machine, m: Machine, addr: word)
    requires |m0.bus.log| <= |m.bus.log|
    ensures Made(m0, Rd(m, addr).0) == Made(m0, m) + [Access(addr, Fetch, Rd(m, addr).1)]
    ensures Rd(m, addr).0 == m.(bus := Rd(m, addr).0.bus) && Rd(m, addr).0.bus.ram == m.bus.ram
    ensures |Rd(m, addr).0.bus.log| == |m.bus.log| + 1
  {
    hide ReadCore;
  }

  lemma WrMade(m0: Machine, m: Machine, addr: word, v: byte)
    requires |m0.bus.log| <= |m.bus.log|
    ensures Made(m0, Wr(m, addr, v)) == Made(m0, m) + [Access(addr, Store, v)]
    ensures Made(m0, WrDummy(m, addr, v)) == Made(m0, m) + [Access(addr, Dummy, v)]
    ensures Wr(m, addr, v) == m.(bus := Wr(m, addr, v).bus) && WrDummy(m, addr, v) == m.(bus := WrDummy(m, addr, v).bus)
    ensures |WrDummy(m, addr, v).bus.log| == |m.bus.log| + 1
  {
  }

  /** The byte behind `ptr` on the same page. */
  function NextOnPage(ptr: word): word { Join(Hi(ptr), Wrap8(Lo(ptr) + 1)) }

  /** The indirect jump reads the pointer, then two bytes that lie on one page: the
      carry never reaches the pointer's high byte.  RAM stays. */
  lemma AddrIndReads(m: Machine)
    ensures var (m', target) := AddrInd(m);
            var es := Made(m, m');
            && m' == m.(pc := Wrap16(m.pc + 2), bus := m'.bus) && m'.bus.ram == m.bus.ram
            && |es| == 4 && (forall i :: 0 <= i < 4 ==> es[i].kind == Fetch)
            && es[0].addr == m.pc && es[1].addr == Wrap16(m.pc + 1)
            && var ptr := Join(es[1].value, es[0].value);
            && es[2].addr == ptr && es[3].addr == NextOnPage(ptr)
            && target == Join(es[3].value, es[2].value)
  {
    hide Rd, Hi, Lo, Join, Wrap8, Wrap16, NextOnPage, Made;
    var (m1, lo) := Rd(m, m.pc);
    RdMade(m, m, m.pc);
    var (m2, hi) := Rd(m1, Wrap16(m.pc + 1));
    RdMade(m, m1, Wrap16(m.pc + 1));
    var ptr := Join(hi, lo);
    var m3 := m2.(pc := Wrap16(m.pc + 2));
    assert AddrAbs(m) == (m3, ptr);
    MadeByBus(m, m2, m3);
    RdMade(m, m3, ptr);
    PagePointer(ptr);
    RdMade(m, Rd(m3, ptr).0, NextOnPage(ptr));
  }

  /** Only the bus counts. */
  lemma MadeByBus(m: Machine, m1: Machine, m2: Machine)
    requires m1.bus == m2.bus
    ensures Made(m, m1) == Made(m, m2) && Made(m, m) == []
  {
  }

  lemma PagePointer(ptr: word)
    ensures NextOnPage(ptr) == if Lo(ptr) == 0xFF then Join(Hi(ptr), 0) else Wrap16(ptr + 1)
  {
    var h: int, l: int := ptr / 256, ptr % 256;
    assert ptr == 256 * h + l;
    if l == 255 {
      assert Wrap8(l + 1) == 0;
    } else {
      assert Wrap8(l + 1) == l + 1 && Wrap16(ptr + 1) == ptr + 1;
    }
  }

  /** Operand bytes an addressing mode consumes. */
  function OperandBytes(mode: Mode): nat {
    if mode.Abs? || mode.AbsX? || mode.AbsY? then 2 else 1
  }

  /** `n` accesses from `m` to `m1`, then the indexing. */
  lemma ThenIndexed(m: Machine, m1: Machine, pc: word, n: int, base: word, index: byte, always: bool, k: nat)
    requires Went(m, m1, pc, n, k)
    ensures var (m', a, px) := Indexed(m1, base, index, always);
            Went(m, m', pc, n + if px || always then 1 else 0, k)
  {
    hide Read, BusHits, Indexed;
    IndexedMoves(m1, base, index, always, k);
  }

  lemma ImmediateMoves(m: Machine, k: nat)
    ensures Went(m, m.(pc := Wrap16(m.pc + 1)), Wrap16(m.pc + 1), 0, k)
  {
    hide BusHits;
  }

  lemma AddressMoves(m: Machine, mode: Mode, always: bool, k: nat)
    ensures var (m', a, px) := Address(m, mode, always);
            && Went(m, m', Wrap16(m.pc + OperandBytes(mode)),
                    ModeCost(mode, always) + (if px && !always then 1 else 0), k)
            && (px ==> NeedsFix(mode))
  {
    hide Read, BusHits, RdPc, Wrap16, Went, AddrZpIndexed, AddrAbs, AddrIzX, IndirectBase, Indexed;
    match mode
    case Imm => ImmediateMoves(m, k);
    case Zp => RdPcMoves(m, k);
    case ZpX => AddrZpIndexedMoves(m, m.r.x, k);
    case ZpY => AddrZpIndexedMoves(m, m.r.y, k);
    case Abs => AddrAbsMoves(m, k);
    case AbsX =>
      AddrAbsMoves(m, k);
      ThenIndexed(m, AddrAbs(m).0, Wrap16(m.pc + 2), 2, AddrAbs(m).1, m.r.x, always, k);
    case AbsY =>
      AddrAbsMoves(m, k);
      ThenIndexed(m, AddrAbs(m).0, Wrap16(m.pc + 2), 2, AddrAbs(m).1, m.r.y, always, k);
    case IzX => AddrIzXMoves(m, k);
    case IzY =>
      IndirectBaseMoves(m, k);
      ThenIndexed(m, IndirectBase(m).0, Wrap16(m.pc + 1), 3, IndirectBase(m).1, m.r.y, always, k);
  }
}
