/** What software sees on the bus, stated from the history of accesses alone:
    no RAM array, no translation, no `last` register. */
module BusMap {
  import opened Bytes
  import opened BusModel

  datatype BusOp = Rd(addr: word) | Wr(addr: word, value: byte) | DummyWr(addr: word, value: byte)

  function Do(b: BusState, op: BusOp): BusState {
    match op
    case Rd(a) => Read(b, a).0
    case Wr(a, v) => Write(b, a, v, Store)
    case DummyWr(a, v) => Write(b, a, v, Dummy)
  }

  function RunBus(b: BusState, ops: seq<BusOp>): BusState {
    if ops == [] then b else Do(RunBus(b, ops[..|ops| - 1]), ops[|ops| - 1])
  }

  // The reference: regions of the documented memory map

  datatype Region = Ram | Rom | PiaPort(reg: word) | Open

  /** The documented map, by address range (documentation/hardware.md). */
  function RegionOf(ramSize: nat, flat: bool, romLoaded: bool, a: word): Region {
    if flat then Ram
    else if a >= 0xFF00 then if romLoaded then Rom else Open
    else if 0xD000 <= a < 0xE000 then PiaPort(0xD010 + a % 4)
    else if ramSize == 8192 then if a < 0x1000 || 0xE000 <= a < 0xF000 then Ram else Open
    else if a < ramSize then Ram else Open
  }

  function Where(b: BusState, a: word): Region { RegionOf(|b.ram|, b.flat, b.romLoaded, a) }

  ghost function PiaAfter(b: BusState, ops: seq<BusOp>): Pia
  {
    if ops == [] then b.pia
    else
      var before, op := ops[..|ops| - 1], ops[|ops| - 1];
      match Where(b, op.addr)
      case PiaPort(r) =>
        if op.Rd? then PiaRead(PiaAfter(b, before), r, b.ready(|b.log| + |before|)).0
        else PiaWrite(PiaAfter(b, before), r, op.value)
      case _ => PiaAfter(b, before)
  }

  /** The byte a read of `a` returns after `ops`: the last byte written to that
      very address, the ROM image, the PIA register, or whatever the previous
      access left on the bus. */
  ghost function Expected(b: BusState, ops: seq<BusOp>, a: word): byte
    decreases |ops|, 1
  {
    match Where(b, a)
    case Ram => LastWritten(b, ops, a)
    case Rom => b.rom[a - 0xFF00]
    case PiaPort(r) => PiaRead(PiaAfter(b, ops), r, b.ready(|b.log| + |ops|)).1
    case Open => OnBus(b, ops)
  }

  ghost function LastWritten(b: BusState, ops: seq<BusOp>, a: word): byte
    requires Where(b, a).Ram?
  {
    if ops == [] then b.ram[Translate(|b.ram|, a)]
    else
      var op := ops[|ops| - 1];
      if op.addr == a && !op.Rd? then op.value else LastWritten(b, ops[..|ops| - 1], a)
  }

  ghost function OnBus(b: BusState, ops: seq<BusOp>): byte
    decreases |ops|, 0
  {
    if ops == [] then b.last
    else
      var op := ops[|ops| - 1];
      if op.Rd? then Expected(b, ops[..|ops| - 1], op.addr) else op.value
  }

  /** Address decoding as the code does it is the documented map. */
  lemma DecodeIsTheMap(b: BusState, a: word)
    ensures Where(b, a).Ram? <==> Reaches(|b.ram|, b.flat, a, Translate(|b.ram|, a))
    ensures Where(b, a).Ram? ==> Translate(|b.ram|, a) < |b.ram|
    ensures Where(b, a).PiaPort? <==> !b.flat && IsPia(Alias(a))
    ensures Where(b, a).PiaPort? ==> Where(b, a).reg == Alias(a)
    ensures Where(b, a).Rom? <==> !b.flat && Alias(a) >= ROM_BASE && b.romLoaded
  {
  }

  /** Distinct RAM addresses never share a cell, in any layout. */
  lemma TranslationIsInjective(ramSize: nat, a: word, c: word)
    requires IsRam(ramSize, a) && IsRam(ramSize, c)
    ensures Translate(ramSize, a) < ramSize
    ensures Translate(ramSize, a) == Translate(ramSize, c) <==> a == c
  {
  }

  ghost predicate Tracks(b: BusState, ops: seq<BusOp>) {
    && var b' := RunBus(b, ops);
    && b'.(ram := b.ram, pia := b.pia, last := b.last, display := b.display, log := b.log) == b
    && |b'.ram| == |b.ram| && |b'.log| == |b.log| + |ops|
    && b'.pia == PiaAfter(b, ops)
    && b'.last == OnBus(b, ops)
    && forall a: word {:trigger LastWritten(b, ops, a)} :: Where(b, a).Ram? ==>
         b'.ram[Translate(|b.ram|, a)] == LastWritten(b, ops, a)
  }

  lemma ReadMatches(b: BusState, ops: seq<BusOp>, a: word)
    requires Tracks(b, ops)
    ensures Read(RunBus(b, ops), a).1 == Expected(b, ops, a)
  {
    DecodeIsTheMap(b, a);
    if Where(b, a).Ram? { var _ := LastWritten(b, ops, a); }
  }

  /** One access changes at most the cell behind its own address. */
  lemma AccessMovesOneCell(b: BusState, op: BusOp, a: word)
    requires Where(b, a).Ram?
    ensures |Do(b, op).ram| == |b.ram|
    ensures Translate(|b.ram|, a) < |b.ram|
    ensures Do(b, op).ram[Translate(|b.ram|, a)] ==
            if op.addr == a && !op.Rd? then op.value else b.ram[Translate(|b.ram|, a)]
  {
    DecodeIsTheMap(b, a);
    if Where(b, op.addr).Ram? && !b.flat {
      TranslationIsInjective(|b.ram|, a, op.addr);
    }
  }

  lemma {:induction false} RunTracks(b: BusState, ops: seq<BusOp>)
    ensures Tracks(b, ops)
  {
    if ops != [] {
      var before, op := ops[..|ops| - 1], ops[|ops| - 1];
      RunTracks(b, before);
      DecodeIsTheMap(b, op.addr);
      ReadMatches(b, before, op.addr);
      forall a: word | Where(b, a).Ram?
        ensures RunBus(b, ops).ram[Translate(|b.ram|, a)] == LastWritten(b, ops, a)
      {
        var _ := LastWritten(b, before, a);
        AccessMovesOneCell(RunBus(b, before), op, a);
      }
    }
  }

  /** Any run of reads, writes and dummy writes: the next read of any address
      returns exactly what the history says. */
  lemma BusIsItsHistory(b: BusState, ops: seq<BusOp>, a: word)
    ensures Read(RunBus(b, ops), a).1 == Expected(b, ops, a)
    ensures RunBus(b, ops).rom == b.rom
  {
    RunTracks(b, ops);
    ReadMatches(b, ops, a);
  }

  /** All $Dxxx addresses with the same A0-A1 are one register. */
  lemma PiaIsMirrored(b: BusState, a: word, c: word, v: byte)
    requires !b.flat
    requires a / 4096 == 13 && c / 4096 == 13 && a % 4 == c % 4
    ensures Read(b, a).1 == Read(b, c).1
    ensures Read(b, a).0.(log := []) == Read(b, c).0.(log := [])
    ensures Write(b, a, v, Store).(log := []) == Write(b, c, v, Store).(log := [])
  {
  }

  lemma AccessKeepsStatus(b: BusState, op: BusOp)
    ensures Strobe(Do(b, op).pia) ==> Strobe(b.pia)
    ensures !op.Rd? ==> Strobe(Do(b, op).pia) == Strobe(b.pia)
    ensures Do(b, op).pia.dspControl / 128 == b.pia.dspControl / 128
    ensures Do(b, op).pia.kbdData == b.pia.kbdData
  {
  }

  /** Writes never touch the two status bits; over a whole run the keyboard
      strobe can only fall, and the display status bit never moves. */
  lemma {:induction false} StatusBitsAreReadOnly(b: BusState, ops: seq<BusOp>)
    ensures Strobe(RunBus(b, ops).pia) ==> Strobe(b.pia)
    ensures (forall op :: op in ops ==> !op.Rd?) ==> Strobe(RunBus(b, ops).pia) == Strobe(b.pia)
    ensures RunBus(b, ops).pia.dspControl / 128 == b.pia.dspControl / 128
    ensures RunBus(b, ops).pia.kbdData == b.pia.kbdData
  {
    if ops != [] {
      StatusBitsAreReadOnly(b, ops[..|ops| - 1]);
      AccessKeepsStatus(RunBus(b, ops[..|ops| - 1]), ops[|ops| - 1]);
    }
  }
}
