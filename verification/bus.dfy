/** The system bus of `bus.c` without expansion cards: RAM (flat, linear or the
    split 8 KB layout), monitor ROM, the mirrored PIA and the open bus.

    `BusState` is the value the bus class below refines.  Every access is
    appended to `log`, which is what cycle counting and framing are stated
    about.  The display's ready line depends on the host clock: `ready` is an
    arbitrary oracle sampled at each access. */
module BusModel {
  import opened Bytes

  const PIA_BASE: word := 0xD010
  const ROM_BASE: word := 0xFF00

  datatype Kind = Fetch | Store | Dummy

  datatype Access = Access(addr: word, kind: Kind, value: byte)

  datatype Pia = Pia(kbdData: byte, kbdControl: byte, dspData: byte, dspControl: byte)

  datatype RawBus = BusState(
    ram: seq<byte>, rom: seq<byte>, romLoaded: bool, flat: bool,
    pia: Pia, last: byte, ready: nat -> bool, display: seq<byte>, log: seq<Access>)

  /** Flat mode needs the full 64 KB, as the documentation demands. */
  predicate ValidBus(b: RawBus) {
    && |b.ram| <= 65536
    && |b.rom| == 256
    && (b.flat ==> |b.ram| == 65536)
  }

  const PowerOnPia := Pia(0, 0x27, 0, 0xA7)

  type BusState = b: RawBus | ValidBus(b)
    witness BusState([], seq(256, _ => 0), false, false, PowerOnPia, 0, _ => true, [], [])

  // Address decoding

  predicate IsRam(ramSize: nat, a: word) {
    if ramSize == 8192 then a < 0x1000 || 0xE000 <= a < 0xF000
    else a < ramSize
  }

  function Translate(ramSize: nat, a: word): (i: word)
    ensures IsRam(ramSize, a) ==> i < ramSize
  {
    if ramSize == 8192 && 0xE000 <= a < 0xF000 then a - 0xD000 else a
  }

  /** Only A0-A1 reach the PIA's register-select pins. */
  function Alias(a: word): word {
    if a / 4096 == 13 then PIA_BASE + a % 4 else a
  }

  predicate IsPia(a: word) { PIA_BASE <= a <= PIA_BASE + 3 }

  // PIA registers

  predicate Strobe(p: Pia) { p.kbdControl >= 128 }

  function PiaRead(p: Pia, a: word, ready: bool): (Pia, byte)
    requires IsPia(a)
  {
    if a == PIA_BASE then
      if BitAt(p.kbdControl, 4) then (p.(kbdControl := p.kbdControl % 128), p.kbdData) else (p, 0)
    else if a == PIA_BASE + 1 then (p, p.kbdControl)
    else if a == PIA_BASE + 2 then (p, p.dspData % 128 + if ready then 0 else 128)
    else (p, p.dspControl % 128 + if ready then 128 else 0)
  }

  /** Bit 7 of a control register is a status flag and survives writes. */
  function KeepStatus(control: byte, value: byte): byte { control / 128 * 128 + value % 128 }

  function PiaWrite(p: Pia, a: word, v: byte): Pia
    requires IsPia(a)
  {
    if a == PIA_BASE + 1 then p.(kbdControl := KeepStatus(p.kbdControl, v))
    else if a == PIA_BASE + 2 && BitAt(p.dspControl, 4) then p.(dspData := v)
    else if a == PIA_BASE + 3 then p.(dspControl := KeepStatus(p.dspControl, v))
    else p
  }

  /** CA1 edge: the key code is latched and the strobe raised. */
  function LatchKey(p: Pia, key: byte): Pia {
    p.(kbdData := key, kbdControl := p.kbdControl % 128 + 128)
  }

  // Bus cycles

  function ReadCore(b: BusState, addr: word): (Pia, byte) {
    if b.flat then (b.pia, b.ram[Translate(|b.ram|, addr)])
    else
      var a := Alias(addr);
      if a >= ROM_BASE then (b.pia, if b.romLoaded then b.rom[a - ROM_BASE] else b.last)
      else if IsPia(a) then PiaRead(b.pia, a, b.ready(|b.log|))
      else (b.pia, if IsRam(|b.ram|, a) then b.ram[Translate(|b.ram|, a)] else b.last)
  }

  function Read(b: BusState, addr: word): (BusState, byte) {
    var (pia, v) := ReadCore(b, addr);
    (b.(pia := pia, last := v, log := b.log + [Access(addr, Fetch, v)]), v)
  }

  /** `addr` gets through decoding to RAM cell `cell`. */
  predicate Reaches(ramSize: nat, flat: bool, addr: word, cell: int) {
    && (flat || (Alias(addr) < ROM_BASE && !IsPia(Alias(addr)) && IsRam(ramSize, Alias(addr))))
    && Translate(ramSize, if flat then addr else Alias(addr)) == cell
  }

  function Write(b: BusState, addr: word, v: byte, kind: Kind): BusState {
    var logged := b.(last := v, log := b.log + [Access(addr, kind, v)]);
    var a := if b.flat then addr else Alias(addr);
    if b.flat then logged.(ram := b.ram[Translate(|b.ram|, a) := v])
    else if a >= ROM_BASE then logged
    else if IsPia(a) then
      logged.(pia := PiaWrite(b.pia, a, v),
              display := if a == PIA_BASE + 2 && BitAt(b.pia.dspControl, 4) then b.display + [v] else b.display)
    else if IsRam(|b.ram|, a) then logged.(ram := b.ram[Translate(|b.ram|, a) := v])
    else logged
  }

  /** `struct bus`: the buffers are updated in place. */
  class Bus {
    const ram: array<byte>
    const rom: array<byte>
    const ready: nat -> bool
    var romLoaded: bool
    var flat: bool
    var pia: Pia
    var last: byte
    var clock: nat            // bus cycles so far: the time at which `ready` is sampled
    var display: seq<byte>    // bytes handed to the terminal
    ghost var log: seq<Access>

    ghost predicate Valid()
      reads this
    {
      && ram.Length <= 65536 && rom.Length == 256 && ram != rom
      && (flat ==> ram.Length == 65536)
      && clock == |log|
    }

    ghost function State(): BusState
      requires Valid()
      reads this, ram, rom
    {
      BusState(ram[..], rom[..], romLoaded, flat, pia, last, ready, display, log)
    }

    constructor (ramSize: nat, isFlat: bool, clockLine: nat -> bool)
      requires ramSize <= 65536 && (isFlat ==> ramSize == 65536)
      ensures Valid() && fresh(ram) && fresh(rom)
      ensures ram.Length == ramSize && flat == isFlat && ready == clockLine
      ensures !Strobe(pia) && !romLoaded && log == [] && display == []
      ensures forall i :: 0 <= i < ramSize ==> ram[i] == 0
    {
      ram := new byte[ramSize](_ => 0);
      rom := new byte[256](_ => 0);
      ready := clockLine;
      romLoaded, flat := false, isFlat;
      pia := PowerOnPia;
      last, clock, display, log := 0, 0, [], [];
    }

    method ReadPia(a: word) returns (v: byte)
      requires Valid() && IsPia(a)
      modifies this`pia
      ensures (pia, v) == PiaRead(old(pia), a, ready(clock))
    {
      if a == PIA_BASE {
        if BitAt(pia.kbdControl, 4) {
          v := pia.kbdData;
          pia := pia.(kbdControl := pia.kbdControl % 128);
        } else {
          v := 0;
        }
      } else if a == PIA_BASE + 1 {
        v := pia.kbdControl;
      } else if a == PIA_BASE + 2 {
        v := pia.dspData % 128;
        if !ready(clock) { v := v + 128; }
      } else {
        v := pia.dspControl % 128;
        if ready(clock) { v := v + 128; }
      }
    }

    method WritePia(a: word, v: byte)
      requires Valid() && IsPia(a)
      modifies this`pia, this`display
      ensures pia == PiaWrite(old(pia), a, v)
      ensures display == old(display) +
                         if a == PIA_BASE + 2 && BitAt(old(pia).dspControl, 4) then [v] else []
    {
      if a == PIA_BASE + 1 {
        pia := pia.(kbdControl := pia.kbdControl / 128 * 128 + v % 128);
      } else if a == PIA_BASE + 2 {
        if BitAt(pia.dspControl, 4) {
          pia := pia.(dspData := v);
          display := display + [v];
        }
      } else if a == PIA_BASE + 3 {
        pia := pia.(dspControl := pia.dspControl / 128 * 128 + v % 128);
      }
    }

    method BusRead(addr: word) returns (v: byte)
      requires Valid()
      modifies this
      ensures Valid()
      ensures (State(), v) == Read(old(State()), addr)
    {
      if flat {
        v := ram[Translate(ram.Length, addr)];
        last := v;
      } else {
        var a := Alias(addr);
        if a >= ROM_BASE {
          if romLoaded { last := rom[a - ROM_BASE]; }
          v := last;
        } else if IsPia(a) {
          v := ReadPia(a);
          last := v;
        } else {
          if IsRam(ram.Length, a) { last := ram[Translate(ram.Length, a)]; }
          v := last;
        }
      }
      log := log + [Access(addr, Fetch, v)];
      clock := clock + 1;
    }

    method BusWrite(addr: word, v: byte, kind: Kind)
      requires Valid()
      modifies this, ram
      ensures Valid()
      ensures State() == Write(old(State()), addr, v, kind)
    {
      last := v;
      if flat {
        ram[Translate(ram.Length, addr)] := v;
      } else {
        var a := Alias(addr);
        if a >= ROM_BASE {
        } else if IsPia(a) {
          WritePia(a, v);
        } else if IsRam(ram.Length, a) {
          ram[Translate(ram.Length, a)] := v;
        }
      }
      log := log + [Access(addr, kind, v)];
      clock := clock + 1;
    }
  }
}
