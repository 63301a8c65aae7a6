/** The keyboard path: `io.c`'s ring buffer, the PIA latch of
    `bus_update_keyboard`, and the CPU's read of $D010. */
module Keyboard {
  import opened Bytes
  import opened BusModel

  const RING_SIZE: nat := 2048

  /** The slot `i` places behind `start`. */
  function Slot(start: nat, i: nat): (k: nat)
    ensures k < RING_SIZE
  {
    (start + i) % RING_SIZE
  }

  lemma Reduced(k: nat)
    requires k < 2 * RING_SIZE
    ensures k % RING_SIZE == if k < RING_SIZE then k else k - RING_SIZE
  {
  }

  /** One place further on, whichever end is moved. */
  lemma NextSlot(start: nat, i: nat)
    requires start < RING_SIZE && i < RING_SIZE
    ensures Slot(start, i + 1) == (Slot(start, i) + 1) % RING_SIZE == Slot((start + 1) % RING_SIZE, i)
  {
    Reduced(start + i);
    Reduced(start + i + 1);
    Reduced(start + 1);
    if start + 1 == RING_SIZE { Reduced(i); }
  }

  /** A slot is the start again only after no turn or a whole one. */
  lemma SlotIsStart(start: nat, i: nat)
    requires start < RING_SIZE && i <= RING_SIZE
    ensures Slot(start, i) == start <==> i == 0 || i == RING_SIZE
  {
  }

  lemma SlotsDiffer(start: nat, i: nat, j: nat)
    requires i < j < RING_SIZE
    ensures Slot(start, i) != Slot(start, j)
  {
    assert (start + j) % RING_SIZE == ((start + i) % RING_SIZE + (j - i)) % RING_SIZE;
  }

  /** The static ring buffer of `io.c`; one slot always stays free. */
  class KeyRing {
    const buffer: array<byte>
    var readIdx: nat
    var writeIdx: nat
    ghost var keys: seq<byte>

    ghost predicate Valid()
      reads this, buffer
    {
      && buffer.Length == RING_SIZE
      && readIdx < RING_SIZE && writeIdx == Slot(readIdx, |keys|) && |keys| < RING_SIZE
      && forall i :: 0 <= i < |keys| ==> buffer[Slot(readIdx, i)] == keys[i]
    }

    constructor ()
      ensures Valid() && keys == [] && fresh(buffer)
    {
      buffer := new byte[RING_SIZE](_ => 0);
      readIdx, writeIdx, keys := 0, 0, [];
    }

    /** `io_check_keyboard`, given what `term_poll` returned (0 for nothing). */
    method Check(polled: byte) returns (available: bool)
      requires Valid()
      modifies this`writeIdx, this`keys, buffer
      ensures Valid()
      ensures keys == Accept(old(keys), polled)
      ensures available == (keys != [])
    {
      hide Slot;
      ghost var n := |keys|;
      NextSlot(readIdx, n);
      SlotIsStart(readIdx, n);
      SlotIsStart(readIdx, n + 1);
      forall i | 0 <= i < n ensures Slot(readIdx, i) != Slot(readIdx, n) { SlotsDiffer(readIdx, i, n); }
      if polled != 0 {
        var next := (writeIdx + 1) % RING_SIZE;
        if next != readIdx {
          buffer[writeIdx] := polled;
          writeIdx := next;
          keys := keys + [polled];
        }
      }
      available := readIdx != writeIdx;
    }

    /** `io_read_keyboard`: 0 when empty. */
    method Take() returns (key: byte)
      requires Valid()
      modifies this`readIdx, this`keys
      ensures Valid()
      ensures old(keys) == [] ==> key == 0 && keys == []
      ensures old(keys) != [] ==> [key] + keys == old(keys)
    {
      hide Slot;
      key := 0;
      SlotIsStart(readIdx, |keys|);
      SlotIsStart(readIdx, 0);
      if readIdx != writeIdx {
        ghost var next := (readIdx + 1) % RING_SIZE;
        forall i | 0 <= i < |keys| ensures Slot(next, i) == Slot(readIdx, i + 1) { NextSlot(readIdx, i); }
        key := buffer[readIdx];
        readIdx := (readIdx + 1) % RING_SIZE;
        keys := keys[1..];
      }
    }
  }

  /** A key enters the ring unless there is none or the ring is full. */
  function Accept(keys: seq<byte>, polled: byte): seq<byte> {
    if polled != 0 && |keys| < RING_SIZE - 1 then keys + [polled] else keys
  }

  // The three stages as one machine, with the history of what went through

  datatype Path = Path(
    flat: bool, pia: Pia, keys: seq<byte>, bounceOn: bool, bounce: nat,
    accepted: seq<byte>, delivered: seq<byte>, time: nat, latches: seq<nat>)

  datatype Event =
    | Poll(polled: byte, rand: nat)
    | CpuReads(addr: word)
    | CpuWrites(addr: word, value: byte)
    | Ticks(cycles: byte)

  predicate Settling(s: Path) { s.bounceOn && s.bounce > 0 }

  function Enqueue(s: Path, polled: byte): Path {
    var keys := Accept(s.keys, polled);
    s.(keys := keys, accepted := if keys != s.keys then s.accepted + [polled] else s.accepted)
  }

  /** With the strobe down, the oldest key moves to the PIA and the lockout starts. */
  function LatchNext(s: Path, rand: nat): Path {
    if Strobe(s.pia) || s.keys == [] then s
    else if s.keys[0] == 0 then s.(keys := s.keys[1..])
    else s.(keys := s.keys[1..], pia := LatchKey(s.pia, s.keys[0]), latches := s.latches + [s.time],
            bounce := if s.bounceOn then 5000 + rand % 10000 else s.bounce)
  }

  /** `bus_update_keyboard`: nothing happens while the encoder settles. */
  function Update(s: Path, polled: byte, rand: nat): Path {
    if Settling(s) then s else LatchNext(Enqueue(s, polled), rand)
  }

  /** A read of $D010 takes the key: the port is in data mode and the strobe is up. */
  predicate Delivers(s: Path, addr: word) {
    !s.flat && Alias(addr) == PIA_BASE && BitAt(s.pia.kbdControl, 4) && Strobe(s.pia)
  }

  function Next(s: Path, e: Event): Path {
    match e
    case Poll(polled, rand) => Update(s, polled, rand)
    case CpuReads(addr) =>
      if s.flat || !IsPia(Alias(addr)) then s
      else s.(pia := PiaRead(s.pia, Alias(addr), true).0,
              delivered := if Delivers(s, addr) then s.delivered + [s.pia.kbdData] else s.delivered)
    case CpuWrites(addr, value) =>
      if s.flat || !IsPia(Alias(addr)) then s else s.(pia := PiaWrite(s.pia, Alias(addr), value))
    case Ticks(cycles) =>
      s.(time := s.time + cycles,
         bounce := if Settling(s) then if s.bounce > cycles then s.bounce - cycles else 0 else s.bounce)
  }

  function Run(s: Path, es: seq<Event>): Path {
    if es == [] then s else Next(Run(s, es[..|es| - 1]), es[|es| - 1])
  }

  /** The key waiting in the PIA, if the strobe is up. */
  function Latched(p: Pia): seq<byte> { if Strobe(p) then [p.kbdData] else [] }

  ghost predicate Inv(s: Path) {
    // every key accepted is delivered, latched or queued, once and in order
    && s.accepted == s.delivered + Latched(s.pia) + s.keys
    && (forall k :: k in s.keys ==> k != 0)
    && (forall i :: 0 <= i < |s.latches| ==> s.latches[i] <= s.time)
    // the lockout outlasts 5000 cycles
    && (s.bounceOn && s.latches != [] ==> s.bounce + (s.time - s.latches[|s.latches| - 1]) >= 5000)
    && (s.bounceOn ==> Spaced(s.latches))
  }

  ghost predicate Spaced(ts: seq<nat>) {
    forall i :: 0 < i < |ts| ==> ts[i] >= ts[i - 1] + 5000
  }

  lemma EnqueueKeeps(s: Path, polled: byte)
    requires Inv(s)
    ensures Inv(Enqueue(s, polled))
  {
    var s' := Enqueue(s, polled);
    assert s'.accepted == s.delivered + Latched(s.pia) + s'.keys;
    assert forall k :: k in s'.keys ==> k in s.keys || k == polled;
  }

  lemma LatchKeeps(s: Path, rand: nat)
    requires Inv(s) && !Settling(s)
    ensures Inv(LatchNext(s, rand))
  {
    if !Strobe(s.pia) && s.keys != [] {
      assert s.keys == [s.keys[0]] + s.keys[1..];
      assert s.keys[0] in s.keys;
      var s' := LatchNext(s, rand);
      assert s'.accepted == s'.delivered + Latched(s'.pia) + s'.keys;
      assert forall k :: k in s'.keys ==> k in s.keys;
    }
  }

  lemma StepKeeps(s: Path, e: Event)
    requires Inv(s)
    ensures Inv(Next(s, e))
  {
    match e
    case Poll(polled, rand) =>
      if !Settling(s) { EnqueueKeeps(s, polled); LatchKeeps(Enqueue(s, polled), rand); }
    case CpuReads(addr) =>
    case CpuWrites(addr, value) =>
    case Ticks(cycles) =>
  }

  /** Any interleaving of polls, bus accesses and ticks, from a quiet start:
      keys come out of $D010 exactly once and in order, and with bounce
      emulation on, latches are at least 5000 cycles apart. */
  lemma {:induction false} ExactlyOnceInOrder(s: Path, es: seq<Event>)
    requires Inv(s)
    ensures Inv(Run(s, es))
  {
    if es != [] {
      ExactlyOnceInOrder(s, es[..|es| - 1]);
      StepKeeps(Run(s, es[..|es| - 1]), es[|es| - 1]);
    }
  }

  /** What the CPU sees: a delivering read returns the key it takes, and every
      other read or write leaves the queue of undelivered keys as it was. */
  lemma ReadsTakeOneKey(s: Path, addr: word)
    ensures var s' := Next(s, CpuReads(addr));
            if Delivers(s, addr)
            then [PiaRead(s.pia, Alias(addr), true).1] + Latched(s'.pia) + s'.keys == Latched(s.pia) + s.keys
            else Latched(s'.pia) + s'.keys == Latched(s.pia) + s.keys
  {
  }

  // The imperative path

  class KeyboardPort {
    const bus: Bus
    const ring: KeyRing
    const bounceOn: bool
    var bounce: nat
    ghost var accepted: seq<byte>
    ghost var delivered: seq<byte>
    ghost var time: nat
    ghost var latches: seq<nat>

    ghost predicate Valid()
      reads this, bus, ring, ring.buffer
    {
      bus.Valid() && ring.Valid() && ring.buffer != bus.ram && ring.buffer != bus.rom && Inv(State())
    }

    ghost function State(): Path
      reads this, bus, ring
    {
      Path(bus.flat, bus.pia, ring.keys, bounceOn, bounce, accepted, delivered, time, latches)
    }

    constructor (b: Bus, emulateBounce: bool)
      requires b.Valid() && !Strobe(b.pia)
      ensures Valid() && bus == b && bounceOn == emulateBounce && fresh(ring) && fresh(ring.buffer)
      ensures accepted == [] && latches == []
    {
      bus, bounceOn := b, emulateBounce;
      ring := new KeyRing();
      bounce, accepted, delivered, time, latches := 0, [], [], 0, [];
    }

    /** `bus_update_keyboard`; `polled` is the terminal's key, `rand` is `port_rand()`. */
    method UpdateKeyboard(polled: byte, rand: nat)
      requires Valid()
      modifies this`bounce, this`accepted, this`latches, bus`pia, ring, ring.buffer
      ensures Valid()
      ensures State() == Next(old(State()), Poll(polled, rand))
    {
      hide Inv, Bus.State, KeyRing.Valid;
      StepKeeps(State(), Poll(polled, rand));
      if bounceOn && bounce > 0 { return; }
      var available := ring.Check(polled);
      if ring.keys != old(ring.keys) { accepted := accepted + [polled]; }
      if bus.pia.kbdControl < 128 && available {
        var key := ring.Take();
        if key != 0 {
          bus.pia := bus.pia.(kbdData := key, kbdControl := bus.pia.kbdControl % 128 + 128);
          latches := latches + [time];
          if bounceOn { bounce := 5000 + rand % 10000; }
        }
      }
    }

    /** `bus_tick_kbd_bounce`. */
    method TickBounce(cycles: byte)
      requires Valid()
      modifies this`bounce, this`time
      ensures Valid()
      ensures State() == Next(old(State()), Ticks(cycles))
    {
      hide Inv;
      StepKeeps(State(), Ticks(cycles));
      if bounceOn && bounce > 0 {
        if bounce > cycles { bounce := bounce - cycles; } else { bounce := 0; }
      }
      time := time + cycles;
    }

    /** A CPU read anywhere on the bus. */
    method CpuRead(addr: word) returns (v: byte)
      requires Valid()
      modifies this`delivered, bus
      ensures Valid()
      ensures State() == Next(old(State()), CpuReads(addr))
      ensures v == Read(old(bus.State()), addr).1
    {
      hide Inv;
      StepKeeps(State(), CpuReads(addr));
      if Delivers(State(), addr) { delivered := delivered + [bus.pia.kbdData]; }
      v := bus.BusRead(addr);
    }

    method CpuWrite(addr: word, v: byte)
      requires Valid()
      modifies bus, bus.ram
      ensures Valid()
      ensures State() == Next(old(State()), CpuWrites(addr, v))
    {
      hide Inv;
      StepKeeps(State(), CpuWrites(addr, v));
      bus.BusWrite(addr, v, Store);
    }
  }
}
