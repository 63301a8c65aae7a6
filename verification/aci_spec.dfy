/** The cassette card of `aci.c` on values, and its history: what is saved and
    what is read back after any run of ticks, register accesses and loads. */
module AciSpec {
  import opened Bytes
  import opened TapeDetect
  import opened TapeTime
  import opened TapeWav
  import P = TapePlayer
  import Rec = TapeRecorder

  const REWIND_GAP: nat := 511_500   // half a second without reads rewinds the tape

  /** `clock` counts cycles without bound, `toggles` are the times the output
      flip-flop toggled, `since` the cycles ticked since the tape was armed. */
  datatype RawCard = Card(
    clock: nat, toggles: seq<nat>, lastRead: nat,
    loaded: bool, durations: seq<nat>, initial: bool, player: P.Player, since: nat)

  ghost predicate InOrder(c: RawCard) { Rec.InOrder(c.toggles) && forall t :: t in c.toggles ==> t <= c.clock }

  ghost predicate InTape(c: RawCard) {
    && (c.loaded ==> P.IsTape(c.durations))
    && (c.loaded && c.player.active ==> c.player.index < |c.durations|)
  }

  const PowerOn := Card(0, [], 0, false, [], false, P.Player(0, 0, false, false), 0)

  ghost predicate ValidCard(c: RawCard) { InOrder(c) && InTape(c) }

  // The register file

  predicate IsRegister(addr: word) { 0xC000 <= addr <= 0xC0FF }

  predicate Rewinds(c: RawCard, addr: word) {
    addr == 0xC081 && c.loaded && c.player.index > 0 && (c.clock % U32 - c.lastRead) % U32 > REWIND_GAP
  }

  function Rewound(c: RawCard): RawCard
    requires c.loaded ==> c.durations != []
  {
    if c.loaded then c.(player := P.Armed(c.durations, c.initial), since := 0) else c
  }

  function Toggled(c: RawCard): RawCard { c.(toggles := c.toggles + [c.clock]) }

  function Bit(level: bool): byte { if level then 0x80 else 0 }

  /** `aci_read`. */
  function ReadCard(c: RawCard, rom: seq<byte>, addr: word): (RawCard, byte)
    requires |rom| == 256 && (c.loaded ==> c.durations != [])
  {
    if 0xC100 <= addr <= 0xC1FF then (c, rom[addr - 0xC100])
    else if addr == 0xC081 then
      var c1 := (if Rewinds(c, addr) then Rewound(c) else c).(lastRead := c.clock % U32);
      (Toggled(c1), Bit(c1.player.level))
    else if IsRegister(addr) then (Toggled(c), 0)
    else (c, 0)
  }

  /** `aci_write`. */
  function WriteCard(c: RawCard, addr: word): RawCard {
    if IsRegister(addr) && addr != 0xC081 then Toggled(c) else c
  }

  /** `aci_tick`. */
  function TickCard(c: RawCard, cycles: byte): RawCard
    requires c.loaded && c.player.active ==> c.player.index < |c.durations|
  {
    c.(clock := c.clock + cycles, since := c.since + cycles,
       player := if c.loaded then P.TickPlayer(c.durations, c.player, cycles) else c.player)
  }

  /** The next time at which the low 32 bits of the clock are zero. */
  function NextTurn(clock: nat): (next: nat)
    ensures next >= clock && next % U32 == 0
  {
    (clock + U32 - 1) / U32 * U32
  }

  /** `aci_load_tape`: a tape that loads is armed and restarts the cycle counter,
      which the recorder sees as a jump to the counter's next full turn. */
  function LoadCard(c: RawCard, file: seq<byte>): RawCard {
    var r := Load(file);
    if r.Loaded? then
      LoadedIsTape(file);
      c.(clock := NextTurn(c.clock), lastRead := 0, loaded := true, durations := r.durations,
         initial := r.initial, player := P.Armed(r.durations, r.initial), since := 0)
    else c
  }

  lemma DecodedIsTape(xs: seq<int>, rate: nat)
    requires Decode(xs, rate).Decoded?
    ensures P.IsTape(Decode(xs, rate).durations)
  {
    hide Scan, FirstActive;
    assert Detect(xs).Found? && Detect(xs).gaps != [];
  }

  /** Whatever loads is a tape the player accepts. */
  lemma LoadedIsTape(file: seq<byte>)
    requires Load(file).Loaded?
    ensures P.IsTape(Load(file).durations) && Load(file).durations != []
  {
    hide Walk, Decode;
    assert |file| >= 12;
    var w := Walk(file[12..], Fmt(0, 0, 0, 0));
    assert w.DataChunk?;
    DecodedIsTape(Frames(w.data), w.fmt.rate);
  }

  // Runs

  datatype Op = Tick(cycles: byte) | ReadAt(addr: word) | WriteAt(addr: word) | LoadFile(file: seq<byte>)

  ghost function Do(c: RawCard, rom: seq<byte>, op: Op): RawCard
    requires |rom| == 256 && ValidCard(c)
  {
    match op
    case Tick(n) => TickCard(c, n)
    case ReadAt(addr) => ReadCard(c, rom, addr).0
    case WriteAt(addr) => WriteCard(c, addr)
    case LoadFile(file) => LoadCard(c, file)
  }

  lemma ToggledKeeps(c: RawCard)
    requires ValidCard(c)
    ensures ValidCard(Toggled(c))
  {
    hide Rec.InOrder, P.IsTape;
    Rec.StillInOrder(c.toggles, c.clock);
  }

  lemma DoKeeps(c: RawCard, rom: seq<byte>, op: Op)
    requires |rom| == 256 && ValidCard(c)
    ensures ValidCard(Do(c, rom, op))
  {
    hide Rec.InOrder, P.IsTape, Load;
    match op
    case Tick(n) => if c.loaded { P.TickInRange(c.durations, c.player, n); }
    case ReadAt(addr) =>
      TapeIsNotEmpty(c);
      var c1 := (if Rewinds(c, addr) then Rewound(c) else c).(lastRead := c.clock % U32);
      ToggledKeeps(c1);
      ToggledKeeps(c);
    case WriteAt(_) => ToggledKeeps(c);
    case LoadFile(file) => if Load(file).Loaded? { LoadedIsTape(file); }
  }

  lemma TapeIsNotEmpty(c: RawCard)
    requires InTape(c)
    ensures c.loaded ==> c.durations != []
  {
  }

  ghost function Run(c: RawCard, rom: seq<byte>, ops: seq<Op>): (c': RawCard)
    requires |rom| == 256 && ValidCard(c)
    ensures ValidCard(c')
    decreases ops
  {
    if ops == [] then c
    else
      var before := Run(c, rom, ops[..|ops| - 1]);
      DoKeeps(before, rom, ops[|ops| - 1]);
      Do(before, rom, ops[|ops| - 1])
  }

  // What the operations alone say about the recording

  /** The operation accesses a register that toggles the output. */
  predicate Toggles(op: Op) {
    || (op.ReadAt? && IsRegister(op.addr))
    || (op.WriteAt? && IsRegister(op.addr) && op.addr != 0xC081)
  }

  /** The clock after one operation. */
  function Advanced(clock: nat, op: Op): nat {
    if op.Tick? then clock + op.cycles
    else if op.LoadFile? && Load(op.file).Loaded? then NextTurn(clock)
    else clock
  }

  /** The toggles one operation makes. */
  function Toggling(clock: nat, op: Op): seq<nat> { if Toggles(op) then [clock] else [] }

  /** The time after some operations, from power-on. */
  function ClockAfter(ops: seq<Op>): nat {
    if ops == [] then 0 else Advanced(ClockAfter(ops[..|ops| - 1]), ops[|ops| - 1])
  }

  /** When the output toggled. */
  function ToggleTimes(ops: seq<Op>): seq<nat> {
    if ops == [] then []
    else
      var before := ops[..|ops| - 1];
      ToggleTimes(before) + Toggling(ClockAfter(before), ops[|ops| - 1])
  }

  /** The file the operations leave to be saved: the pulses between the toggle
      times, from a low level. */
  function SavedFile(ops: seq<Op>): SaveResult
    requires Rec.InOrder(ToggleTimes(ops))
  {
    Save(false, Rec.Pulses(ToggleTimes(ops)))
  }

  /** One operation on the clock and the toggles. */
  lemma DoMoves(c: RawCard, rom: seq<byte>, op: Op)
    requires |rom| == 256 && ValidCard(c)
    ensures var d := Do(c, rom, op);
            d.clock == Advanced(c.clock, op) && d.toggles == c.toggles + Toggling(c.clock, op)
  {
    hide Load, P.TickPlayer, P.Armed, Rewinds, NextTurn, P.IsTape, Rec.InOrder;
    assert c.toggles + [] == c.toggles;
  }

  /** Clock, toggles and so the saved file depend on nothing else: not on the ROM,
      the tape, or what was read. */
  lemma {:induction false} HistoryIsToggleTimes(rom: seq<byte>, ops: seq<Op>)
    requires |rom| == 256
    ensures ValidCard(PowerOn)
    ensures var c := Run(PowerOn, rom, ops);
            c.clock == ClockAfter(ops) && c.toggles == ToggleTimes(ops) && Rec.InOrder(ToggleTimes(ops))
    ensures Save(false, Rec.Pulses(Run(PowerOn, rom, ops).toggles)) == SavedFile(ops)
    decreases ops
  {
    hide Do, Advanced, Toggling, Save, Rec.Pulses, P.IsTape;
    if ops != [] {
      var before, op := ops[..|ops| - 1], ops[|ops| - 1];
      HistoryIsToggleTimes(rom, before);
      DoMoves(Run(PowerOn, rom, before), rom, op);
    }
  }

  /** A read and then a write of one register, in one cycle of the card's clock,
      as an indexed store makes them, toggles twice at one time. */
  lemma ReadThenWriteTogglesTwice(c: RawCard, rom: seq<byte>, addr: word)
    requires |rom| == 256 && ValidCard(c) && IsRegister(addr) && addr != 0xC081
    ensures var c1 := Do(c, rom, ReadAt(addr));
            ValidCard(c1) && Do(c1, rom, WriteAt(addr)).toggles == c.toggles + [c.clock, c.clock]
  {
    hide Do;
    DoKeeps(c, rom, ReadAt(addr));
    DoMoves(c, rom, ReadAt(addr));
    DoMoves(Do(c, rom, ReadAt(addr)), rom, WriteAt(addr));
  }

  // What the input bit says

  /** The player is where the prefix sums put it, whenever a playable tape is in. */
  ghost predicate InStep(c: RawCard) {
    c.loaded && P.Playable(c.durations) ==> P.Matches(c.durations, c.initial, c.player, c.since)
  }

  lemma DoStaysInStep(c: RawCard, rom: seq<byte>, op: Op)
    requires |rom| == 256 && ValidCard(c) && InStep(c)
    ensures InStep(Do(c, rom, op))
  {
    hide Load, P.Matches, P.TickPlayer, Rec.InOrder, Rewinds, NextTurn;
    match op
    case Tick(n) =>
      if c.loaded && P.Playable(c.durations) { P.TickMatches(c.durations, c.initial, c.player, c.since, n); }
    case ReadAt(_) => if c.loaded && P.Playable(c.durations) { P.ArmedMatches(c.durations, c.initial); }
    case WriteAt(_) => {}
    case LoadFile(file) =>
      var r := Load(file);
      if r.Loaded? && P.Playable(r.durations) { P.ArmedMatches(r.durations, r.initial); }
  }

  /** The player stays where the prefix sums put it. */
  lemma {:induction false} RunStaysInStep(c: RawCard, rom: seq<byte>, ops: seq<Op>)
    requires |rom| == 256 && ValidCard(c) && InStep(c)
    ensures InStep(Run(c, rom, ops))
    decreases ops
  {
    hide InStep, Do;
    if ops != [] {
      RunStaysInStep(c, rom, ops[..|ops| - 1]);
      DoStaysInStep(Run(c, rom, ops[..|ops| - 1]), rom, ops[|ops| - 1]);
    }
  }

  /** Over any run the bit read at $C081 is the tape's level: the initial one,
      flipped once for every prefix sum that has passed since the tape was armed. */
  lemma InputBitFollowsTape(c: RawCard, rom: seq<byte>, ops: seq<Op>)
    requires |rom| == 256 && ValidCard(c) && InStep(c)
    ensures var d := Run(c, rom, ops);
            (d.loaded ==> d.durations != []) &&
            (d.loaded && P.Playable(d.durations) ==>
               ReadCard(d, rom, 0xC081).1 ==
               Bit(if Rewinds(d, 0xC081) then d.initial
                   else P.Flipped(d.initial, |P.Ended(d.durations, d.since)|)))
  {
    hide Run, P.Ended;
    RunStaysInStep(c, rom, ops);
    var d := Run(c, rom, ops);
    if d.loaded && P.Playable(d.durations) { P.PassedCounts(d.durations, d.since, d.player.index); }
  }
}
