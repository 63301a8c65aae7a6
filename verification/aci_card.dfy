/** The cassette interface card of `aci.c`: one object that records the output
    flip-flop, plays the loaded tape into the input bit, and saves and loads. */
module AciCard {
  import opened Bytes
  import opened TapeTime
  import opened TapeWav
  import P = TapePlayer
  import Rec = TapeRecorder
  import S = AciSpec

  class Aci {
    const rom: seq<byte>
    var durations: seq<nat>
    var recorded: seq<nat>
    var current: nat
    var lastToggle: nat
    var lastRead: nat
    var until: int
    var index: nat
    var inputLevel: bool
    var initialLevel: bool
    var outputInitial: bool
    var outputLevel: bool
    var started: bool
    var active: bool
    var loaded: bool
    ghost var clock: nat          // cycles in unbounded time; `current` is its low 32 bits
    ghost var toggles: seq<nat>   // when the output flip-flop toggled
    ghost var since: nat          // cycles ticked since the tape was armed

    ghost function State(): S.RawCard
      reads this
    {
      S.Card(clock, toggles, lastRead, loaded, durations, initialLevel,
             P.Player(index, until, inputLevel, active), since)
    }

    /** What the recorder's fields have to do with the toggle times. */
    ghost predicate Recorder()
      reads this`current, this`clock, this`toggles, this`started, this`lastToggle, this`recorded
      reads this`outputLevel, this`outputInitial
    {
      && current == clock % U32
      && Rec.InOrder(toggles) && (forall t :: t in toggles ==> t <= clock)
      && started == (toggles != [])
      && (started ==> lastToggle == toggles[|toggles| - 1] % U32)
      && recorded == Rec.Pulses(toggles)
      && !outputInitial && outputLevel == P.Flipped(false, |toggles|)
    }

    ghost predicate Valid()
      reads this
    {
      |rom| == 256 && Recorder() && S.InTape(State())
    }

    lemma StateIsValid()
      requires Valid()
      ensures S.ValidCard(State()) && (loaded ==> durations != [])
    {
    }

    /** `aci_create`: everything is zero. */
    constructor (image: seq<byte>)
      requires |image| == 256
      ensures Valid() && State() == S.PowerOn && rom == image
    {
      rom := image;
      durations, recorded := [], [];
      current, lastToggle, lastRead, until, index := 0, 0, 0, 0, 0;
      inputLevel, initialLevel, outputInitial, outputLevel := false, false, false, false;
      started, active, loaded := false, false, false;
      clock, toggles, since := 0, [], 0;
    }

    /** What one more toggle now makes of the recording. */
    lemma ToggleNow()
      requires Recorder()
      ensures var times := toggles + [clock];
              && Rec.InOrder(times) && (forall t :: t in times ==> t <= clock)
              && P.Flipped(false, |times|) == !outputLevel
              && Rec.Pulses(times) ==
                 var delta := (current - lastToggle) % U32;
                 if started && delta > 0 then recorded + [delta] else recorded
    {
      hide Rec.Pulses, Rec.InOrder, P.Flipped;
      P.FlippedAgain(false, |toggles|);
      assert started ==> toggles[|toggles| - 1] in toggles;
      Rec.StillInOrder(toggles, clock);
      Rec.AnotherToggle(toggles, clock);
    }

    /** `aci_record_toggle`: the first toggle only marks the start. */
    method RecordToggle()
      requires Recorder()
      modifies this`recorded, this`lastToggle, this`outputInitial, this`outputLevel, this`started, this`toggles
      ensures Recorder()
      ensures State() == S.Toggled(old(State())) && outputLevel == !old(outputLevel)
    {
      hide Rec.Pulses, Rec.InOrder, P.Flipped;
      ToggleNow();
      P.FlippedAgain(false, 0);
      if !started {
        outputInitial := outputLevel;
        lastToggle := current;
        started := true;
      } else {
        var delta := (current - lastToggle) % U32;
        if delta > 0 {
          recorded := recorded + [delta];
        }
        lastToggle := current;
      }
      outputLevel := !outputLevel;
      toggles := toggles + [clock];
    }

    /** The countdown loop of `aci_tick`. */
    method Advance(cycles: byte)
      requires active ==> index < |durations|
      modifies this`until, this`index, this`inputLevel, this`active
      ensures State().player == P.TickPlayer(durations, old(State()).player, cycles)
    {
      if !active { return; }
      until := until - cycles;
      while until <= 0 && active
        invariant active ==> index < |durations|
        invariant P.Drain(durations, State().player) == P.TickPlayer(durations, old(State()).player, cycles)
        decreases |durations| - index, active
      {
        inputLevel := !inputLevel;
        index := index + 1;
        if index >= |durations| {
          active := false;
          break;
        }
        until := P.AsInt32(until + durations[index]);
      }
    }

    method TickClock(cycles: byte)
      requires Recorder()
      modifies this`current, this`clock
      ensures Recorder() && State() == old(State()).(clock := old(clock) + cycles)
    {
      hide Rec.Pulses, Rec.InOrder;
      current := (current + cycles) % U32;
      clock := clock + cycles;
    }

    /** `aci_tick`. */
    method Tick(cycles: byte)
      requires Valid()
      modifies this`current, this`until, this`index, this`inputLevel, this`active, this`clock, this`since
      ensures Valid() && State() == S.TickCard(old(State()), cycles)
    {
      hide P.TickPlayer, P.IsTape, Recorder;
      TickClock(cycles);
      since := since + cycles;
      if loaded {
        Advance(cycles);
        P.TickInRange(durations, old(State()).player, cycles);
      }
    }

    method Arm()
      requires loaded ==> durations != []
      requires loaded
      modifies this`index, this`until, this`inputLevel, this`active, this`since
      ensures State() == S.Rewound(old(State()))
    {
      index := 0;
      until := P.AsInt32(durations[0]);
      inputLevel := initialLevel;
      active := true;
      since := 0;
    }

    /** `aci_read`: ROM, the tape input bit (with rewind), or a toggle. */
    method Read(addr: word) returns (result: byte)
      requires Valid()
      modifies this`recorded, this`lastToggle, this`outputInitial, this`outputLevel, this`started, this`toggles
      modifies this`index, this`until, this`inputLevel, this`active, this`since, this`lastRead
      ensures Valid()
      ensures old(loaded) ==> old(durations) != []
      ensures (State(), result) == S.ReadCard(old(State()), rom, addr)
    {
      hide Recorder, P.IsTape;
      StateIsValid();
      if 0xC100 <= addr <= 0xC1FF { return rom[addr - 0xC100]; }
      if addr == 0xC081 {
        ReducedClock();
        var gap := (current - lastRead) % U32;
        if loaded && index > 0 && gap > S.REWIND_GAP {
          Arm();
        }
        lastRead := current;
        result := if inputLevel then 0x80 else 0x00;
        RecordToggle();
        return;
      }
      if 0xC000 <= addr <= 0xC0FF {
        RecordToggle();
      }
      return 0;
    }

    lemma ReducedClock()
      requires Recorder()
      ensures current == clock % U32
    {
    }

    /** `aci_write`: every write to the register page but $C081 toggles the output. */
    method Write(addr: word)
      requires Valid()
      modifies this`recorded, this`lastToggle, this`outputInitial, this`outputLevel, this`started, this`toggles
      ensures Valid()
      ensures State() == S.WriteCard(old(State()), addr)
    {
      if 0xC000 <= addr <= 0xC0FF && addr != 0xC081 {
        RecordToggle();
      }
    }

    /** `aci_save_tape`: the toggle times alone decide what is saved. */
    method SaveTape() returns (r: SaveResult)
      requires Valid()
      ensures Rec.InOrder(toggles) && r == Save(false, Rec.Pulses(toggles))
    {
      r := SaveWavTape(outputInitial, recorded);
    }

    /** The player half of a successful load. */
    method Install(ds: seq<nat>, initial: bool)
      requires P.IsTape(ds)
      modifies this`durations, this`initialLevel, this`index, this`until, this`inputLevel, this`active
      modifies this`loaded, this`since
      ensures State() == old(State()).(loaded := true, durations := ds, initial := initial,
                                       player := P.Armed(ds, initial), since := 0)
    {
      durations, initialLevel := ds, initial;
      index, until, inputLevel := 0, P.AsInt32(ds[0]), initial;
      loaded, active := true, true;
      since := 0;
    }

    /** The cycle counter restarts; to the recorder it jumps to its next full turn. */
    method RestartClock()
      requires Recorder()
      modifies this`current, this`lastRead, this`clock
      ensures Recorder() && State() == old(State()).(clock := S.NextTurn(old(clock)), lastRead := 0)
    {
      hide Rec.Pulses, Rec.InOrder, S.NextTurn;
      current, lastRead := 0, 0;
      clock := S.NextTurn(clock);
    }

    /** `aci_load_tape`: a tape that loads is armed at its first pulse and restarts
        the cycle counter; one that does not leaves the card alone. */
    method LoadTape(file: seq<byte>) returns (r: LoadResult)
      requires Valid()
      modifies this`durations, this`initialLevel, this`index, this`until, this`inputLevel, this`active, this`loaded
      modifies this`since, this`current, this`lastRead, this`clock
      ensures Valid() && r == Load(file)
      ensures State() == S.LoadCard(old(State()), file)
    {
      hide Load, P.IsTape, Recorder, S.NextTurn;
      r := LoadWavTape(file);
      if r.Loaded? {
        S.LoadedIsTape(file);
        Install(r.durations, r.initial);
        RestartClock();
      }
    }
  }
}
