/** Playback in `aci_tick`: an incremental player driven by ticks of any size
    against the prefix sums of the pulse lengths. */
module TapePlayer {
  import opened Bytes
  import opened TapeTime

  const INT32_MAX: int := 0x7FFF_FFFF

  /** Conversion of a 32-bit pattern to `int32_t`. */
  function AsInt32(x: int): int {
    var u := x % U32;
    if u > INT32_MAX then u - U32 else u
  }

  function Flipped(level: bool, n: nat): bool { if n % 2 == 0 then level else !level }

  lemma FlippedAgain(level: bool, n: nat)
    ensures Flipped(level, n + 1) == !Flipped(level, n) && Flipped(level, 0) == level
  {
  }

  datatype Player = Player(index: nat, until: int, level: bool, active: bool)

  function Armed(ds: seq<nat>, initial: bool): Player
    requires ds != []
  {
    Player(0, AsInt32(ds[0]), initial, true)
  }

  /** The inner loop: flip the level once for every pulse that has run out. */
  function Drain(ds: seq<nat>, p: Player): Player
    requires p.active ==> p.index < |ds|
    decreases |ds| - p.index
  {
    if !p.active || p.until > 0 then p
    else if p.index + 1 >= |ds| then p.(index := p.index + 1, level := !p.level, active := false)
    else Drain(ds, Player(p.index + 1, AsInt32(p.until + ds[p.index + 1]), !p.level, true))
  }

  function TickPlayer(ds: seq<nat>, p: Player, cycles: byte): Player
    requires p.active ==> p.index < |ds|
  {
    if p.active then Drain(ds, p.(until := p.until - cycles)) else p
  }

  lemma {:induction false} DrainInRange(ds: seq<nat>, p: Player)
    requires p.active ==> p.index < |ds|
    ensures var q := Drain(ds, p);
            (q.active ==> q.index < |ds|) && (p.until <= INT32_MAX ==> q.until <= INT32_MAX)
    decreases |ds| - p.index
  {
    if p.active && p.until <= 0 && p.index + 1 < |ds| {
      DrainInRange(ds, Player(p.index + 1, AsInt32(p.until + ds[p.index + 1]), !p.level, true));
    }
  }

  lemma TickInRange(ds: seq<nat>, p: Player, cycles: byte)
    requires p.active ==> p.index < |ds|
    ensures var q := TickPlayer(ds, p, cycles); q.active ==> q.index < |ds|
  {
    if p.active { DrainInRange(ds, p.(until := p.until - cycles)); }
  }

  function RunTicks(ds: seq<nat>, initial: bool, cs: seq<byte>): (p: Player)
    requires ds != []
    ensures (p.active ==> p.index < |ds|) && p.until <= INT32_MAX
  {
    if cs == [] then Armed(ds, initial)
    else
      var p := RunTicks(ds, initial, cs[..|cs| - 1]);
      DrainInRange(ds, p.(until := p.until - cs[|cs| - 1]));
      TickPlayer(ds, p, cs[|cs| - 1])
  }

  // The specification: prefix sums

  function Prefix(ds: seq<nat>, k: nat): nat
    requires k <= |ds|
  {
    if k == 0 then 0 else Prefix(ds, k - 1) + ds[k - 1]
  }

  /** Exactly the first `k` pulses have ended by time `t`. */
  ghost predicate Passed(ds: seq<nat>, t: int, k: nat) {
    k <= |ds| && Prefix(ds, k) <= t && (k < |ds| ==> t < Prefix(ds, k + 1))
  }

  /** The player is where the prefix sums put it `t` cycles after arming. */
  ghost predicate Matches(ds: seq<nat>, initial: bool, p: Player, t: int) {
    && Passed(ds, t, p.index)
    && p.level == Flipped(initial, p.index)
    && p.active == (p.index < |ds|)
    && (p.active ==> p.until == Prefix(ds, p.index + 1) - t)
  }

  ghost predicate IsTape(ds: seq<nat>) { ds != [] && forall i :: 0 <= i < |ds| ==> ds[i] >= 1 }

  /** Every pulse length fits the `int32_t` countdown. */
  ghost predicate Playable(ds: seq<nat>) { IsTape(ds) && forall i :: 0 <= i < |ds| ==> ds[i] <= INT32_MAX }

  lemma ArmedMatches(ds: seq<nat>, initial: bool)
    requires Playable(ds)
    ensures Matches(ds, initial, Armed(ds, initial), 0)
  {
    assert Prefix(ds, 1) == ds[0];
  }

  lemma {:induction false} DrainMatches(ds: seq<nat>, initial: bool, p: Player, t: int)
    requires Playable(ds) && p.active && p.index < |ds|
    requires Prefix(ds, p.index) <= t && p.level == Flipped(initial, p.index)
    requires p.until == Prefix(ds, p.index + 1) - t > -256
    ensures Matches(ds, initial, Drain(ds, p), t)
    decreases |ds| - p.index
  {
    if p.until <= 0 && p.index + 1 < |ds| {
      assert Prefix(ds, p.index + 2) == Prefix(ds, p.index + 1) + ds[p.index + 1];
      DrainMatches(ds, initial, Player(p.index + 1, AsInt32(p.until + ds[p.index + 1]), !p.level, true), t);
    }
  }

  lemma TickMatches(ds: seq<nat>, initial: bool, p: Player, t: int, cycles: byte)
    requires Playable(ds) && Matches(ds, initial, p, t)
    ensures Matches(ds, initial, TickPlayer(ds, p, cycles), t + cycles)
  {
    if p.active { DrainMatches(ds, initial, p.(until := p.until - cycles), t + cycles); }
  }

  function Total(cs: seq<byte>): nat { if cs == [] then 0 else Total(cs[..|cs| - 1]) + cs[|cs| - 1] }

  /** After ticks totalling T: the index counts the prefix sums up to T, the
      countdown is the distance to the next one, the level has flipped that often. */
  lemma {:induction false} PlaybackIsPrefixSums(ds: seq<nat>, initial: bool, cs: seq<byte>)
    requires Playable(ds)
    ensures Matches(ds, initial, RunTicks(ds, initial, cs), Total(cs))
  {
    if cs == [] {
      ArmedMatches(ds, initial);
    } else {
      var before := cs[..|cs| - 1];
      PlaybackIsPrefixSums(ds, initial, before);
      TickMatches(ds, initial, RunTicks(ds, initial, before), Total(before), cs[|cs| - 1]);
    }
  }

  lemma {:induction false} PrefixGrows(ds: seq<nat>, j: nat, k: nat)
    requires IsTape(ds) && j < k <= |ds|
    ensures Prefix(ds, j) < Prefix(ds, k)
    decreases k
  {
    if j + 1 < k { PrefixGrows(ds, j, k - 1); }
  }

  lemma PassedIsUnique(ds: seq<nat>, t: int, j: nat, k: nat)
    requires IsTape(ds) && Passed(ds, t, j) && Passed(ds, t, k)
    ensures j == k
  {
    if j < k {
      if j + 1 < k { PrefixGrows(ds, j + 1, k); }
    } else if k < j {
      if k + 1 < j { PrefixGrows(ds, k + 1, j); }
    }
  }

  /** The numbers 1 to n. */
  ghost function UpTo(n: nat): (s: set<nat>)
    ensures |s| == n && forall j :: j in s <==> 1 <= j <= n
  {
    if n == 0 then {} else UpTo(n - 1) + {n}
  }

  /** The pulses that have ended by time `t`, numbered from 1. */
  ghost function Ended(ds: seq<nat>, t: int): set<nat> {
    set j: nat | 1 <= j <= |ds| && Prefix(ds, j) <= t
  }

  /** `playback_index` is the number of prefix sums that are at most `t`. */
  lemma PassedCounts(ds: seq<nat>, t: int, k: nat)
    requires IsTape(ds) && Passed(ds, t, k)
    ensures k == |Ended(ds, t)|
  {
    forall j: nat | 1 <= j <= |ds| ensures Prefix(ds, j) <= t <==> j <= k {
      if j < k { PrefixGrows(ds, j, k); }
      if k + 1 < j { PrefixGrows(ds, k + 1, j); }
    }
    assert Ended(ds, t) == UpTo(k);
  }

  /** How the ticks were split does not matter. */
  lemma SplitDoesNotMatter(ds: seq<nat>, initial: bool, cs: seq<byte>, cs': seq<byte>)
    requires Playable(ds) && Total(cs) == Total(cs')
    ensures var p, p' := RunTicks(ds, initial, cs), RunTicks(ds, initial, cs');
            p.index == p'.index && p.level == p'.level && p.active == p'.active && (p.active ==> p.until == p'.until)
  {
    PlaybackIsPrefixSums(ds, initial, cs);
    PlaybackIsPrefixSums(ds, initial, cs');
    PassedIsUnique(ds, Total(cs), RunTicks(ds, initial, cs).index, RunTicks(ds, initial, cs').index);
  }

  // Where it stops being true

  /** Ticks of one cycle each. */
  function Ones(t: nat): (cs: seq<byte>)
    ensures Total(cs) == t
  {
    if t == 0 then []
    else
      var cs := Ones(t - 1) + [1];
      assert cs[..|cs| - 1] == Ones(t - 1);
      cs
  }

  ghost predicate PlaysCorrectly(ds: seq<nat>, initial: bool)
    requires ds != []
  {
    forall cs: seq<byte> {:trigger RunTicks(ds, initial, cs)} ::
      Matches(ds, initial, RunTicks(ds, initial, cs), Total(cs))
  }

  /** Playback follows the prefix sums for every sequence of ticks exactly when
      no pulse exceeds INT32_MAX cycles: a longer one never fits the countdown. */
  lemma PlaysCorrectlyExactlyWhen(ds: seq<nat>, initial: bool)
    requires IsTape(ds)
    ensures PlaysCorrectly(ds, initial) <==> Playable(ds)
  {
    if Playable(ds) {
      forall cs: seq<byte> ensures Matches(ds, initial, RunTicks(ds, initial, cs), Total(cs)) {
        PlaybackIsPrefixSums(ds, initial, cs);
      }
    } else {
      var j :| 0 <= j < |ds| && ds[j] > INT32_MAX;
      var cs := Ones(Prefix(ds, j));
      if Matches(ds, initial, RunTicks(ds, initial, cs), Total(cs)) {
        assert Prefix(ds, j + 1) == Prefix(ds, j) + ds[j];
        PassedIsUnique(ds, Prefix(ds, j), RunTicks(ds, initial, cs).index, j);
      }
    }
  }

  /** A 3 000 000 000-cycle pulse ends on the first tick. */
  lemma LongPulseEndsAtOnce()
    ensures RunTicks([3_000_000_000, 5], true, [1]).index == 2
  {
    var ds: seq<nat> := [3_000_000_000, 5];
    assert RunTicks(ds, true, []) == Player(0, -1_294_967_296, true, true);
    assert [1][..0] == [];
    assert TickPlayer(ds, Player(0, -1_294_967_296, true, true), 1) ==
           Drain(ds, Player(1, -1_294_967_292, false, true));
  }
}
