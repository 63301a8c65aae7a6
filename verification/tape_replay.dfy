/** From the output flip-flop to the input bit: what the replayed level has to do
    with the level that was recorded. */
module TapeReplay {
  import opened Bytes
  import opened TapeTime
  import opened TapeWav
  import P = TapePlayer
  import Rec = TapeRecorder

  // The output flip-flop

  /** Toggles up to and including time `t`. */
  function CountTo(ts: seq<nat>, t: int): nat {
    if ts == [] then 0 else CountTo(ts[..|ts| - 1], t) + if ts[|ts| - 1] <= t then 1 else 0
  }

  /** The level of the flip-flop at time `t`. */
  function LevelAt(ts: seq<nat>, initial: bool, t: int): bool { P.Flipped(initial, CountTo(ts, t)) }

  /** The times at which it toggled, each once. */
  function Instants(ts: seq<nat>): (us: seq<nat>)
    ensures ts != [] ==> us != [] && us[|us| - 1] == ts[|ts| - 1]
  {
    if ts == [] then []
    else
      var before, t := Instants(ts[..|ts| - 1]), ts[|ts| - 1];
      if before != [] && before[|before| - 1] == t then before else before + [t]
  }

  /** The k-th instant, counted from the first. */
  function Since(ts: seq<nat>, k: nat): int
    requires k < |Instants(ts)|
  {
    var at: int, start: int := Instants(ts)[k], Instants(ts)[0];
    at - start
  }

  /** No instant holds an even number of toggles, which would cancel out. */
  ghost predicate OddInstants(ts: seq<nat>) { forall t :: t in ts ==> multiset(ts)[t] % 2 == 1 }

  predicate Ascends(us: seq<nat>) { forall j, k :: 0 <= j < k < |us| ==> us[j] < us[k] }

  lemma AscendsOn(us: seq<nat>, t: nat)
    requires Ascends(us) && (us == [] || us[|us| - 1] < t)
    ensures Ascends(us + [t])
  {
    forall j | 0 <= j < |us| ensures us[j] < t {
      if j < |us| - 1 { assert us[j] < us[|us| - 1]; }
    }
  }

  lemma Ordered(ts: seq<nat>)
    requires Rec.InOrder(ts) && |ts| >= 2
    ensures ts[|ts| - 2] <= ts[|ts| - 1]
  {
  }

  lemma BeforeInOrder(ts: seq<nat>)
    requires Rec.InOrder(ts) && ts != []
    ensures Rec.InOrder(ts[..|ts| - 1])
  {
  }

  lemma {:induction false} InstantsAscend(ts: seq<nat>)
    requires Rec.InOrder(ts)
    ensures Ascends(Instants(ts)) && forall t :: t in Instants(ts) <==> t in ts
  {
    hide Ascends, Rec.InOrder;
    if ts == [] {
      NothingAscends();
    } else {
      var before, t := ts[..|ts| - 1], ts[|ts| - 1];
      BeforeInOrder(ts);
      InstantsAscend(before);
      assert ts == before + [t];
      var us := Instants(before);
      if us == [] || us[|us| - 1] != t {
        if before != [] { Ordered(ts); }
        AscendsOn(us, t);
      } else {
        assert us[|us| - 1] in us;
      }
    }
  }

  lemma NothingAscends()
    ensures Ascends([])
  {
  }

  /** Toggles at `t` are what is counted at `t` and not before. */
  lemma {:induction false} CountsAt(ts: seq<nat>, s: int, t: nat)
    requires s < t && forall x :: x in ts ==> x <= s || x >= t
    ensures CountTo(ts, t) == CountTo(ts, s) + multiset(ts)[t]
  {
    if ts != [] {
      var before: seq<nat>, x: nat := ts[..|ts| - 1], ts[|ts| - 1];
      assert ts == before + [x];
      assert x in ts && forall y :: y in before ==> y in ts;
      assert multiset(ts) == multiset(before) + multiset{x};
      CountsAt(before, s, t);
    }
  }

  lemma {:induction false} CountsNothing(ts: seq<nat>, s: int)
    requires forall x :: x in ts ==> x > s
    ensures CountTo(ts, s) == 0
  {
    if ts != [] {
      var before := ts[..|ts| - 1];
      assert ts[|ts| - 1] in ts && forall x :: x in before ==> x in ts;
      CountsNothing(before, s);
    }
  }

  lemma InstantCounts(ts: seq<nat>, k: nat)
    requires Rec.InOrder(ts) && k < |Instants(ts)|
    ensures CountTo(ts, Instants(ts)[k]) ==
            (if k == 0 then 0 else CountTo(ts, Instants(ts)[k - 1])) + multiset(ts)[Instants(ts)[k]]
  {
    hide CountTo, Instants, Rec.InOrder;
    InstantsAscend(ts);
    var us := Instants(ts);
    var s: int := if k == 0 then -1 else us[k - 1];
    forall x | x in ts ensures x <= s || x >= us[k] {
      var j :| 0 <= j < |us| && us[j] == x;
    }
    CountsAt(ts, s, us[k]);
    if k == 0 { CountsNothing(ts, -1); }
  }

  /** Counts up to the k-th instant have the parity of k + 1 if all instants are odd. */
  lemma {:induction false} OddCounts(ts: seq<nat>, k: nat)
    requires Rec.InOrder(ts) && OddInstants(ts) && k < |Instants(ts)|
    ensures CountTo(ts, Instants(ts)[k]) % 2 == (k + 1) % 2
  {
    hide CountTo, Instants, Rec.InOrder;
    InstantCounts(ts, k);
    InstantsAscend(ts);
    assert Instants(ts)[k] in ts;
    if k > 0 { OddCounts(ts, k - 1); }
  }

  /** At an instant with an even number of toggles, or at the one before it, the
      levels agree. */
  lemma EvenInstantShows(ts: seq<nat>, initial: bool, k: nat)
    requires Rec.InOrder(ts) && k < |Instants(ts)| && multiset(ts)[Instants(ts)[k]] % 2 == 0
    ensures || LevelAt(ts, initial, Instants(ts)[k]) == P.Flipped(initial, k)
            || (k > 0 && LevelAt(ts, initial, Instants(ts)[k - 1]) == P.Flipped(initial, k - 1))
  {
    hide CountTo, Instants, Rec.InOrder;
    InstantCounts(ts, k);
  }

  /** At every instant the flip-flop shows the complement of a level that starts at
      `initial` and flips from instant to instant - if and only if every instant
      holds an odd number of toggles. */
  lemma ComplementIffOdd(ts: seq<nat>, initial: bool)
    requires Rec.InOrder(ts)
    ensures (forall k :: 0 <= k < |Instants(ts)| ==> LevelAt(ts, initial, Instants(ts)[k]) != P.Flipped(initial, k))
            <==> OddInstants(ts)
  {
    hide CountTo, Instants, Rec.InOrder, OddInstants;
    var us := Instants(ts);
    InstantsAscend(ts);
    if OddInstants(ts) {
      forall k | 0 <= k < |us| ensures LevelAt(ts, initial, us[k]) != P.Flipped(initial, k) { OddCounts(ts, k); }
    } else {
      var t := EvenInstant(ts);
      var k :| 0 <= k < |us| && us[k] == t;
      EvenInstantShows(ts, initial, k);
    }
  }

  lemma EvenInstant(ts: seq<nat>) returns (t: nat)
    requires !OddInstants(ts)
    ensures t in ts && multiset(ts)[t] % 2 == 0
  {
    t :| t in ts && multiset(ts)[t] % 2 != 1;
  }

  // The recording is the instants

  lemma {:induction false} PrefixOfMore(ds: seq<nat>, x: nat, k: nat)
    requires k <= |ds|
    ensures P.Prefix(ds + [x], k) == P.Prefix(ds, k)
  {
    if k > 0 { PrefixOfMore(ds, x, k - 1); }
  }

  lemma OneMoreInstant(ds: seq<nat>, us: seq<int>, g: nat, t: int)
    requires |us| == |ds| + 1 && t == us[|ds|] + g
    requires forall k :: 0 <= k <= |ds| ==> P.Prefix(ds, k) == us[k] - us[0]
    ensures forall k :: 0 <= k <= |ds| + 1 ==> P.Prefix(ds + [g], k) == (us + [t])[k] - us[0]
  {
    forall k | 0 <= k <= |ds| + 1 ensures P.Prefix(ds + [g], k) == (us + [t])[k] - us[0] {
      PrefixOfMore(ds, g, if k <= |ds| then k else |ds|);
    }
  }

  /** The recorded durations are the distances between successive instants. */
  lemma {:induction false} PulsesAreInstants(ts: seq<nat>)
    requires Rec.InOrder(ts) && ts != [] && Rec.ShortGaps(ts)
    ensures |Rec.Pulses(ts)| + 1 == |Instants(ts)|
    ensures forall k :: 0 <= k <= |Rec.Pulses(ts)| ==>
              P.Prefix(Rec.Pulses(ts), k) == Since(ts, k)
  {
    hide Rec.InOrder;
    if |ts| == 1 {
      assert Instants(ts[..0]) == [] && Instants(ts) == [ts[0]];
    } else {
      var before, g := ts[..|ts| - 1], Rec.LastGap(ts);
      assert ts[|ts| - 2] <= ts[|ts| - 1] by { Ordered(ts); }
      BeforeInOrder(ts);
      PulsesAreInstants(before);
      var ds, us := Rec.Pulses(before), Instants(before);
      if g > 0 {
        assert Rec.Pulses(ts) == ds + [g] && Instants(ts) == us + [ts[|ts| - 1]];
        assert forall k :: 0 <= k <= |ds| ==> P.Prefix(ds, k) == Since(before, k) == us[k] - us[0];
        OneMoreInstant(ds, us, g, ts[|ts| - 1]);
      } else {
        assert Rec.Pulses(ts) == ds && Instants(ts) == us;
      }
    }
  }

  // Playing a recording back

  /** However time is ticked, the replayed level is the complement of the level the
      flip-flop had at the instant playback has reached. */
  ghost predicate Complements(ts: seq<nat>, initial: bool, es: seq<nat>)
    requires es != []
  {
    forall cs: seq<byte> {:trigger P.RunTicks(es, initial, cs)} ::
      var p := P.RunTicks(es, initial, cs);
      p.index < |Instants(ts)| && p.level != LevelAt(ts, initial, Instants(ts)[p.index])
  }

  lemma ReplayComplementsExactlyWhen(ts: seq<nat>, initial: bool, es: seq<nat>)
    requires Rec.InOrder(ts) && P.Playable(es) && |es| + 1 == |Instants(ts)|
    ensures Complements(ts, initial, es) <==> OddInstants(ts)
  {
    hide CountTo, Instants, Rec.InOrder, OddInstants, LevelAt;
    ComplementIffOdd(ts, initial);
    var us := Instants(ts);
    if OddInstants(ts) {
      forall cs: seq<byte> ensures var p := P.RunTicks(es, initial, cs);
        p.index < |us| && p.level != LevelAt(ts, initial, us[p.index])
      {
        P.PlaybackIsPrefixSums(es, initial, cs);
        var p := P.RunTicks(es, initial, cs);
        assert LevelAt(ts, initial, us[p.index]) != P.Flipped(initial, p.index);
      }
    } else if Complements(ts, initial, es) {
      forall k | 0 <= k < |us| ensures LevelAt(ts, initial, us[k]) != P.Flipped(initial, k) {
        Reaches(es, initial, k);
      }
    }
  }

  /** Playback reaches every index. */
  lemma Reaches(es: seq<nat>, initial: bool, k: nat)
    requires P.Playable(es) && k <= |es|
    ensures var p := P.RunTicks(es, initial, P.Ones(P.Prefix(es, k)));
            p.index == k && p.level == P.Flipped(initial, k)
  {
    var t := P.Prefix(es, k);
    P.PlaybackIsPrefixSums(es, initial, P.Ones(t));
    P.PassedIsUnique(es, t, P.RunTicks(es, initial, P.Ones(t)).index, k);
  }

  predicate Near(d: int, e: int, bound: int) { d - bound <= e <= d + bound }

  lemma {:induction false} PrefixDrift(ds: seq<nat>, es: seq<nat>, k: nat, bound: nat)
    requires |es| == |ds| && k <= |ds|
    requires forall i :: 0 <= i < |ds| ==> Near(ds[i], es[i], bound)
    ensures Near(P.Prefix(ds, k), P.Prefix(es, k), bound * k)
  {
    if k > 0 {
      PrefixDrift(ds, es, k - 1, bound);
      assert bound * k == bound * (k - 1) + bound;
    }
  }

  /** Drift of the k-th change: 22 cycles a pulse, 12 if no pulse was shorter. */
  ghost predicate InPlace(ts: seq<nat>, es: seq<nat>)
    requires Rec.InOrder(ts)
  {
    && |es| + 1 == |Instants(ts)|
    && forall k :: 0 <= k <= |es| ==>
         var at := Since(ts, k);
         && Near(at, P.Prefix(es, k), 22 * k)
         && ((forall i :: 0 <= i < |Rec.Pulses(ts)| ==> Rec.Pulses(ts)[i] >= 12) ==> Near(at, P.Prefix(es, k), 12 * k))
  }

  /** Toggles recorded, saved, loaded and played back: each level change comes back
      in its place, and the replayed level is the complement of the recorded one,
      for all ticks, if and only if every instant held an odd number of toggles. */
  lemma TapeComesBack(ts: seq<nat>, initial: bool)
    requires Rec.InOrder(ts) && Rec.ShortGaps(ts)
    requires var ds := Rec.Pulses(ts); ds != [] && TotalSamples(ds) <= MAX_FRAMES && P.Playable(Reencoded(ds))
    ensures var ds := Rec.Pulses(ts);
            && IsRecording(ds) && Save(initial, ds).Saved?
            && Load(Save(initial, ds).file) == Loaded(Reencoded(ds), initial)
            && InPlace(ts, Reencoded(ds))
            && (Complements(ts, initial, Reencoded(ds)) <==> OddInstants(ts))
  {
    hide Save, Load, TotalSamples, Rec.InOrder, Rec.ShortGaps, P.Playable, Complements, OddInstants, Instants,
      Reencoded;
    var ds := Rec.Pulses(ts);
    Rec.TimeIsConservedUpToTurns(ts);
    RoundTripExactlyWhen(initial, ds);
    PulsesAreInstants(ts);
    DriftsInPlace(ts);
    ReplayComplementsExactlyWhen(ts, initial, Reencoded(ds));
  }

  lemma DriftsInPlace(ts: seq<nat>)
    requires Rec.InOrder(ts) && Rec.ShortGaps(ts) && Rec.Pulses(ts) != [] && IsRecording(Rec.Pulses(ts))
    ensures InPlace(ts, Reencoded(Rec.Pulses(ts)))
  {
    hide Rec.InOrder, Rec.ShortGaps, Instants, CyclesOf, SamplesOf;
    var ds := Rec.Pulses(ts);
    var es := Reencoded(ds);
    PulsesAreInstants(ts);
    forall i | 0 <= i < |ds|
      ensures Near(ds[i], es[i], 22) && (ds[i] >= 12 ==> Near(ds[i], es[i], 12))
    {
      CyclesDrift(ds[i]);
    }
    forall k | 0 <= k <= |es|
      ensures Near(P.Prefix(ds, k), P.Prefix(es, k), 22 * k)
      ensures (forall i :: 0 <= i < |ds| ==> ds[i] >= 12) ==> Near(P.Prefix(ds, k), P.Prefix(es, k), 12 * k)
    {
      PrefixDrift(ds, es, k, 22);
      if forall i :: 0 <= i < |ds| ==> ds[i] >= 12 { PrefixDrift(ds, es, k, 12); }
    }
  }

  // Level against level, in time

  lemma {:induction false} CountSteady(ts: seq<nat>, s: int, t: int)
    requires s <= t && forall x :: x in ts ==> x <= s || x > t
    ensures CountTo(ts, t) == CountTo(ts, s)
  {
    if ts != [] {
      var before := ts[..|ts| - 1];
      assert ts[|ts| - 1] in ts && forall x :: x in before ==> x in ts;
      CountSteady(before, s, t);
    }
  }

  /** Between instants the level stays. */
  lemma LevelSteady(ts: seq<nat>, initial: bool, k: nat, t: int)
    requires Rec.InOrder(ts) && k < |Instants(ts)|
    requires Instants(ts)[k] <= t && (k + 1 < |Instants(ts)| ==> t < Instants(ts)[k + 1])
    ensures LevelAt(ts, initial, t) == LevelAt(ts, initial, Instants(ts)[k])
  {
    hide CountTo, Instants, Rec.InOrder;
    InstantsAscend(ts);
    var us := Instants(ts);
    forall x | x in ts ensures x <= us[k] || x > t {
      var j :| 0 <= j < |us| && us[j] == x;
    }
    CountSteady(ts, us[k], t);
  }

  /** T cycles after arming, the input bit is the complement of the output level at
      a moment at most 22 cycles per pulse away from T cycles after the first
      toggle. */
  lemma ReplayFollowsOutput(ts: seq<nat>, initial: bool, es: seq<nat>, cs: seq<byte>) returns (t: int)
    requires Rec.InOrder(ts) && OddInstants(ts) && P.Playable(es) && InPlace(ts, es)
    ensures var p, now := P.RunTicks(es, initial, cs), Instants(ts)[0] + P.Total(cs);
            && p.level != LevelAt(ts, initial, t)
            && Near(now, t, 22 * (p.index + 1))
  {
    hide Rec.InOrder, LevelAt, Instants, OddInstants;
    ReplayComplementsExactlyWhen(ts, initial, es);
    P.PlaybackIsPrefixSums(es, initial, cs);
    var us, k, now := Instants(ts), P.RunTicks(es, initial, cs).index, Instants(ts)[0] + P.Total(cs);
    InstantsAscend(ts);
    assert k <= |es| && P.Prefix(es, k) <= P.Total(cs);
    if now < us[k] {
      t := us[k];
    } else if k + 1 < |us| && now >= us[k + 1] {
      t := us[k + 1] - 1;
      assert P.Total(cs) < P.Prefix(es, k + 1);
    } else {
      t := now;
    }
    LevelSteady(ts, initial, k, t);
  }

  /** Two toggles in one cycle: the flip-flop ends where it was, but the tape
      changes level there. */
  lemma EvenInstantIsReplayed()
    ensures var ts, es := [0, 100, 100, 200], [93, 93];
            && Rec.Pulses(ts) == [100, 100] && Reencoded([100, 100]) == es
            && LevelAt(ts, false, 99) == LevelAt(ts, false, 100) == true
            && P.RunTicks(es, false, [92]).level == false && P.RunTicks(es, false, [93]).level == true
  {
    hide CountTo, Rec.Pulses, P.RunTicks, Reencoded;
    EvenInstantPulses();
    EvenInstantCounts();
    EvenInstantTicks();
  }

  lemma EvenInstantInOrder()
    ensures Rec.InOrder([0]) && Rec.InOrder([0, 100]) && Rec.InOrder([0, 100, 100]) && Rec.InOrder([0, 100, 100, 200])
  {
  }

  lemma EvenInstantPulses()
    ensures Rec.InOrder([0, 100, 100, 200]) && Rec.Pulses([0, 100, 100, 200]) == [100, 100]
    ensures Reencoded([100, 100]) == [93, 93]
  {
    hide Rec.InOrder, Rec.Pulses, Reencoded;
    EvenInstantInOrder();
    Rec.NoPulse(0);
    assert [0] + [100] == [0, 100];
    Rec.PulsesStep([0], 100);
    assert [0, 100] + [100] == [0, 100, 100];
    Rec.PulsesStep([0, 100], 100);
    assert [0, 100, 100] + [200] == [0, 100, 100, 200];
    Rec.PulsesStep([0, 100, 100], 200);
    HundredReencoded();
  }

  lemma HundredReencoded()
    ensures Reencoded([100, 100]) == [93, 93]
  {
    assert SamplesOf(100) == 4 && CyclesOf(4, WAV_RATE) == 93;
    assert ToSamples([100, 100]) == [4, 4];
  }

  lemma CountOne(ts: seq<nat>, x: nat, t: int)
    ensures CountTo(ts + [x], t) == CountTo(ts, t) + if x <= t then 1 else 0
  {
    assert (ts + [x])[..|ts|] == ts;
  }

  lemma EvenInstantCounts()
    ensures CountTo([0, 100, 100, 200], 99) == 1 && CountTo([0, 100, 100, 200], 100) == 3
  {
    hide CountTo;
    forall t: int ensures CountTo([], t) == 0 { NoCount(t); }
    forall t: int
      ensures CountTo([0, 100, 100, 200], t) ==
              (if 0 <= t then 1 else 0) + (if 100 <= t then 2 else 0) + if 200 <= t then 1 else 0
    {
      CountOne([], 0, t);
      CountOne([0], 100, t);
      CountOne([0, 100], 100, t);
      CountOne([0, 100, 100], 200, t);
      assert [] + [0] == [0] && [0] + [100] == [0, 100] && [0, 100] + [100] == [0, 100, 100];
      assert [0, 100, 100] + [200] == [0, 100, 100, 200];
    }
  }

  lemma NoCount(t: int)
    ensures CountTo([], t) == 0
  {
  }

  lemma EvenInstantTicks()
    ensures P.RunTicks([93, 93], false, [92]).level == false
    ensures P.RunTicks([93, 93], false, [93]).level == true
  {
    assert [92][..0] == [] && [93][..0] == [];
    assert P.RunTicks([93, 93], false, []) == P.Player(0, 93, false, true);
  }
}
