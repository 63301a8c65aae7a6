/** Recording in `aci_record_toggle`: what the 32-bit cycle counter makes of a
    sequence of toggles in unbounded time. */
module TapeRecorder {
  import opened TapeTime

  /** Gap between the last two toggles. */
  function LastGap(ts: seq<nat>): int
    requires |ts| >= 2
  {
    var last: int, previous: int := ts[|ts| - 1], ts[|ts| - 2];
    last - previous
  }

  ghost predicate InOrder(ts: seq<nat>) { forall i, j :: 0 <= i < j < |ts| ==> ts[i] <= ts[j] }

  /** The recorded pulses: every gap modulo 2^32, zero gaps dropped. */
  function Pulses(ts: seq<nat>): seq<nat>
    requires InOrder(ts)
  {
    if |ts| < 2 then []
    else
      var g := LastGap(ts) % U32;
      Pulses(ts[..|ts| - 1]) + if g > 0 then [g] else []
  }

  lemma StillInOrder(ts: seq<nat>, now: nat)
    requires InOrder(ts) && forall t :: t in ts ==> t <= now
    ensures InOrder(ts + [now]) && forall t :: t in ts + [now] ==> t <= now
  {
    var ts' := ts + [now];
    forall i, j | 0 <= i < j < |ts'| ensures ts'[i] <= ts'[j] {
      assert ts'[i] in ts;
    }
  }

  /** One more toggle adds at most one pulse. */
  lemma {:induction false} AnotherToggle(ts: seq<nat>, now: nat)
    requires InOrder(ts) && InOrder(ts + [now])
    requires ts != [] ==> ts[|ts| - 1] <= now
    ensures ts == [] ==> Pulses(ts + [now]) == Pulses(ts) == []
    ensures ts != [] ==>
              var g := (now % U32 - ts[|ts| - 1] % U32) % U32;
              Pulses(ts + [now]) == Pulses(ts) + if g > 0 then [g] else []
  {
    hide InOrder;
    if ts != [] {
      GapModulo(now, ts[|ts| - 1]);
      PulsesStep(ts, now);
    }
  }

  lemma NoPulse(t: nat)
    ensures Pulses([t]) == []
  {
  }

  lemma {:induction false} PulsesStep(ts: seq<nat>, now: nat)
    requires InOrder(ts) && InOrder(ts + [now]) && ts != []
    ensures var g := (now - ts[|ts| - 1]) % U32;
            Pulses(ts + [now]) == Pulses(ts) + if g > 0 then [g] else []
  {
    hide InOrder;
    var ts' := ts + [now];
    assert ts'[..|ts'| - 1] == ts;
    assert ts'[|ts'| - 1] == now && ts'[|ts'| - 2] == ts[|ts| - 1];
  }

  /** The 32-bit difference of two counter readings is the gap modulo 2^32. */
  lemma GapModulo(now: nat, last: nat)
    requires last <= now
    ensures (now % U32 - last % U32) % U32 == (now - last) % U32
  {
  }

  /** Whole turns of the cycle counter that fell between toggles. */
  ghost function Turns(ts: seq<nat>): nat
    requires InOrder(ts)
  {
    if |ts| < 2 then 0 else Turns(ts[..|ts| - 1]) + LastGap(ts) / U32
  }

  /** No gap lasts a whole turn of the counter. */
  ghost predicate ShortGaps(ts: seq<nat>) {
    |ts| < 2 || (ShortGaps(ts[..|ts| - 1]) && LastGap(ts) < U32)
  }

  lemma {:induction false} SumAppend(ns: seq<nat>, x: nat)
    ensures Sum(ns + [x]) == Sum(ns) + x
  {
    if ns != [] {
      SumAppend(ns[1..], x);
      assert (ns + [x])[1..] == ns[1..] + [x];
    }
  }

  lemma {:induction false} TimeIsConservedUpToTurns(ts: seq<nat>)
    requires InOrder(ts) && ts != []
    ensures Sum(Pulses(ts)) + U32 * Turns(ts) == ts[|ts| - 1] - ts[0]
    ensures forall i :: 0 <= i < |Pulses(ts)| ==> 1 <= Pulses(ts)[i] < U32
  {
    if |ts| >= 2 {
      var before := ts[..|ts| - 1];
      TimeIsConservedUpToTurns(before);
      var g := LastGap(ts) % U32;
      if g > 0 {
        SumAppend(Pulses(before), g);
      } else {
        assert Pulses(ts) == Pulses(before);
      }
    }
  }

  lemma {:induction false} NoTurnsIffShortGaps(ts: seq<nat>)
    requires InOrder(ts)
    ensures Turns(ts) == 0 <==> ShortGaps(ts)
  {
    if |ts| >= 2 { NoTurnsIffShortGaps(ts[..|ts| - 1]); }
  }

  /** The recorded durations add up to the time between the first and the last
      toggle exactly when no gap lasted 2^32 cycles or more. */
  lemma RecordingConservesTime(ts: seq<nat>)
    requires InOrder(ts) && ts != []
    ensures Sum(Pulses(ts)) == ts[|ts| - 1] - ts[0] <==> ShortGaps(ts)
  {
    TimeIsConservedUpToTurns(ts);
    NoTurnsIffShortGaps(ts);
  }

  /** A gap of exactly one turn of the counter leaves no trace. */
  lemma WholeTurnIsLost()
    ensures Pulses([0, U32]) == [] && Sum(Pulses([0, U32])) == 0
  {
    assert Pulses([0, U32][..1]) == [];
    assert LastGap([0, U32]) % U32 == 0;
  }

  ghost function Times(ts: seq<nat>): set<nat> { set t | t in ts }

  lemma TimesGrow(ts: seq<nat>)
    requires InOrder(ts) && |ts| >= 2
    ensures var before, t := ts[..|ts| - 1], ts[|ts| - 1];
            Times(ts) == Times(before) + {t} && (t in Times(before) <==> LastGap(ts) == 0)
  {
    var before, t := ts[..|ts| - 1], ts[|ts| - 1];
    assert ts == before + [t];
    assert before[|before| - 1] in before;
    if t in before {
      var i :| 0 <= i < |before| && before[i] == t;
      assert ts[i] <= ts[|ts| - 2];
    }
  }

  /** One pulse fewer than distinct toggle times: toggles in the same cycle add none. */
  lemma {:induction false} PulsesCountDistinctTimes(ts: seq<nat>)
    requires InOrder(ts) && ts != [] && ShortGaps(ts)
    ensures |Pulses(ts)| + 1 == |Times(ts)|
  {
    if |ts| == 1 {
      assert Times(ts) == {ts[0]};
    } else {
      hide Times;
      PulsesCountDistinctTimes(ts[..|ts| - 1]);
      TimesGrow(ts);
    }
  }
}
