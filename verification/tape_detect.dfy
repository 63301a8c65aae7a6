/** `pcm_to_durations`: a threshold detector with hysteresis, from samples to
    pulse lengths.  Samples are 16-bit integers; the float threshold 0.02f of
    full scale (5368709 / 2^28 of 32768) is met from 656 upwards. */
module TapeDetect {
  import opened TapeTime

  const THRESHOLD: int := 656

  datatype Class = High | Low | Dead

  function Classify(x: int): Class {
    if x >= THRESHOLD then High else if x <= -THRESHOLD then Low else Dead
  }

  datatype Detection = NoSignal | NoPulses | Found(initial: bool, gaps: seq<nat>)

  // As the code scans

  /** Index of the first sample at or above the threshold in magnitude. */
  function FirstActive(s: seq<int>, i: nat): (fa: nat)
    requires i <= |s|
    ensures i <= fa <= |s|
    decreases |s| - i
  {
    if i < |s| && Classify(s[i]).Dead? then FirstActive(s, i + 1) else i
  }

  function NextLevel(level: bool, x: int): bool {
    match Classify(x) case High => true case Low => false case Dead => level
  }

  /** Gaps between level changes from sample `i` on. */
  function Scan(s: seq<int>, i: nat, level: bool, last: nat): seq<nat>
    requires last < i <= |s|
    decreases |s| - i
  {
    if i == |s| then []
    else if NextLevel(level, s[i]) != level then [i - last] + Scan(s, i + 1, !level, i)
    else Scan(s, i + 1, level, last)
  }

  function Detect(s: seq<int>): Detection {
    var fa := FirstActive(s, 0);
    if fa == |s| then NoSignal
    else
      var gaps := Scan(s, fa + 1, s[fa] >= 0, fa);
      if gaps == [] then NoPulses else Found(s[fa] >= 0, gaps)
  }

  datatype Pulses = Invalid | Failed(reason: Detection) | Decoded(initial: bool, durations: seq<nat>)

  function ToCycles(gaps: seq<nat>, rate: nat): (ds: seq<nat>)
    requires rate > 0
    ensures |ds| == |gaps|
    ensures forall i :: 0 <= i < |gaps| ==> ds[i] == CyclesOf(gaps[i], rate)
  {
    seq(|gaps|, i requires 0 <= i < |gaps| => CyclesOf(gaps[i], rate))
  }

  function Decode(s: seq<int>, rate: nat): Pulses {
    var d := Detect(s);
    if s == [] || rate == 0 then Invalid
    else if d.Found? then Decoded(d.initial, ToCycles(d.gaps, rate)) else Failed(d)
  }

  method PcmToDurations(mono: array<int>, rate: nat) returns (p: Pulses)
    ensures p == Decode(mono[..], rate)
  {
    var n := mono.Length;
    if n == 0 || rate == 0 { return Invalid; }
    var fa := 0;
    while fa < n && Classify(mono[fa]).Dead?
      invariant fa <= n && FirstActive(mono[..], 0) == FirstActive(mono[..], fa)
    {
      fa := fa + 1;
    }
    if fa == n { return Failed(NoSignal); }
    var initial := mono[fa] >= 0;
    var level, last := initial, fa;
    var durations: seq<nat> := [];
    ghost var gaps: seq<nat> := [];
    var i := fa + 1;
    while i < n
      invariant fa < i <= n && last < i
      invariant Scan(mono[..], fa + 1, initial, fa) == gaps + Scan(mono[..], i, level, last)
      invariant durations == ToCycles(gaps, rate)
    {
      var newLevel := level;
      if mono[i] >= THRESHOLD {
        newLevel := true;
      } else if mono[i] <= -THRESHOLD {
        newLevel := false;
      }
      if newLevel != level {
        durations := durations + [CyclesOf(i - last, rate)];
        gaps := gaps + [i - last];
        level, last := newLevel, i;
      }
      i := i + 1;
    }
    if |durations| == 0 { return Failed(NoPulses); }
    return Decoded(initial, durations);
  }

  // The hysteresis signal, declaratively: the sign of the latest loud sample

  ghost predicate Loud(s: seq<int>, i: int) { 0 <= i < |s| && !Classify(s[i]).Dead? }

  /** `level` is the hysteresis level at `i`. */
  ghost predicate LevelAt(s: seq<int>, i: int, level: bool) {
    exists j :: 0 <= j <= i && Loud(s, j) && level == Classify(s[j]).High? &&
      forall k :: j < k <= i ==> !Loud(s, k)
  }

  /** The signal has one level just before `i` and the other at `i`. */
  ghost predicate Transition(s: seq<int>, i: int) {
    || (LevelAt(s, i - 1, true) && LevelAt(s, i, false))
    || (LevelAt(s, i - 1, false) && LevelAt(s, i, true))
  }

  lemma LevelIsUnique(s: seq<int>, i: int)
    ensures !(LevelAt(s, i, true) && LevelAt(s, i, false))
  {
  }

  lemma LevelSteps(s: seq<int>, i: int, level: bool)
    requires 0 < i < |s| && LevelAt(s, i - 1, level)
    ensures LevelAt(s, i, NextLevel(level, s[i]))
  {
    var j :| 0 <= j <= i - 1 && Loud(s, j) && level == Classify(s[j]).High? &&
             forall k :: j < k <= i - 1 ==> !Loud(s, k);
    if Loud(s, i) {
      assert 0 <= i <= i && Loud(s, i);
    } else {
      assert forall k :: j < k <= i ==> !Loud(s, k);
    }
  }

  /** Where the scan changes level. */
  function Changes(s: seq<int>, i: nat, level: bool): seq<nat>
    requires i <= |s|
    decreases |s| - i
  {
    if i == |s| then []
    else if NextLevel(level, s[i]) != level then [i] + Changes(s, i + 1, !level)
    else Changes(s, i + 1, level)
  }

  ghost predicate Ascends(from: int, ts: seq<nat>)
    decreases ts
  {
    ts == [] || (from < ts[0] && Ascends(ts[0], ts[1..]))
  }

  /** Distances between successive times, starting from `from`. */
  ghost function Diffs(from: int, ts: seq<nat>): seq<int>
    decreases ts
  {
    if ts == [] then [] else [ts[0] - from] + Diffs(ts[0], ts[1..])
  }

  ghost predicate TransitionsFrom(s: seq<int>, i: int, ts: seq<nat>) {
    forall t: nat :: t in ts <==> i <= t < |s| && Transition(s, t)
  }

  lemma {:induction false} ChangesAreTransitions(s: seq<int>, i: nat, level: bool, last: nat)
    requires last < i <= |s| && LevelAt(s, i - 1, level)
    ensures var ts := Changes(s, i, level);
            TransitionsFrom(s, i, ts) && Ascends(last, ts) && Scan(s, i, level, last) == Diffs(last, ts)
    decreases |s| - i
  {
    if i < |s| {
      LevelSteps(s, i, level);
      LevelIsUnique(s, i - 1);
      LevelIsUnique(s, i);
      var next := NextLevel(level, s[i]);
      var rest := Changes(s, i + 1, next);
      if next != level {
        ChangesAreTransitions(s, i + 1, !level, i);
        assert ([i] + rest)[1..] == rest;
      } else {
        ChangesAreTransitions(s, i + 1, level, last);
      }
    }
  }

  lemma {:induction false} FirstActiveIsFirst(s: seq<int>, i: nat)
    requires i <= |s|
    ensures var fa := FirstActive(s, i);
            (fa < |s| ==> Loud(s, fa)) && forall k :: i <= k < fa ==> !Loud(s, k)
    decreases |s| - i
  {
    if i < |s| && Classify(s[i]).Dead? { FirstActiveIsFirst(s, i + 1); }
  }

  lemma {:induction false} DiffsTelescope(from: nat, ts: seq<nat>)
    requires Ascends(from, ts)
    ensures forall k :: 0 <= k < |Diffs(from, ts)| ==> Diffs(from, ts)[k] >= 1
    ensures |Diffs(from, ts)| == |ts|
    ensures Sum(Diffs(from, ts)) == (if ts == [] then from else ts[|ts| - 1]) - from
    decreases ts
  {
    if ts != [] {
      DiffsTelescope(ts[0], ts[1..]);
      var rest := Diffs(ts[0], ts[1..]);
      assert ([ts[0] - from] + rest)[1..] == rest;
    }
  }

  /** The detector against its specification: nothing before the first loud
      sample; then one gap per level change of the hysteresis signal, in order,
      none missing and none invented; all gaps positive, and together they span
      from the first loud sample to the last change. */
  lemma DetectorMeetsSpec(s: seq<int>) returns (fa: nat, ts: seq<nat>)
    ensures fa <= |s| && (forall k :: 0 <= k < fa ==> !Loud(s, k)) && (fa < |s| ==> Loud(s, fa))
    ensures Detect(s).NoSignal? <==> fa == |s|
    ensures fa < |s| ==>
              && TransitionsFrom(s, fa + 1, ts) && Ascends(fa, ts)
              && (Detect(s).NoPulses? <==> ts == [])
              && (ts != [] ==> Detect(s).Found? && Detect(s).initial == Classify(s[fa]).High?
                               && Detect(s).gaps == Diffs(fa, ts)
                               && Sum(Detect(s).gaps) == ts[|ts| - 1] - fa
                               && forall k :: 0 <= k < |Detect(s).gaps| ==> Detect(s).gaps[k] >= 1)
  {
    fa, ts := FirstActive(s, 0), [];
    FirstActiveIsFirst(s, 0);
    if fa < |s| {
      ts := Changes(s, fa + 1, s[fa] >= 0);
      assert LevelAt(s, fa, s[fa] >= 0);
      ChangesAreTransitions(s, fa + 1, s[fa] >= 0, fa);
      DiffsTelescope(fa, ts);
    }
  }

  // Noise below the threshold is invisible

  ghost predicate SameClasses(s: seq<int>, s': seq<int>) {
    |s| == |s'| && forall i :: 0 <= i < |s| ==> Classify(s[i]) == Classify(s'[i])
  }

  lemma {:induction false} ScanIgnoresNoise(s: seq<int>, s': seq<int>, i: nat, level: bool, last: nat)
    requires SameClasses(s, s') && last < i <= |s|
    ensures Scan(s, i, level, last) == Scan(s', i, level, last)
    decreases |s| - i
  {
    if i < |s| {
      ScanIgnoresNoise(s, s', i + 1, !level, i);
      ScanIgnoresNoise(s, s', i + 1, level, last);
    }
  }

  lemma {:induction false} FirstActiveIgnoresNoise(s: seq<int>, s': seq<int>, i: nat)
    requires SameClasses(s, s') && i <= |s|
    ensures FirstActive(s, i) == FirstActive(s', i)
    decreases |s| - i
  {
    if i < |s| { FirstActiveIgnoresNoise(s, s', i + 1); }
  }

  /** Replacing any samples by others of the same class (above, below or within
      the threshold) changes nothing. */
  lemma DetectorIgnoresNoise(s: seq<int>, s': seq<int>, rate: nat)
    requires SameClasses(s, s')
    ensures Decode(s, rate) == Decode(s', rate)
  {
    FirstActiveIgnoresNoise(s, s', 0);
    FirstActiveIsFirst(s, 0);
    var fa := FirstActive(s, 0);
    if fa < |s| { ScanIgnoresNoise(s, s', fa + 1, s[fa] >= 0, fa); }
  }
}
