/** Cycles and samples: the two rounded conversions of the cassette codec.

    The C code divides in double precision and adds 0.5 before truncating; here
    both are the exact floor(x + 1/2). */
module TapeTime {

  const ACI_CLOCK: nat := 1022727
  const WAV_RATE: nat := 44100
  const U32: nat := 0x1_0000_0000

  function Sum(ns: seq<int>): int { if ns == [] then 0 else ns[0] + Sum(ns[1..]) }

  /** floor(p / q + 1/2). */
  function Rounded(p: nat, q: nat): nat
    requires q > 0
  {
    (2 * p + q) / (2 * q)
  }

  /** Samples rendered for a pulse, at least one. */
  function SamplesOf(cycles: nat): (n: nat)
    ensures n >= 1
  {
    var n := Rounded(cycles * WAV_RATE, ACI_CLOCK);
    if n == 0 then 1 else n
  }

  /** Cycles played for a gap of `samples` at `rate`, at least one. */
  function CyclesOf(samples: nat, rate: nat): (c: nat)
    requires rate > 0
    ensures c >= 1
  {
    var c := Rounded(samples * ACI_CLOCK, rate);
    if c == 0 then 1 else c
  }

  lemma RoundedBounds(p: nat, q: nat)
    requires q > 0
    ensures 2 * q * Rounded(p, q) <= 2 * p + q < 2 * q * Rounded(p, q) + 2 * q
  {
    var a, b := 2 * p + q, 2 * q;
    assert a == b * (a / b) + a % b;
  }

  /** One decode makes the conversion exact: samples to cycles and back is the identity. */
  lemma SamplesSurvive(n: nat)
    requires n >= 1
    ensures SamplesOf(CyclesOf(n, WAV_RATE)) == n
  {
    RoundedBounds(n * ACI_CLOCK, WAV_RATE);
    var c := CyclesOf(n, WAV_RATE);
    RoundedBounds(c * WAV_RATE, ACI_CLOCK);
  }

  /** Cycles to samples and back: off by at most 12 cycles, except that pulses
      too short for half a sample all become 23 cycles. */
  lemma CyclesDrift(d: nat)
    requires d >= 1
    ensures var c := CyclesOf(SamplesOf(d), WAV_RATE);
            && (d >= 12 ==> d - 12 <= c <= d + 12)
            && (d < 12 ==> c == 23)
            && (d < U32 ==> c < U32)
  {
    RoundedBounds(d * WAV_RATE, ACI_CLOCK);
    var n := SamplesOf(d);
    RoundedBounds(n * ACI_CLOCK, WAV_RATE);
  }
}
