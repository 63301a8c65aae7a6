/** The WAV codec of `aci.c`: rendering recorded pulses to RIFF/WAVE bytes and
    parsing such bytes back.  Only the 16-bit mono PCM decode path is modelled. */
module TapeWav {
  import opened Bytes
  import opened TapeTime
  import opened TapeDetect

  const AMPLITUDE: int := 14000
  const TRAILER: nat := 4410         // a tenth of a second of the last level
  const MAX_FRAMES: nat := 0x3FFF_FFFF

  // Little-endian numbers

  function U16(v: nat): (bs: seq<byte>) { [Wrap8(v), Wrap8(v / 256)] }

  function U32le(v: nat): (bs: seq<byte>) { [Wrap8(v), Wrap8(v / 256), Wrap8(v / 65536), Wrap8(v / 16777216)] }

  function Get16(bs: seq<byte>, i: nat): nat
    requires i + 2 <= |bs|
  {
    var lo: int, hi: int := bs[i], bs[i + 1];
    lo + 256 * hi
  }

  function Get32(bs: seq<byte>, i: nat): nat
    requires i + 4 <= |bs|
  {
    Get16(bs, i) + 65536 * Get16(bs, i + 2)
  }

  /** A signed sample in two bytes. */
  function Sample(x: int): seq<byte> { [Wrap8(x), Wrap8(x / 256)] }

  function GetSample(lo: byte, hi: byte): int {
    var v := lo + 256 * hi;
    if v >= 32768 then v - 65536 else v
  }

  // Rendering

  function Tone(level: bool): int { if level then AMPLITUDE else -AMPLITUDE }

  function Hold(level: bool, n: nat): seq<int> { seq(n, _ => Tone(level)) }

  /** One run of samples per pulse, alternating, then the trailer. */
  function Render(level: bool, ns: seq<nat>): seq<int>
    decreases ns
  {
    if ns == [] then Hold(level, TRAILER)
    else Hold(level, ns[0]) + Render(!level, ns[1..])
  }

  function ToSamples(ds: seq<nat>): (ns: seq<nat>)
    ensures |ns| == |ds|
    ensures forall i :: 0 <= i < |ds| ==> ns[i] == SamplesOf(ds[i])
  {
    seq(|ds|, i requires 0 <= i < |ds| => SamplesOf(ds[i]))
  }

  function Pcm(samples: seq<int>): (bs: seq<byte>)
    ensures |bs| == 2 * |samples|
  {
    if samples == [] then [] else Sample(samples[0]) + Pcm(samples[1..])
  }

  const RIFF: seq<byte> := [0x52, 0x49, 0x46, 0x46]
  const WAVE: seq<byte> := [0x57, 0x41, 0x56, 0x45]
  const FMT_: seq<byte> := [0x66, 0x6D, 0x74, 0x20]
  const DATA: seq<byte> := [0x64, 0x61, 0x74, 0x61]

  /** The body of the "fmt " chunk: PCM, mono, 44100 Hz, 16 bits. */
  function FormatBody(): seq<byte> {
    U16(1) + U16(1) + U32le(WAV_RATE) + U32le(2 * WAV_RATE) + U16(2) + U16(16)
  }

  datatype SaveResult = NothingRecorded | TooLong | Saved(file: seq<byte>)

  /** `save_wav_tape`; the total is accumulated in 32 bits. */
  function Save(initial: bool, ds: seq<nat>): SaveResult {
    var total := (Sum(ToSamples(ds)) + TRAILER) % U32;
    if ds == [] then NothingRecorded
    else if total > 0x7FFF_FFFF then TooLong
    else Saved(RIFF + U32le((36 + 2 * total) % U32) + WAVE +
               (FMT_ + U32le(16) + FormatBody()) +
               (DATA + U32le(2 * total) + Pcm(Render(initial, ToSamples(ds)))))
  }

  // Parsing

  datatype Fmt = Fmt(format: nat, channels: nat, rate: nat, bits: nat)

  datatype LoadResult =
    | IoError | ProtocolError | RangeError | NoTape
    | Loaded(durations: seq<nat>, initial: bool)
    | NotModelled   // chunk sizes beyond 2^31, or samples other than 16-bit mono PCM

  datatype Walked = Stop(error: LoadResult) | DataChunk(fmt: Fmt, data: seq<byte>)

  /** Seeking past the end leaves nothing to read. */
  function Skip(s: seq<byte>, n: nat): (t: seq<byte>)
    ensures n > 0 && s != [] ==> |t| < |s|
    ensures |t| <= |s|
  {
    if n <= |s| then s[n..] else []
  }

  /** The chunk loop over the bytes still unread. */
  function Walk(s: seq<byte>, fmt: Fmt): (w: Walked)
    ensures w.Stop? ==> !w.error.Loaded?
    decreases |s|
  {
    if |s| < 8 then Stop(ProtocolError)
    else
      var id, size, rest := s[..4], Get32(s, 4), s[8..];
      if id == FMT_ then
        if size < 16 then Stop(ProtocolError)
        else if |rest| < 16 then Stop(IoError)
        else if size >= 0x8000_0000 then Stop(NotModelled)
        else Walk(Skip(rest, size), Fmt(Get16(rest, 0), Get16(rest, 2), Get32(rest, 4), Get16(rest, 14)))
      else if id == DATA then
        if |rest| < size then Stop(IoError) else DataChunk(fmt, rest[..size])
      else if size + size % 2 >= 0x8000_0000 then Stop(NotModelled)
      else Walk(Skip(rest, size + size % 2), fmt)
  }

  function Frames(data: seq<byte>): seq<int> {
    seq(|data| / 2, i requires 0 <= i < |data| / 2 => GetSample(data[2 * i], data[2 * i + 1]))
  }

  /** Format checks, sample decoding and pulse detection. */
  function Interpret(fmt: Fmt, data: seq<byte>): LoadResult {
    var bytesPerSample := fmt.bits / 8;
    if fmt.channels == 0 || fmt.rate == 0 || fmt.bits == 0 then ProtocolError
    else if fmt.format != 1 && fmt.format != 3 then ProtocolError
    else if bytesPerSample == 0 || |data| < bytesPerSample * fmt.channels then ProtocolError
    else if |data| / (bytesPerSample * fmt.channels) > MAX_FRAMES then RangeError
    else if fmt.format != 1 || fmt.bits != 16 || fmt.channels != 1 then NotModelled
    else
      var p := Decode(Frames(data), fmt.rate);
      if p.Decoded? then Loaded(p.durations, p.initial) else NoTape
  }

  /** `load_wav_tape`. */
  function Load(file: seq<byte>): LoadResult {
    if |file| < 12 then IoError
    else if file[..4] != RIFF || file[8..12] != WAVE then ProtocolError
    else
      var w := Walk(file[12..], Fmt(0, 0, 0, 0));
      if w.Stop? then w.error else Interpret(w.fmt, w.data)
  }

  // Byte-level round trips

  lemma Get32OfU32(v: nat, pre: seq<byte>, post: seq<byte>)
    requires v < U32
    ensures Get32(pre + U32le(v) + post, |pre|) == v
  {
    hide U32le;
    var s, b := pre + U32le(v) + post, U32le(v);
    BytesOfU32(v);
    assert forall i :: 0 <= i < 4 ==> s[|pre| + i] == b[i];
  }

  lemma BytesOfU32(v: nat)
    requires v < U32
    ensures |U32le(v)| == 4
    ensures var b := U32le(v);
            var b0: int, b1: int, b2: int, b3: int := b[0], b[1], b[2], b[3];
            b0 + 256 * b1 + 65536 * b2 + 16777216 * b3 == v
  {
    var q1, q2, q3 := v / 256, v / 65536, v / 16777216;
    TwiceDivided(v, 256);
    TwiceDivided(v, 65536);
    assert v == 256 * q1 + v % 256 && q1 == 256 * q2 + q1 % 256 && q2 == 256 * q3 + q2 % 256 && q3 < 256;
  }

  lemma TwiceDivided(v: nat, n: nat)
    requires n == 256 || n == 65536
    ensures v / n / 256 == v / (n * 256)
  {
  }

  lemma SampleRoundTrip(x: int)
    requires -32768 <= x < 32768
    ensures GetSample(Sample(x)[0], Sample(x)[1]) == x
  {
  }

  lemma {:induction false} FramesOfPcm(xs: seq<int>)
    requires forall i :: 0 <= i < |xs| ==> -32768 <= xs[i] < 32768
    ensures Frames(Pcm(xs)) == xs
  {
    if xs != [] {
      FramesOfPcm(xs[1..]);
      SampleRoundTrip(xs[0]);
      var bs, rest := Pcm(xs), Pcm(xs[1..]);
      forall i | 0 <= i < |xs| ensures Frames(bs)[i] == xs[i] {
        if i > 0 {
          assert bs[2 * i] == rest[2 * (i - 1)] && bs[2 * i + 1] == rest[2 * (i - 1) + 1];
          assert Frames(rest)[i - 1] == xs[1..][i - 1];
        }
      }
    }
  }

  // Detecting what was rendered

  ghost predicate Positive(ns: seq<nat>) { forall i :: 0 <= i < |ns| ==> ns[i] >= 1 }

  lemma {:induction false} ScanThroughRun(s: seq<int>, i: nat, n: nat, level: bool, last: nat)
    requires last < i <= i + n <= |s|
    requires forall k :: i <= k < i + n ==> s[k] == Tone(level)
    ensures Scan(s, i, level, last) == Scan(s, i + n, level, last)
    decreases n
  {
    if n > 0 { ScanThroughRun(s, i + 1, n - 1, level, last); }
  }

  lemma {:induction false} RenderShape(level: bool, ns: seq<nat>)
    requires Positive(ns)
    ensures var xs := Render(level, ns);
            && |xs| == Sum(ns) + TRAILER && |xs| >= TRAILER && xs[0] == Tone(level)
            && forall i :: 0 <= i < |xs| ==> xs[i] == AMPLITUDE || xs[i] == -AMPLITUDE
    decreases ns
  {
    if ns != [] { RenderShape(!level, ns[1..]); }
  }

  lemma ToneFlips(level: bool)
    ensures NextLevel(level, Tone(!level)) != level
  {
  }

  /** From any point where a rendering starts, the scan reads its run lengths. */
  lemma {:induction false} ScanRendering(s: seq<int>, start: nat, level: bool, ns: seq<nat>)
    requires start < |s| && Positive(ns) && s[start..] == Render(level, ns)
    ensures Scan(s, start + 1, level, start) == ns
    decreases ns
  {
    hide Classify, NextLevel, Tone;
    ToneFlips(level);
    var xs := Render(level, ns);
    if ns == [] {
      forall k | start + 1 <= k < |s| ensures s[k] == Tone(level) { assert s[k] == xs[k - start]; }
      ScanThroughRun(s, start + 1, |s| - start - 1, level, start);
    } else {
      RenderShape(level, ns);
      RenderShape(!level, ns[1..]);
      var next := start + ns[0];
      forall k | start + 1 <= k < next ensures s[k] == Tone(level) { assert s[k] == xs[k - start]; }
      ScanThroughRun(s, start + 1, ns[0] - 1, level, start);
      assert s[next..] == Render(!level, ns[1..]) by { assert s[next..] == xs[ns[0]..]; }
      assert s[next] == s[next..][0];
      ScanRendering(s, next, !level, ns[1..]);
    }
  }

  lemma DetectsRendering(level: bool, ns: seq<nat>)
    requires Positive(ns) && ns != []
    ensures Detect(Render(level, ns)) == Found(level, ns)
  {
    var xs := Render(level, ns);
    RenderShape(level, ns);
    assert xs[0..] == xs;
    ScanRendering(xs, 0, level, ns);
  }

  /** The runs that end before the first `t` samples are over. */
  function Whole(ns: seq<nat>, t: int): seq<nat>
    decreases ns
  {
    if ns == [] || ns[0] >= t then [] else [ns[0]] + Whole(ns[1..], t - ns[0])
  }

  lemma TailOfTail(s: seq<int>, start: nat, xs: seq<int>, n: nat)
    requires start + n <= |s| && |s| - start <= |xs| && s[start..] == xs[..|s| - start]
    ensures s[start + n..] == xs[n..][..|s| - (start + n)]
  {
    assert s[start + n..] == s[start..][n..];
    assert xs[n..][..|s| - (start + n)] == xs[..|s| - start][n..];
  }

  /** A scan of a rendering that breaks off sees the runs that were over. */
  lemma {:induction false} ScanCut(s: seq<int>, start: nat, level: bool, ns: seq<nat>)
    requires start < |s| && Positive(ns)
    requires |s| - start <= |Render(level, ns)| && s[start..] == Render(level, ns)[..|s| - start]
    ensures Scan(s, start + 1, level, start) == Whole(ns, |s| - start)
    decreases ns
  {
    hide Classify, NextLevel, Tone, Render, Scan;
    var xs, t := Render(level, ns), |s| - start;
    var n := if ns == [] || ns[0] >= t then t else ns[0];
    RenderStarts(level, ns);
    forall k | start + 1 <= k < start + n ensures s[k] == Tone(level) {
      assert s[k] == s[start..][k - start] == xs[..t][k - start] == xs[k - start];
    }
    ScanThroughRun(s, start + 1, n - 1, level, start);
    if n == t {
      ScanEnds(s, level, start);
    } else {
      var next, rest := start + n, Render(!level, ns[1..]);
      RenderStarts(!level, ns[1..]);
      assert |rest| == |xs| - n && t - n <= |rest|;
      TailOfTail(s, start, xs, n);
      assert s[next] == s[next..][0] == rest[0];
      ScanTurns(s, next, level, start);
      ScanCut(s, next, !level, ns[1..]);
    }
  }

  /** A rendering starts with its first run and goes on with the rest. */
  lemma RenderStarts(level: bool, ns: seq<nat>)
    requires Positive(ns)
    ensures var xs, n := Render(level, ns), if ns == [] then TRAILER else ns[0];
            && 1 <= n <= |xs| && (forall i :: 0 <= i < n ==> xs[i] == Tone(level))
            && (if ns == [] then |xs| == TRAILER else xs[n..] == Render(!level, ns[1..]))
  {
    if ns != [] { assert Render(level, ns)[ns[0]..] == Render(!level, ns[1..]); }
  }

  lemma ScanEnds(s: seq<int>, level: bool, last: nat)
    requires last < |s|
    ensures Scan(s, |s|, level, last) == []
  {
  }

  lemma ScanTurns(s: seq<int>, i: nat, level: bool, last: nat)
    requires last < i < |s| && s[i] == Tone(!level)
    ensures Scan(s, i, level, last) == [i - last] + Scan(s, i + 1, !level, i)
  {
    hide Classify;
    ToneFlips(level);
  }

  lemma DetectsCut(level: bool, ns: seq<nat>, t: nat)
    requires Positive(ns) && 0 < t <= |Render(level, ns)|
    ensures Detect(Render(level, ns)[..t]) == if Whole(ns, t) == [] then NoPulses else Found(level, Whole(ns, t))
  {
    var xs := Render(level, ns)[..t];
    RenderShape(level, ns);
    assert xs[0..] == Render(level, ns)[..|xs| - 0];
    ScanCut(xs, 0, level, ns);
  }

  // The whole file

  /** Chunks with other identifiers are stepped over, pad byte included. */
  function Chunk(id: seq<byte>, body: seq<byte>): seq<byte> {
    id + U32le(|body|) + body + if |body| % 2 == 1 then [0] else []
  }

  lemma ForeignChunk(id: seq<byte>, body: seq<byte>, rest: seq<byte>, fmt: Fmt)
    requires |id| == 4 && id != FMT_ && id != DATA && |body| < 0x7FFF_FFFF
    ensures Walk(Chunk(id, body) + rest, fmt) == Walk(rest, fmt)
  {
    hide U32le, Get16, Get32;
    var s := Chunk(id, body) + rest;
    U32Length(|body|);
    Get32OfU32(|body|, id, s[8..]);
    assert s == id + U32le(|body|) + s[8..];
    assert s[..4] == id;
    assert Skip(s[8..], |body| + |body| % 2) == rest;
  }

  lemma FormatFields(rest: seq<byte>)
    ensures var body := FormatBody() + rest;
            && |FormatBody()| == 16
            && Fmt(Get16(body, 0), Get16(body, 2), Get32(body, 4), Get16(body, 14)) == Fmt(1, 1, WAV_RATE, 16)
  {
    assert FormatBody() == [1, 0, 1, 0, 0x44, 0xAC, 0, 0, 0x88, 0x58, 1, 0, 2, 0, 16, 0];
  }

  lemma FormatChunk(rest: seq<byte>, fmt: Fmt)
    ensures Walk(FMT_ + U32le(16) + FormatBody() + rest, fmt) == Walk(rest, Fmt(1, 1, WAV_RATE, 16))
  {
    hide FormatBody, U32le, Get16;
    var s, body := FMT_ + U32le(16) + FormatBody() + rest, FormatBody() + rest;
    U32Length(16);
    FormatFields(rest);
    Get32OfU32(16, FMT_, body);
    assert s == FMT_ + U32le(16) + body;
    assert s[..4] == FMT_ && s[8..] == body && Skip(body, 16) == rest;
  }

  /** A data chunk takes the bytes its size field asks for. */
  lemma DataChunkRead(size: nat, data: seq<byte>, fmt: Fmt)
    requires size < U32 && size <= |data|
    ensures Walk(DATA + U32le(size) + data, fmt) == DataChunk(fmt, data[..size])
  {
    var s := DATA + U32le(size) + data;
    Get32OfU32(size, DATA, data);
    assert s[..4] == DATA && s[8..] == data;
    assert DATA != FMT_ by { assert DATA[0] != FMT_[0]; }
  }

  datatype Foreign = Foreign(id: seq<byte>, body: seq<byte>)

  ghost predicate AreForeign(cs: seq<Foreign>) {
    forall c :: c in cs ==> |c.id| == 4 && c.id != FMT_ && c.id != DATA && |c.body| < 0x7FFF_FFFF
  }

  function Chunks(cs: seq<Foreign>): seq<byte> {
    if cs == [] then [] else Chunk(cs[0].id, cs[0].body) + Chunks(cs[1..])
  }

  lemma {:induction false} ForeignChunks(cs: seq<Foreign>, rest: seq<byte>, fmt: Fmt)
    requires AreForeign(cs)
    ensures Walk(Chunks(cs) + rest, fmt) == Walk(rest, fmt)
  {
    hide Walk, Chunk;
    if cs == [] {
      assert Chunks(cs) + rest == rest;
    } else {
      assert cs[0] in cs;
      ForeignChunk(cs[0].id, cs[0].body, Chunks(cs[1..]) + rest, fmt);
      assert Chunks(cs) + rest == Chunk(cs[0].id, cs[0].body) + (Chunks(cs[1..]) + rest);
      ForeignChunks(cs[1..], rest, fmt);
    }
  }

  /** A WAVE file of 16-bit mono samples at 44100 Hz, with any other chunks
      around the two that matter and any RIFF size. */
  function WaveFile(riff: nat, before: seq<Foreign>, between: seq<Foreign>, size: nat, data: seq<byte>): seq<byte> {
    RIFF + U32le(riff) + WAVE +
    (Chunks(before) + (FMT_ + U32le(16) + FormatBody() + (Chunks(between) + (DATA + U32le(size) + data))))
  }

  lemma LoadsWaveFile(riff: nat, before: seq<Foreign>, between: seq<Foreign>, size: nat, data: seq<byte>)
    requires AreForeign(before) && AreForeign(between) && size < U32 && size <= |data|
    ensures Load(WaveFile(riff, before, between, size, data)) == Interpret(Fmt(1, 1, WAV_RATE, 16), data[..size])
  {
    hide Walk, FormatBody, U32le, Interpret, Chunks;
    var tail := Chunks(between) + (DATA + U32le(size) + data);
    var body := Chunks(before) + (FMT_ + U32le(16) + FormatBody() + tail);
    var file := WaveFile(riff, before, between, size, data);
    assert |U32le(riff)| == 4 by { U32Length(riff); }
    assert file[..4] == RIFF && file[8..12] == WAVE && file[12..] == body;
    ForeignChunks(before, FMT_ + U32le(16) + FormatBody() + tail, Fmt(0, 0, 0, 0));
    FormatChunk(tail, Fmt(0, 0, 0, 0));
    ForeignChunks(between, DATA + U32le(size) + data, Fmt(1, 1, WAV_RATE, 16));
    DataChunkRead(size, data, Fmt(1, 1, WAV_RATE, 16));
  }

  lemma U32Length(v: nat)
    ensures |U32le(v)| == 4
  {
  }

  // Main results

  ghost predicate IsRecording(ds: seq<nat>) {
    ds != [] && forall i :: 0 <= i < |ds| ==> 1 <= ds[i] < U32
  }

  function TotalSamples(ds: seq<nat>): int { Sum(ToSamples(ds)) + TRAILER }

  /** What a recording becomes after one trip through a WAV file. */
  function Reencoded(ds: seq<nat>): seq<nat> { ToCycles(ToSamples(ds), WAV_RATE) }

  lemma SavedShape(initial: bool, ds: seq<nat>)
    requires IsRecording(ds)
    ensures var total := TotalSamples(ds) % U32;
            var xs := Render(initial, ToSamples(ds));
            && |xs| == TotalSamples(ds)
            && (Save(initial, ds).Saved? <==> total <= 0x7FFF_FFFF)
            && (total <= 0x7FFF_FFFF ==>
                  Save(initial, ds).file == WaveFile((36 + 2 * total) % U32, [], [], 2 * total, Pcm(xs)))
  {
    hide FormatBody, U32le, Pcm, Render, WaveFile, ToSamples, Sum;
    RenderShape(initial, ToSamples(ds));
    var total := TotalSamples(ds) % U32;
    if total <= 0x7FFF_FFFF {
      BareWaveFile((36 + 2 * total) % U32, 2 * total, Pcm(Render(initial, ToSamples(ds))));
    }
  }

  lemma BareWaveFile(riff: nat, size: nat, pcm: seq<byte>)
    requires riff < U32 && size < U32
    ensures WaveFile(riff, [], [], size, pcm) ==
            RIFF + U32le(riff) + WAVE + (FMT_ + U32le(16) + FormatBody()) + (DATA + U32le(size) + pcm)
  {
    hide FormatBody, U32le;
    var format, data := FMT_ + U32le(16) + FormatBody(), DATA + U32le(size) + pcm;
    assert Chunks([]) == [] && [] + data == data && [] + (format + data) == format + data;
    assert RIFF + U32le(riff) + WAVE + (format + data) == RIFF + U32le(riff) + WAVE + format + data;
  }

  /** Loading any WAVE file around a rendering gives the re-encoded recording. */
  lemma LoadsRendering(initial: bool, ds: seq<nat>, riff: nat, before: seq<Foreign>, between: seq<Foreign>)
    requires IsRecording(ds) && TotalSamples(ds) <= MAX_FRAMES && AreForeign(before) && AreForeign(between)
    ensures var xs := Render(initial, ToSamples(ds));
            Load(WaveFile(riff, before, between, 2 * |xs|, Pcm(xs))) == Loaded(Reencoded(ds), initial)
  {
    hide Pcm, Render, Frames, WaveFile, Detect, ToSamples, Sum;
    var xs := Render(initial, ToSamples(ds));
    RenderShape(initial, ToSamples(ds));
    LoadsWaveFile(riff, before, between, 2 * |xs|, Pcm(xs));
    FramesOfPcm(xs);
    DetectsRendering(initial, ToSamples(ds));
    assert Pcm(xs)[..2 * |xs|] == Pcm(xs);
  }

  /** Save then load: the same number of pulses, the same starting level, every
      pulse within 12 cycles (23 cycles for those shorter than half a sample). */
  lemma WavRoundTrip(initial: bool, ds: seq<nat>)
    requires IsRecording(ds) && TotalSamples(ds) <= MAX_FRAMES
    ensures Save(initial, ds).Saved?
    ensures var r := Load(Save(initial, ds).file);
            && r.Loaded? && r.initial == initial && |r.durations| == |ds|
            && forall i :: 0 <= i < |ds| ==>
                 && 1 <= r.durations[i] < U32
                 && (if ds[i] >= 12 then ds[i] - 12 <= r.durations[i] <= ds[i] + 12 else r.durations[i] == 23)
  {
    hide Load, Save, Render, Pcm, WaveFile;
    SavedShape(initial, ds);
    LoadsRendering(initial, ds, (36 + 2 * TotalSamples(ds)) % U32, [], []);
    forall i | 0 <= i < |ds|
      ensures 1 <= Reencoded(ds)[i] < U32
      ensures if ds[i] >= 12 then ds[i] - 12 <= Reencoded(ds)[i] <= ds[i] + 12 else Reencoded(ds)[i] == 23
    {
      CyclesDrift(ds[i]);
    }
  }

  lemma ReencodedKeepsSamples(ds: seq<nat>)
    ensures ToSamples(Reencoded(ds)) == ToSamples(ds)
  {
    forall i | 0 <= i < |ds| ensures ToSamples(Reencoded(ds))[i] == ToSamples(ds)[i] {
      SamplesSurvive(ToSamples(ds)[i]);
    }
  }

  /** Everything the first trip loses, it loses once: saving the loaded tape
      again writes the identical file. */
  lemma SecondPassIsExact(initial: bool, ds: seq<nat>)
    requires IsRecording(ds) && TotalSamples(ds) <= MAX_FRAMES
    ensures Save(initial, ds).Saved?
    ensures var r := Load(Save(initial, ds).file);
            r.Loaded? && Save(r.initial, r.durations) == Save(initial, ds)
  {
    hide Load, Save, Render, Pcm, WaveFile;
    SavedShape(initial, ds);
    LoadsRendering(initial, ds, (36 + 2 * TotalSamples(ds)) % U32, [], []);
    ReencodedKeepsSamples(ds);
    SavesItsSamples(initial, ds, Reencoded(ds));
  }

  lemma SavesItsSamples(initial: bool, ds: seq<nat>, es: seq<nat>)
    requires ToSamples(ds) == ToSamples(es) && |ds| == |es|
    ensures Save(initial, ds) == Save(initial, es)
  {
    hide ToSamples, Render, Pcm, FormatBody, U32le, Sum;
  }

  /** The round trip holds exactly for recordings within the loader's limit.
      Longer ones are refused on save, refused on load, or, once the 32-bit
      total has wrapped, silently cut short. */
  lemma RoundTripExactlyWhen(initial: bool, ds: seq<nat>)
    requires IsRecording(ds)
    ensures (Save(initial, ds).Saved? && Load(Save(initial, ds).file) == Loaded(Reencoded(ds), initial))
            <==> TotalSamples(ds) <= MAX_FRAMES
  {
    hide Load, Save, Render, Pcm, WaveFile, Frames;
    SavedShape(initial, ds);
    var t := TotalSamples(ds) % U32;
    if TotalSamples(ds) <= MAX_FRAMES {
      LoadsRendering(initial, ds, (36 + 2 * t) % U32, [], []);
    } else if t <= 0x7FFF_FFFF {
      var pcm := Pcm(Render(initial, ToSamples(ds)));
      LoadsWaveFile((36 + 2 * t) % U32, [], [], 2 * t, pcm);
      if t <= MAX_FRAMES { CutShort(ds, pcm[..2 * t], initial); }
    }
  }

  /** What a recording loads as when its sample total wraps to an acceptable one:
      the pulses that end within the wrapped total. */
  lemma WrappedRecordingIsCut(initial: bool, ds: seq<nat>)
    requires IsRecording(ds) && 0 < TotalSamples(ds) % U32 <= MAX_FRAMES
    ensures Save(initial, ds).Saved?
    ensures var gaps := Whole(ToSamples(ds), TotalSamples(ds) % U32);
            Load(Save(initial, ds).file) == if gaps == [] then NoTape else Loaded(ToCycles(gaps, WAV_RATE), initial)
  {
    hide Load, Save, Render, Pcm, WaveFile, Frames, Detect, Whole, ToSamples, Sum;
    SavedShape(initial, ds);
    var t, ns := TotalSamples(ds) % U32, ToSamples(ds);
    var xs := Render(initial, ns);
    LoadsWaveFile((36 + 2 * t) % U32, [], [], 2 * t, Pcm(xs));
    PcmPrefix(xs, t);
    RenderShape(initial, ns);
    FramesOfPcm(xs[..t]);
    DetectsCut(initial, ns, t);
  }

  lemma {:induction false} PcmPrefix(xs: seq<int>, t: nat)
    requires t <= |xs|
    ensures Pcm(xs)[..2 * t] == Pcm(xs[..t])
  {
    hide Pcm;
    PcmConcat(xs[..t], xs[t..]);
    assert xs[..t] + xs[t..] == xs;
  }

  lemma {:induction false} SumOfEqual(x: int, n: nat)
    ensures Sum(seq(n, _ => x)) == n * x
  {
    if n > 0 {
      assert seq(n, _ => x)[1..] == seq(n - 1, _ => x);
      SumOfEqual(x, n - 1);
    }
  }

  /** Twenty-five pulses of 0xFFFFFFFF cycles save without complaint and load as
      one. */
  lemma LongRecordingIsCut(initial: bool)
    ensures var ds := seq(25, _ => 0xFFFF_FFFF);
            && IsRecording(ds) && Save(initial, ds).Saved?
            && Load(Save(initial, ds).file) == Loaded([CyclesOf(185_199_039, WAV_RATE)], initial)
  {
    hide Load, Save;
    var ds: seq<nat> := seq(25, _ => 0xFFFF_FFFF);
    assert SamplesOf(0xFFFF_FFFF) == 185_199_039;
    var ns := ToSamples(ds);
    assert ns == seq(25, _ => 185_199_039);
    SumOfEqual(185_199_039, 25);
    var t := TotalSamples(ds) % U32;
    assert Whole(ns, t) == [ns[0]];
    WrappedRecordingIsCut(initial, ds);
    assert ToCycles([ns[0]], WAV_RATE) == [CyclesOf(ns[0], WAV_RATE)];
  }

  lemma SameCyclesSameGaps(gaps: seq<nat>, ds: seq<nat>)
    requires Positive(gaps) && ToCycles(gaps, WAV_RATE) == Reencoded(ds)
    ensures gaps == ToSamples(ds)
  {
    assert |gaps| == |ToCycles(gaps, WAV_RATE)| == |Reencoded(ds)| == |ds|;
    forall i | 0 <= i < |ds| ensures gaps[i] == ToSamples(ds)[i] {
      SamplesSurvive(gaps[i]);
      SamplesSurvive(ToSamples(ds)[i]);
      assert ToCycles(gaps, WAV_RATE)[i] == Reencoded(ds)[i];
    }
  }

  /** The gaps a detector finds end inside the data it was given. */
  lemma GapsFit(xs: seq<int>)
    requires Detect(xs).Found?
    ensures Positive(Detect(xs).gaps) && Sum(Detect(xs).gaps) < |xs|
  {
    var fa, ts := DetectorMeetsSpec(xs);
    assert ts[|ts| - 1] in ts;
  }

  lemma CutShort(ds: seq<nat>, data: seq<byte>, initial: bool)
    requires IsRecording(ds) && |data| / 2 <= MAX_FRAMES && TotalSamples(ds) >= U32
    ensures Interpret(Fmt(1, 1, WAV_RATE, 16), data) != Loaded(Reencoded(ds), initial)
  {
    hide Detect, Reencoded, ToSamples;
    if Interpret(Fmt(1, 1, WAV_RATE, 16), data) == Loaded(Reencoded(ds), initial) {
      GapsFit(Frames(data));
      SameCyclesSameGaps(Detect(Frames(data)).gaps, ds);
    }
  }

  // The C functions

  /** `aci_vfs_write_all` in a loop: `n` copies of one sample. */
  method WriteHold(file: seq<byte>, level: bool, n: nat) returns (out: seq<byte>)
    ensures out == file + Pcm(Hold(level, n))
  {
    out := file;
    for i := 0 to n
      invariant out == file + Pcm(Hold(level, i))
    {
      PcmAppends(Hold(level, i), Tone(level));
      assert Hold(level, i + 1) == Hold(level, i) + [Tone(level)];
      out := out + Sample(Tone(level));
    }
  }

  lemma {:induction false} PcmConcat(xs: seq<int>, ys: seq<int>)
    ensures Pcm(xs + ys) == Pcm(xs) + Pcm(ys)
  {
    hide Sample;
    if xs == [] {
      assert xs + ys == ys;
    } else {
      PcmConcat(xs[1..], ys);
      assert (xs + ys)[1..] == xs[1..] + ys;
    }
  }

  lemma PcmAppends(xs: seq<int>, x: int)
    ensures Pcm(xs + [x]) == Pcm(xs) + Sample(x)
  {
    PcmConcat(xs, [x]);
    assert Pcm([x]) == Sample(x);
  }

  lemma ToSamplesStep(ds: seq<nat>, i: nat)
    requires i < |ds|
    ensures ToSamples(ds[i..]) == [SamplesOf(ds[i])] + ToSamples(ds[i + 1..])
    ensures Sum(ToSamples(ds[i..])) == SamplesOf(ds[i]) + Sum(ToSamples(ds[i + 1..]))
  {
    assert ToSamples(ds[i..])[1..] == ToSamples(ds[i + 1..]);
  }

  /** First pass over the durations: the sample total, wrapping at 32 bits. */
  method CountSamples(ds: seq<nat>) returns (total: nat)
    ensures total == (Sum(ToSamples(ds)) + TRAILER) % U32
  {
    hide ToSamples, Sum, SamplesOf;
    total := 0;
    ghost var k := 0;   // how often the total has wrapped
    assert ds[0..] == ds;
    for i := 0 to |ds|
      invariant 0 <= total < U32
      invariant total + U32 * k + Sum(ToSamples(ds[i..])) == Sum(ToSamples(ds))
    {
      ToSamplesStep(ds, i);
      k := k + (total + SamplesOf(ds[i])) / U32;
      total := (total + SamplesOf(ds[i])) % U32;
    }
    assert Sum(ToSamples(ds[|ds|..])) == 0 by { EmptyTotal(ds); }
    total := (total + TRAILER) % U32;
  }

  lemma EmptyTotal(ds: seq<nat>)
    ensures Sum(ToSamples(ds[|ds|..])) == 0 && Render(true, ToSamples(ds[|ds|..])) == Hold(true, TRAILER)
    ensures Render(false, ToSamples(ds[|ds|..])) == Hold(false, TRAILER)
  {
    assert ToSamples(ds[|ds|..]) == [];
  }

  /** Second pass: one run per pulse with the level flipping, then the trailer. */
  method WriteSamples(head: seq<byte>, initial: bool, ds: seq<nat>) returns (file: seq<byte>)
    ensures file == head + Pcm(Render(initial, ToSamples(ds)))
  {
    hide Pcm, Hold, ToSamples, SamplesOf;
    file := head;
    var level := initial;
    assert ds[0..] == ds;
    for i := 0 to |ds|
      invariant file + Pcm(Render(level, ToSamples(ds[i..]))) == head + Pcm(Render(initial, ToSamples(ds)))
    {
      ghost var n, rest := SamplesOf(ds[i]), ToSamples(ds[i + 1..]);
      ToSamplesStep(ds, i);
      assert ([n] + rest)[1..] == rest;
      PcmConcat(Hold(level, n), Render(!level, rest));
      file := WriteHold(file, level, SamplesOf(ds[i]));
      level := !level;
    }
    EmptyTotal(ds);
    file := WriteHold(file, level, WAV_RATE / 10);
  }

  method SaveWavTape(initial: bool, recorded: seq<nat>) returns (r: SaveResult)
    ensures r == Save(initial, recorded)
  {
    hide Pcm, Render, ToSamples, Sum, FormatBody, U32le;
    if |recorded| == 0 { return NothingRecorded; }
    var total := CountSamples(recorded);
    if total > 0x7FFF_FFFF { return TooLong; }
    var head := RIFF + U32le((36 + total * 2) % U32) + WAVE;
    var format := FMT_ + U32le(16) + FormatBody();
    var data := DATA + U32le(total * 2);
    var file := WriteSamples(head + format + data, initial, recorded);
    ghost var pcm := Pcm(Render(initial, ToSamples(recorded)));
    assert head + format + data + pcm == head + format + (data + pcm);
    return Saved(file);
  }

  /** The chunk loop: format and data, or the reason there are none. */
  method ReadChunks(body: seq<byte>) returns (w: Walked)
    ensures w == Walk(body, Fmt(0, 0, 0, 0))
  {
    hide Get32, Get16;
    var fmt := Fmt(0, 0, 0, 0);
    var s := body;
    while |s| >= 8
      invariant Walk(s, fmt) == Walk(body, Fmt(0, 0, 0, 0))
    {
      var id, size, rest := s[..4], Get32(s, 4), s[8..];
      if id == FMT_ {
        if size < 16 { return Stop(ProtocolError); }
        if |rest| < 16 { return Stop(IoError); }
        if size >= 0x8000_0000 { return Stop(NotModelled); }
        fmt := Fmt(Get16(rest, 0), Get16(rest, 2), Get32(rest, 4), Get16(rest, 14));
        s := Skip(rest, size);
      } else if id == DATA {
        if |rest| < size { return Stop(IoError); }
        return DataChunk(fmt, rest[..size]);
      } else {
        if size + size % 2 >= 0x8000_0000 { return Stop(NotModelled); }
        s := Skip(rest, size + size % 2);
      }
    }
    return Stop(ProtocolError);
  }

  method LoadWavTape(file: seq<byte>) returns (r: LoadResult)
    ensures r == Load(file)
  {
    hide Walk, GetSample, Decode;
    if |file| < 12 { return IoError; }
    if file[..4] != RIFF || file[8..12] != WAVE { return ProtocolError; }
    var w := ReadChunks(file[12..]);
    if w.Stop? { return w.error; }
    var fmt, data := w.fmt, w.data;
    if fmt.channels == 0 || fmt.rate == 0 || fmt.bits == 0 { return ProtocolError; }
    if fmt.format != 1 && fmt.format != 3 { return ProtocolError; }
    var bytesPerSample := fmt.bits / 8;
    if bytesPerSample == 0 || |data| < bytesPerSample * fmt.channels { return ProtocolError; }
    if |data| / (bytesPerSample * fmt.channels) > MAX_FRAMES { return RangeError; }
    if fmt.format != 1 || fmt.bits != 16 || fmt.channels != 1 { return NotModelled; }
    var mono := new int[|data| / 2];
    for i := 0 to |data| / 2
      invariant forall k :: 0 <= k < i ==> mono[k] == Frames(data)[k]
    {
      mono[i] := GetSample(data[2 * i], data[2 * i + 1]);
    }
    assert mono[..] == Frames(data);
    var p := PcmToDurations(mono, fmt.rate);
    if !p.Decoded? { return NoTape; }
    return Loaded(p.durations, p.initial);
  }
}
