/** Numbers as text in `port_string.c`: the saturating readers, the printer, and
    the sense in which they undo each other.

    `long` is the 32-bit type that `port.h` falls back to. */
module PortNumber {
  import opened Chars

  const ULONG_MAX: int := 4294967295
  const LONG_MAX: int := 2147483647
  const LONG_MIN: int := -2147483648

  // Values of digit strings

  predicate IsDigitOf(c: char, base: nat) { IsHex(c) && HexVal(c) < base }

  /** Length of the leading run of digits of `base`. */
  function DigitRun(s: string, base: nat): (n: nat)
    ensures n <= |s|
  {
    if s != "" && IsDigitOf(s[0], base) then 1 + DigitRun(s[1..], base) else 0
  }

  /** Most significant digit first, unbounded. */
  function Value(s: string, base: nat): nat {
    if s == "" then 0 else Value(s[..|s| - 1], base) * base + HexVal(s[|s| - 1])
  }

  function Min(a: int, b: int): int { if a < b then a else b }

  // Reading

  datatype Parsed = Parsed(value: int, end: nat)

  predicate StartsWith(s: string, c: char) { s != "" && s[0] == c }

  predicate HasHexPrefix(s: string) { StartsWith(s, '0') && |s| > 1 && (s[1] == 'x' || s[1] == 'X') }

  /** The radix prefix's length, and the base to read in. */
  function RadixPrefix(s: string, base: nat): (r: (nat, nat))
    ensures r.0 <= |s|
  {
    if base == 0 then
      if HasHexPrefix(s) then (2, 16) else if StartsWith(s, '0') then (1, 8) else (0, 10)
    else if base == 16 && HasHexPrefix(s) then (2, 16)
    else (0, base)
  }

  predicate ValidBase(base: int) { base == 0 || 2 <= base <= 36 }

  /** Where the digits start: blanks, sign and radix prefix are behind. */
  datatype Opening = Opening(negative: bool, start: nat, base: nat)

  function Open(s: string, base: nat, signed: bool): (o: Opening)
    ensures o.start <= |s|
  {
    var sp := SpaceRun(s);
    var negative := signed && StartsWith(s[sp..], '-');
    var at := sp + if negative || StartsWith(s[sp..], '+') then 1 else 0;
    var (skip, b) := RadixPrefix(s[at..], base);
    Opening(negative, at + skip, b)
  }

  /** The digits that are read. */
  function DigitsIn(s: string, o: Opening): string
    requires o.start <= |s|
  {
    s[o.start..o.start + DigitRun(s[o.start..], o.base)]
  }

  /** `port_strtoul`. */
  function ParseUnsigned(s: string, base: int): (r: Parsed)
    ensures 0 <= r.value <= ULONG_MAX && r.end <= |s|
  {
    if !ValidBase(base) then Parsed(0, 0)
    else
      var o := Open(s, base, false);
      var ds := DigitsIn(s, o);
      Parsed(Min(Value(ds, o.base), ULONG_MAX), o.start + |ds|)
  }

  /** `port_strtol`: the magnitude saturates at the limit of its sign. */
  function ParseSigned(s: string, base: int): (r: Parsed)
    ensures LONG_MIN <= r.value <= LONG_MAX && r.end <= |s|
  {
    if !ValidBase(base) then Parsed(0, 0)
    else
      var o := Open(s, base, true);
      var ds := DigitsIn(s, o);
      var v := Value(ds, o.base);
      Parsed(if o.negative then -Min(v, -LONG_MIN) else Min(v, LONG_MAX), o.start + |ds|)
  }

  // Printing

  function DigitChar(d: int, upper: bool): (c: char)
    requires 0 <= d < 16
  {
    if d < 10 then ('0' as int + d) as char
    else ((if upper then 'A' else 'a') as int + d - 10) as char
  }

  function Digits(v: nat, base: nat, upper: bool): (s: string)
    requires 2 <= base <= 16
    ensures s != ""
    decreases v
  {
    QuotientAndRest(v, base);
    (if v < base then "" else Digits(v / base, base, upper)) + [DigitChar(v % base, upper)]
  }

  function Padding(width: int, zero: bool): string {
    if width <= 0 then "" else Padding(width - 1, zero) + [if zero then '0' else ' ']
  }

  /** `format_unsigned` with room to spare. */
  function FormatUnsigned(v: nat, base: nat, upper: bool, width: nat, zero: bool): string
    requires 2 <= base <= 16
  {
    var ds := Digits(v, base, upper);
    Padding(width - |ds|, zero) + ds
  }

  /** `%d`: the sign goes first, padding or not. */
  function FormatSigned(v: int, width: nat, zero: bool): string {
    if v < 0 then "-" + FormatUnsigned(-v, 10, false, width, zero)
    else FormatUnsigned(v, 10, false, width, zero)
  }

  // What reading makes of printed text

  lemma DigitCharReads(d: int, base: nat, upper: bool)
    requires 0 <= d < base <= 16
    ensures IsDigitOf(DigitChar(d, upper), base) && HexVal(DigitChar(d, upper)) == d
    ensures !IsSpace(DigitChar(d, upper))
    ensures DigitChar(d, upper) !in "-+xX"
  {
  }

  ghost predicate AllDigits(s: string, base: nat) { forall i :: 0 <= i < |s| ==> IsDigitOf(s[i], base) }

  lemma ValueGrows(s: string, c: char, base: nat)
    ensures Value(s + [c], base) == Value(s, base) * base + HexVal(c)
  {
    assert (s + [c])[..|s|] == s;
  }

  lemma DigitsGrow(s: string, c: char, base: nat)
    requires AllDigits(s, base) && IsDigitOf(c, base)
    ensures AllDigits(s + [c], base)
  {
  }

  lemma QuotientAndRest(v: nat, base: nat)
    requires base >= 2
    ensures v / base * base + v % base == v && v % base < base
    ensures v >= base ==> v / base < v
    ensures v < base ==> v / base == 0
  {
  }

  lemma DigitsStep(v: nat, base: nat, upper: bool)
    requires 2 <= base <= 16 && v % base < 16
    ensures Digits(v, base, upper) ==
            (if v < base then "" else Digits(v / base, base, upper)) + [DigitChar(v % base, upper)]
  {
  }

  lemma {:induction false} DigitsRead(v: nat, base: nat, upper: bool)
    requires 2 <= base <= 16
    ensures AllDigits(Digits(v, base, upper), base)
    ensures Value(Digits(v, base, upper), base) == v
    decreases v
  {
    hide DigitChar, HexVal, Value, IsDigitOf, AllDigits, Digits;
    QuotientAndRest(v, base);
    DigitsStep(v, base, upper);
    var q, d := v / base, v % base;
    var s, c := if v < base then "" else Digits(q, base, upper), DigitChar(d, upper);
    DigitCharReads(d, base, upper);
    ValueGrows(s, c, base);
    NoValue(base);
    if v >= base { DigitsRead(q, base, upper); }
    DigitsGrow(s, c, base);
  }

  lemma NoValue(base: nat)
    ensures Value("", base) == 0 && AllDigits("", base)
  {
  }

  lemma {:induction false} ZerosCountNothing(n: nat, s: string, base: nat)
    requires base >= 2 && AllDigits(s, base)
    ensures AllDigits(Padding(n, true) + s, base)
    ensures Value(Padding(n, true) + s, base) == Value(s, base)
    decreases |s| + n
  {
    var t := Padding(n, true) + s;
    if s != "" {
      ZerosCountNothing(n, s[..|s| - 1], base);
      assert t[..|t| - 1] == Padding(n, true) + s[..|s| - 1];
    } else if n > 0 {
      ZerosCountNothing(n - 1, "", base);
      assert t[..|t| - 1] == Padding(n - 1, true) + "";
    }
  }

  lemma {:induction false} BlanksAreSpaces(n: int)
    ensures forall i :: 0 <= i < |Padding(n, false)| ==> IsSpace(Padding(n, false)[i])
    ensures |Padding(n, false)| == if n <= 0 then 0 else n
  {
    if n > 0 { BlanksAreSpaces(n - 1); }
  }

  lemma {:induction false} AllDigitsRun(s: string, base: nat)
    requires AllDigits(s, base)
    ensures DigitRun(s, base) == |s|
  {
    if s != "" { AllDigitsRun(s[1..], base); }
  }

  lemma {:induction false} SpaceRunIs(pad: string, s: string)
    requires (forall i :: 0 <= i < |pad| ==> IsSpace(pad[i])) && (s == "" || !IsSpace(s[0]))
    ensures SpaceRun(pad + s) == |pad|
  {
    if pad == "" {
      assert pad + s == s;
    } else {
      assert (pad + s)[1..] == pad[1..] + s;
      SpaceRunIs(pad[1..], s);
    }
  }

  /** Blanks, then plain digits: everything is read and nothing else. */
  lemma PlainDigitsOpen(pad: string, s: string, base: nat, signed: bool)
    requires base == 10 || base == 16
    requires (forall i :: 0 <= i < |pad| ==> IsSpace(pad[i])) && s != "" && AllDigits(s, base)
    ensures var o := Open(pad + s, base, signed);
            o == Opening(false, |pad|, base) && DigitsIn(pad + s, o) == s
  {
    var t := pad + s;
    assert IsDigitOf(s[0], base);
    SpaceRunIs(pad, s);
    assert t[|pad|..] == s;
    assert !HasHexPrefix(s) by { if |s| > 1 { assert IsDigitOf(s[1], base); } }
    AllDigitsRun(s, base);
  }

  /** A printed number is blanks, then digits of the same value. */
  lemma FormattedShape(v: nat, base: nat, upper: bool, width: nat, zero: bool) returns (pad: string, s: string)
    requires base == 10 || base == 16
    ensures FormatUnsigned(v, base, upper, width, zero) == pad + s
    ensures (forall i :: 0 <= i < |pad| ==> IsSpace(pad[i])) && s != "" && AllDigits(s, base) && Value(s, base) == v
    ensures pad == "" <==> zero || width <= |Digits(v, base, upper)|
  {
    var ds := Digits(v, base, upper);
    var n := width - |ds|;
    DigitsRead(v, base, upper);
    if zero {
      pad, s := "", Padding(n, true) + ds;
      if n > 0 { ZerosCountNothing(n, ds, base); } else { assert s == ds; }
      assert pad + s == s;
    } else {
      pad, s := Padding(n, false), ds;
      BlanksAreSpaces(n);
    }
  }

  /** `port_strtoul` undoes `format_unsigned`, for every value, width and
      padding; beyond the largest `unsigned long` it saturates.  All of the text
      is consumed. */
  lemma PrintedNumberReadsBack(v: nat, base: nat, upper: bool, width: nat, zero: bool)
    requires base == 10 || base == 16
    ensures var t := FormatUnsigned(v, base, upper, width, zero);
            ParseUnsigned(t, base) == Parsed(Min(v, ULONG_MAX), |t|)
  {
    hide Open, DigitsIn, FormatUnsigned, Value;
    var pad, s := FormattedShape(v, base, upper, width, zero);
    PlainDigitsOpen(pad, s, base, false);
  }

  /** A minus sign with blanks behind it stops the reader. */
  lemma BlankAfterSign(pad: string, s: string)
    requires pad != "" && forall i :: 0 <= i < |pad| ==> IsSpace(pad[i])
    ensures ParseSigned("-" + (pad + s), 10) == Parsed(0, 1)
  {
    var t := "-" + (pad + s);
    assert t[0] == '-' && !IsSpace(t[0]) && SpaceRun(t) == 0 && t[0..] == t;
    assert t[1..] == pad + s && t[1] == pad[0] && IsSpace(t[1]);
    assert DigitRun(t[1..], 10) == 0;
  }

  lemma DigitsAfterSign(s: string)
    requires s != "" && AllDigits(s, 10)
    ensures ParseSigned("-" + s, 10) == Parsed(-Min(Value(s, 10), -LONG_MIN), |s| + 1)
  {
    hide Value, Open, AllDigits;
    var t := "-" + s;
    MinusOpens(s);
    AllDigitsRun(s, 10);
    assert t[1..] == s && t[1..1 + |s|] == s;
  }

  lemma MinusOpens(s: string)
    ensures Open("-" + s, 10, true) == Opening(true, 1, 10)
  {
    var t := "-" + s;
    assert t[0] == '-' && !IsSpace(t[0]) && SpaceRun(t) == 0 && t[0..] == t;
  }

  /** `%d` reads back through `port_strtol` exactly when the value is a `long`
      and no blank comes between a minus sign and the digits. */
  lemma SignedReadsBackExactlyWhen(v: int, width: nat, zero: bool)
    ensures ParseSigned(FormatSigned(v, width, zero), 10).value == v <==>
            LONG_MIN <= v <= LONG_MAX
            && (v >= 0 || zero || width <= |Digits(-v, 10, false)|)
  {
    hide Open, DigitsIn, FormatUnsigned, Value, ParseSigned;
    var pad, s := FormattedShape(if v < 0 then -v else v, 10, false, width, zero);
    if v >= 0 {
      PlainDigitsOpen(pad, s, 10, true);
      assert ParseSigned(pad + s, 10).value == Min(v, LONG_MAX) by { SignedOfPlain(pad + s); }
    } else if pad != "" {
      BlankAfterSign(pad, s);
    } else {
      assert pad + s == s;
      DigitsAfterSign(s);
    }
  }

  lemma SignedOfPlain(t: string)
    requires !Open(t, 10, true).negative && Open(t, 10, true).base == 10
    ensures ParseSigned(t, 10).value == Min(Value(DigitsIn(t, Open(t, 10, true)), 10), LONG_MAX)
  {
    hide Open, Value;
  }

  lemma FiveShows()
    ensures DigitChar(5, false) == '5'
  {
  }

  /** `%5d` of -5 is a minus sign, four blanks and a 5, and reads as 0. */
  lemma PaddedMinusIsLost()
    ensures FormatSigned(-5, 5, false) == "-    5"
    ensures ParseSigned("-    5", 10) == Parsed(0, 1)
  {
    hide Digits, ParseSigned, DigitChar;
    DigitsStep(5, 10, false);
    FiveShows();
    assert Padding(4, false) == Padding(2, false) + "  " && Padding(2, false) == "  ";
    assert FormatSigned(-5, 5, false) == "-" + ("    " + "5");
    BlankAfterSign("    ", "5");
  }

  // Saturation

  lemma {:induction false} PrefixIsSmaller(s: string, k: nat, base: nat)
    requires k <= |s| && base > 0
    ensures Value(s[..k], base) <= Value(s, base)
    decreases |s|
  {
    if k < |s| {
      var t := s[..|s| - 1];
      PrefixIsSmaller(t, k, base);
      assert t[..k] == s[..k];
      Scaled(Value(t, base), base);
    } else {
      assert s[..k] == s;
    }
  }

  lemma Scaled(v: nat, base: nat)
    requires base > 0
    ensures v <= v * base
  {
  }

  /** The overflow test of the source, stated on the quotient, is exact. */
  lemma OverflowTestIsExact(r: nat, digit: nat, limit: nat, base: nat)
    requires digit < base <= limit
    ensures r > (limit - digit) / base <==> r * base + digit > limit
  {
    var q := (limit - digit) / base;
    assert q * base <= limit - digit < q * base + base;
    if r > q { Monotone(q + 1, r, base); } else { Monotone(r, q, base); }
  }

  lemma Monotone(a: nat, b: nat, c: nat)
    requires a <= b
    ensures a * c <= b * c
  {
  }

  // ISO C's end pointer

  /** ISO C's digits go on to z; the readers' stop at f. */
  function IsoVal(c: char): nat {
    if '0' <= c <= '9' then c as int - '0' as int
    else if 'a' <= c <= 'z' then c as int - 'a' as int + 10
    else if 'A' <= c <= 'Z' then c as int - 'A' as int + 10
    else 36
  }

  ghost predicate AllIso(s: string, base: nat) { forall i :: 0 <= i < |s| ==> IsoVal(s[i]) < base }

  function IsoRun(s: string, base: nat): (n: nat)
    ensures n <= |s|
  {
    if s != "" && IsoVal(s[0]) < base then 1 + IsoRun(s[1..], base) else 0
  }

  /** The part of a subject sequence behind its sign. */
  ghost predicate IsBody(u: string, base: nat) {
    if base == 0 then
      if HasHexPrefix(u) then |u| > 2 && AllIso(u[2..], 16)
      else if StartsWith(u, '0') then AllIso(u, 8)
      else u != "" && AllIso(u, 10)
    else
      || (u != "" && AllIso(u, base))
      || (base == 16 && HasHexPrefix(u) && |u| > 2 && AllIso(u[2..], 16))
  }

  function SignLength(t: string): (n: nat)
    ensures n <= |t|
  {
    if StartsWith(t, '-') || StartsWith(t, '+') then 1 else 0
  }

  /** `t[..k]` has the form of section 7.20.1.4 of ISO/IEC 9899:1999. */
  ghost predicate IsSubject(t: string, k: nat, base: nat)
    requires k <= |t|
  {
    SignLength(t) <= k && IsBody(t[SignLength(t)..k], base)
  }

  /** ISO C's end pointer: behind the longest subject sequence, or the start. */
  ghost predicate IsoEnd(s: string, base: nat, end: nat)
    requires end <= |s|
  {
    var sp := SpaceRun(s);
    var t := s[sp..];
    if exists k :: 0 <= k <= |t| && IsSubject(t, k, base) then
      sp <= end && IsSubject(t, end - sp, base)
      && forall k :: end - sp < k <= |t| ==> !IsSubject(t, k, base)
    else end == 0
  }

  /** `k` is the length of a body whose radix prefix has length `r` and is
      followed by `n` digits. */
  predicate InShape(k: int, r: nat, n: nat) {
    if r == 2 then k == 1 || 2 < k <= 2 + n else r <= k <= r + n && k > 0
  }

  /** Which prefixes of `u` are bodies. */
  lemma BodyIs(u: string, k: nat, base: nat)
    requires k <= |u| && ValidBase(base)
    ensures var (r, b) := RadixPrefix(u, base);
            var n := IsoRun(u[r..], b);
            IsBody(u[..k], base) <==> InShape(k, r, n)
  {
    hide IsoVal, IsoRun;
    var (r, b) := RadixPrefix(u, base);
    var n, v := IsoRun(u[r..], b), u[..k];
    if r <= k {
      assert v[r..] == u[r..][..k - r];
      RunIsLongest(u[r..], b, k - r);
    }
    if k > 0 { assert v[0] == u[0]; }
    if k > 1 { assert v[1] == u[1]; }
    if r == 1 && k > 0 { assert AllIso(v, 8) <==> AllIso(v[1..], 8) by { DropZero(v); } }
    if r == 2 && k > 1 { XIsNoDigit(v[1]); }
    ZeroIsDigit();
  }

  lemma XIsNoDigit(c: char)
    requires c == 'x' || c == 'X'
    ensures IsoVal(c) >= 16
  {
  }

  lemma ZeroIsDigit()
    ensures IsoVal('0') == 0
  {
  }

  lemma DropZero(v: string)
    requires StartsWith(v, '0')
    ensures AllIso(v, 8) <==> AllIso(v[1..], 8)
  {
    if AllIso(v[1..], 8) {
      forall i | 0 <= i < |v|
        ensures IsoVal(v[i]) < 8
      {
        if i > 0 { assert IsoVal(v[1..][i - 1]) < 8; }
      }
    }
  }

  lemma {:induction false} RunOfDigits(s: string, base: nat)
    ensures AllIso(s[..IsoRun(s, base)], base)
    ensures IsoRun(s, base) < |s| ==> IsoVal(s[IsoRun(s, base)]) >= base
  {
    hide IsoVal;
    if s != "" && IsoVal(s[0]) < base {
      RunOfDigits(s[1..], base);
      var n := IsoRun(s, base);
      assert s[..n] == [s[0]] + s[1..][..n - 1];
    }
  }

  lemma RunIsLongest(s: string, base: nat, k: nat)
    requires k <= |s|
    ensures AllIso(s[..k], base) <==> k <= IsoRun(s, base)
  {
    hide IsoVal;
    RunOfDigits(s, base);
    var n := IsoRun(s, base);
    if n < k { assert IsoVal(s[..k][n]) >= base; } else { assert s[..k] == s[..n][..k]; }
  }

  function SignEnd(s: string): (u: nat)
    ensures SpaceRun(s) <= u <= |s|
  {
    SpaceRun(s) + SignLength(s[SpaceRun(s)..])
  }

  lemma OpenIs(s: string, base: nat)
    ensures var o, (r, b) := Open(s, base, true), RadixPrefix(s[SignEnd(s)..], base);
            o.start == SignEnd(s) + r && o.base == b
    ensures RadixPrefix(s[SignEnd(s)..], base).0 <= 2
  {
    hide SpaceRun;
  }

  lemma NoShapeBelow(k: int, r: nat, n: nat)
    requires k < 0
    ensures !InShape(k, r, n)
  {
  }

  lemma BehindSign(t: string, base: nat, k: nat)
    requires ValidBase(base) && k <= |t|
    ensures var w := t[SignLength(t)..];
            var (r, b) := RadixPrefix(w, base);
            IsSubject(t, k, base) <==> InShape(k - SignLength(t), r, IsoRun(w[r..], b))
  {
    hide IsBody, IsoRun, RadixPrefix, InShape, SignLength;
    var u := SignLength(t);
    var w := t[u..];
    var (r, b) := RadixPrefix(w, base);
    if u <= k {
      assert t[u..k] == w[..k - u];
      BodyIs(w, k - u, base);
    } else {
      NoShapeBelow(k - u, r, IsoRun(w[r..], b));
    }
  }

  lemma SubjectsAre(s: string, base: nat, k: nat)
    requires ValidBase(base)
    requires SpaceRun(s) <= k <= |s|
    ensures var o, u := Open(s, base, true), SignEnd(s);
            o.start >= u &&
            (IsSubject(s[SpaceRun(s)..], k - SpaceRun(s), base) <==>
             InShape(k - u, o.start - u, IsoRun(s[o.start..], o.base)))
  {
    hide IsSubject, SpaceRun, IsoRun, RadixPrefix, Open, SignLength, InShape, SignEnd, ValidBase;
    OpenIs(s, base);
    BehindBlanks(s, base, k);
    DropDrop(s, SignEnd(s), RadixPrefix(s[SignEnd(s)..], base).0);
  }

  lemma BehindBlanks(s: string, base: nat, k: nat)
    requires ValidBase(base)
    requires SpaceRun(s) <= k <= |s|
    ensures var sp, u := SpaceRun(s), SignEnd(s);
            var (r, b) := RadixPrefix(s[u..], base);
            IsSubject(s[sp..], k - sp, base) <==> InShape(k - u, r, IsoRun(s[u..][r..], b))
  {
    hide IsSubject, SpaceRun, IsoRun, RadixPrefix, SignLength, InShape, SignEnd, ValidBase;
    SignEndIs(s);
    BehindSign(s[SpaceRun(s)..], base, k - SpaceRun(s));
  }

  lemma SignEndIs(s: string)
    ensures var t := s[SpaceRun(s)..];
            SignEnd(s) == SpaceRun(s) + SignLength(t) && t[SignLength(t)..] == s[SignEnd(s)..]
  {
    hide SpaceRun, SignLength;
    DropDrop(s, SpaceRun(s), SignLength(s[SpaceRun(s)..]));
  }

  lemma DropDrop(s: string, i: nat, j: nat)
    requires i + j <= |s|
    ensures s[i..][j..] == s[i + j..]
  {
  }

  lemma LongestIs(s: string, base: nat, k: nat, end: nat)
    requires SpaceRun(s) + k <= |s| && end <= |s|
    requires IsSubject(s[SpaceRun(s)..], k, base)
    requires forall j :: k < j <= |s| - SpaceRun(s) ==> !IsSubject(s[SpaceRun(s)..], j, base)
    ensures IsoEnd(s, base, end) <==> end == SpaceRun(s) + k
  {
    hide IsSubject, SpaceRun;
  }

  lemma NoneIs(s: string, base: nat, end: nat)
    requires end <= |s|
    requires forall j :: 0 <= j <= |s| - SpaceRun(s) ==> !IsSubject(s[SpaceRun(s)..], j, base)
    ensures IsoEnd(s, base, end) <==> end == 0
  {
    hide IsSubject, SpaceRun;
  }

  /** Where ISO C stops, in terms of what the readers skip and what follows. */
  lemma IsoEndIs(s: string, base: nat, end: nat)
    requires ValidBase(base) && end <= |s|
    ensures var o, u := Open(s, base, true), SignEnd(s);
            var n := IsoRun(s[o.start..], o.base);
            && u <= o.start <= u + 2
            && (IsoEnd(s, base, end) <==>
                end == if n > 0 then o.start + n else if o.start > u then u + 1 else 0)
  {
    hide IsSubject, IsoEnd, SpaceRun, IsoRun, Open, SignEnd, RadixPrefix;
    OpenIs(s, base);
    var o, sp, u := Open(s, base, true), SpaceRun(s), SignEnd(s);
    var n, r := IsoRun(s[o.start..], o.base), o.start - u;
    forall k | 0 <= k <= |s| - sp
      ensures IsSubject(s[sp..], k, base) <==> InShape(k + sp - u, r, n)
    {
      SubjectsAre(s, base, k + sp);
    }
    if n > 0 {
      LongestIs(s, base, o.start + n - sp, end);
    } else if r == 0 {
      NoneIs(s, base, end);
    } else {
      LongestIs(s, base, u + 1 - sp, end);
    }
  }

  /** The digits are followed by a letter that only ISO C takes for a digit: one
      whose value lies in 16..base-1. */
  predicate LetterBehind(s: string, base: nat) {
    var n := DigitRun(s, base);
    n < |s| && IsoVal(s[n]) < base
  }

  lemma IsoTakesMore(c: char, base: nat)
    ensures IsDigitOf(c, base) ==> IsoVal(c) < base
    ensures IsoVal(c) < base && !IsDigitOf(c, base) ==> IsoVal(c) >= 16
  {
  }

  lemma {:induction false} RunsAgreeUnless(s: string, base: nat)
    ensures DigitRun(s, base) <= IsoRun(s, base)
    ensures DigitRun(s, base) < IsoRun(s, base) <==> LetterBehind(s, base)
    ensures LetterBehind(s, base) ==> !IsDigitOf(s[DigitRun(s, base)], base)
  {
    hide IsoVal, IsDigitOf;
    if s != "" {
      IsoTakesMore(s[0], base);
      if IsDigitOf(s[0], base) { RunsAgreeUnless(s[1..], base); }
    }
  }

  /** The code stops where ISO C does: no letter g..z that is a digit of the base
      follows the digits, and there were digits, or the prefix was an octal zero,
      or there was nothing to skip. */
  predicate StopsLikeIso(s: string, base: nat) {
    var o := Open(s, base, true);
    && !LetterBehind(s[o.start..], o.base)
    && (DigitsIn(s, o) != "" || o.start == SignEnd(s) + 1 || o.start == 0)
  }

  /** The signed reader's end pointer against ISO C's, for every base. */
  lemma EndMeetsIsoExactlyWhen(s: string, base: nat)
    requires ValidBase(base)
    ensures IsoEnd(s, base, ParseSigned(s, base).end) <==> StopsLikeIso(s, base)
  {
    hide IsoEnd, Value, DigitRun, IsoRun, Open, SignEnd, LetterBehind;
    var o := Open(s, base, true);
    IsoEndIs(s, base, ParseSigned(s, base).end);
    RunsAgreeUnless(s[o.start..], o.base);
  }

  // The unsigned reader, which takes no minus sign

  predicate HasMinus(s: string) { StartsWith(s[SpaceRun(s)..], '-') }

  /** A digit of the base follows the sign. */
  predicate DigitFollows(s: string, base: nat) {
    var w := s[SignEnd(s)..];
    w != "" && IsoVal(w[0]) < if base == 0 then 10 else base
  }

  lemma NumberStartsWithDigit(s: string, base: nat)
    requires ValidBase(base)
    ensures var o := Open(s, base, true);
            DigitFollows(s, base) <==> o.start > SignEnd(s) || IsoRun(s[o.start..], o.base) > 0
  {
    hide SpaceRun, Open, SignEnd, IsoVal;
    OpenIs(s, base);
    ZeroIsDigit();
    var w := s[SignEnd(s)..];
    var r := RadixPrefix(w, base).0;
    DropDrop(s, SignEnd(s), r);
  }

  lemma WithoutMinus(s: string, base: nat)
    requires !HasMinus(s)
    ensures Open(s, base, false) == Open(s, base, true)
  {
    hide SpaceRun, RadixPrefix;
  }

  /** Behind blanks the minus sign is neither a sign nor a digit. */
  lemma MinusStops(s: string, base: nat)
    requires ValidBase(base) && HasMinus(s)
    ensures ParseUnsigned(s, base).end == SpaceRun(s) < SignEnd(s)
  {
    hide SpaceRun;
    var t := s[SpaceRun(s)..];
    assert !HasHexPrefix(t) && !StartsWith(t, '0') && !IsDigitOf(t[0], base) && !IsDigitOf(t[0], 10);
    assert DigitRun(t, base) == 0 && DigitRun(t, 10) == 0;
  }

  /** The unsigned reader's end pointer against ISO C's, which takes a minus sign
      there too: with one they agree only where ISO C finds no number either. */
  lemma UnsignedEndMeetsIsoExactlyWhen(s: string, base: nat)
    requires ValidBase(base)
    ensures IsoEnd(s, base, ParseUnsigned(s, base).end) <==>
            if HasMinus(s) then SpaceRun(s) == 0 && !DigitFollows(s, base) else StopsLikeIso(s, base)
  {
    hide IsoEnd, Value, DigitRun, IsoRun, Open, SignEnd, StopsLikeIso, HasMinus, SpaceRun, DigitFollows;
    if HasMinus(s) {
      MinusStops(s, base);
      IsoEndIs(s, base, SpaceRun(s));
      NumberStartsWithDigit(s, base);
    } else {
      WithoutMinus(s, base);
      EndMeetsIsoExactlyWhen(s, base);
    }
  }

  // Inputs on which they part

  /** A letter beyond f is no digit, whatever the base. */
  lemma LetterEndsDiffer()
    ensures ParseSigned("z", 36) == Parsed(0, 0) && IsoEnd("z", 36, 1)
  {
    hide IsoEnd;
    var s := "z";
    assert SpaceRun(s) == 0 && s[0..] == s && SignEnd(s) == 0;
    assert Open(s, 36, true) == Opening(false, 0, 36) && DigitRun(s, 36) == 0;
    assert IsoVal('z') == 35 && IsoRun(s[1..], 36) == 0 && IsoRun(s, 36) == 1;
    NoValue(36);
    IsoEndIs(s, 36, 1);
  }

  /** A bare radix prefix is skipped whole. */
  lemma PrefixEndsDiffer()
    ensures ParseSigned("0x", 16) == Parsed(0, 2) && IsoEnd("0x", 16, 1)
  {
    hide IsoEnd;
    var s := "0x";
    assert SpaceRun(s) == 0 && s[0..] == s && SignEnd(s) == 0;
    assert Open(s, 16, true) == Opening(false, 2, 16) && s[2..] == "";
    NoValue(16);
    IsoEndIs(s, 16, 1);
  }

  /** The unsigned reader takes no minus sign. */
  lemma MinusEndsDiffer()
    ensures ParseUnsigned("-5", 10) == Parsed(0, 0) && IsoEnd("-5", 10, 2)
  {
    hide IsoEnd;
    var s := "-5";
    assert SpaceRun(s) == 0 && s[0..] == s && SignEnd(s) == 1;
    assert Open(s, 10, true) == Opening(true, 1, 10) && Open(s, 10, false) == Opening(false, 0, 10);
    assert s[1..][0] == '5' && s[1..][1..] == "" && IsoVal('5') == 5;
    assert IsoRun(s[1..], 10) == 1 && DigitRun(s, 10) == 0;
    NoValue(10);
    IsoEndIs(s, 10, 2);
  }
}
