/** The number readers and the formatter of `port_string.c` as they run: over
    NUL-terminated arrays, with loops, proved against `PortNumber` and `PortFormat`. */
module PortString {
  import opened Bytes
  import opened Chars
  import opened PortNumber
  import opened PortFormat

  /** `s` holds `n` characters and then a NUL. */
  predicate IsCString(s: array<char>, n: nat)
    reads s
  {
    n < s.Length && s[n] == '\0' && forall i :: 0 <= i < n ==> s[i] != '\0'
  }

  // Reading numbers

  method SkipBlanks(s: array<char>, ghost n: nat) returns (i: nat)
    requires IsCString(s, n)
    ensures i == SpaceRun(s[..n])
  {
    i := 0;
    assert s[0..n] == s[..n];
    while IsSpace(s[i])
      invariant 0 <= i <= n
      invariant SpaceRun(s[..n]) == i + SpaceRun(s[i..n])
      decreases n - i
    {
      assert s[i..n][1..] == s[i + 1..n];
      i := i + 1;
    }
  }

  /** The radix prefix at `i`: `port_strtoul` and `port_strtol` share its rules. */
  method SkipRadix(s: array<char>, ghost n: nat, i: nat, base: nat) returns (j: nat, b: nat)
    requires IsCString(s, n) && i <= n && ValidBase(base)
    ensures i <= j <= n
    ensures (j - i, b) == RadixPrefix(s[i..n], base) && 2 <= b <= 36
  {
    ghost var t := s[i..n];
    assert i < n ==> t[0] == s[i];
    assert i + 1 < n ==> t[1] == s[i + 1];
    j, b := i, base;
    if base == 0 {
      if s[i] == '0' {
        j := j + 1;
        if s[j] == 'x' || s[j] == 'X' {
          b := 16;
          j := j + 1;
        } else {
          b := 8;
        }
      } else {
        b := 10;
      }
    } else if base == 16 {
      if s[i] == '0' && (s[i + 1] == 'x' || s[i + 1] == 'X') { j := j + 2; }
    }
  }

  lemma RunSteps(s: string, base: nat)
    ensures s != "" && IsDigitOf(s[0], base) ==> DigitRun(s, base) == 1 + DigitRun(s[1..], base)
    ensures s == "" || !IsDigitOf(s[0], base) ==> DigitRun(s, base) == 0
  {
  }

  method SkipDigits(s: array<char>, ghost n: nat, from: nat, base: nat) returns (i: nat)
    requires IsCString(s, n) && from <= n
    ensures from <= i <= n && i == from + DigitRun(s[from..n], base)
  {
    hide DigitRun, IsDigitOf;
    i := from;
    while s[i] != '\0' && IsDigitOf(s[i], base)
      invariant from <= i <= n
      invariant from + DigitRun(s[from..n], base) == i + DigitRun(s[i..n], base)
      decreases n - i
    {
      assert s[i..n][0] == s[i] && s[i..n][1..] == s[i + 1..n];
      RunSteps(s[i..n], base);
      i := i + 1;
    }
    assert i < n ==> s[i..n][0] == s[i];
    RunSteps(s[i..n], base);
  }

  /** The conversion loop: it stops multiplying at the first overflow of `limit`
      but goes on consuming digits. */
  method ReadDigits(s: array<char>, ghost n: nat, from: nat, base: nat, limit: nat) returns (result: nat, i: nat)
    requires IsCString(s, n) && from <= n && 2 <= base <= 36 && limit > 36
    ensures from <= i <= n && i == from + DigitRun(s[from..n], base)
    ensures result == Min(Value(s[from..i], base), limit)
  {
    hide DigitRun, Value, IsDigitOf;
    result, i := 0, from;
    NoValue(base);
    assert s[from..from] == "";
    while s[i] != '\0' && IsDigitOf(s[i], base)
      invariant from <= i <= n
      invariant from + DigitRun(s[from..n], base) == i + DigitRun(s[i..n], base)
      invariant result == Value(s[from..i], base) <= limit
      decreases n - i
    {
      assert s[i..n][0] == s[i] && s[i..n][1..] == s[i + 1..n];
      RunSteps(s[i..n], base);
      var digit := HexVal(s[i]);
      DigitIsSmall(s[i], base);
      assert s[from..i + 1] == s[from..i] + [s[i]];
      ValueGrows(s[from..i], s[i], base);
      OverflowTestIsExact(result, digit, limit, base);
      if result > (limit - digit) / base {
        ghost var upTo := i + 1;
        i := SkipDigits(s, n, i + 1, base);
        PrefixIsSmaller(s[from..i], upTo - from, base);
        assert s[from..i][..upTo - from] == s[from..upTo];
        return limit, i;
      }
      result := result * base + digit;
      i := i + 1;
    }
    assert i < n ==> s[i..n][0] == s[i];
    RunSteps(s[i..n], base);
  }

  lemma DigitIsSmall(c: char, base: nat)
    requires IsDigitOf(c, base)
    ensures HexVal(c) < base && HexVal(c) < 16
  {
  }

  /** What both readers skip first; a minus sign only if `signed`. */
  method OpenNumber(s: array<char>, ghost n: nat, base: nat, signed: bool) returns (negative: bool, start: nat, b: nat)
    requires IsCString(s, n) && ValidBase(base)
    ensures Open(s[..n], base, signed) == Opening(negative, start, b)
    ensures start <= n && 2 <= b <= 36
  {
    hide SpaceRun, RadixPrefix;
    ghost var t := s[..n];
    var i := SkipBlanks(s, n);
    assert t[i..] == s[i..n];
    assert i < n ==> t[i..][0] == s[i];
    negative := false;
    if signed && s[i] == '-' {
      negative := true;
      i := i + 1;
    } else if s[i] == '+' {
      i := i + 1;
    }
    assert t[i..] == s[i..n];
    start, b := SkipRadix(s, n, i, base);
  }

  /** `port_strtoul`. */
  method StrToUL(s: array<char>, ghost n: nat, base: int) returns (value: nat, end: nat)
    requires IsCString(s, n)
    ensures Parsed(value, end) == ParseUnsigned(s[..n], base)
  {
    hide Open, DigitRun, Value;
    if base != 0 && (base < 2 || base > 36) { return 0, 0; }
    var _, start, b := OpenNumber(s, n, base, false);
    value, end := ReadDigits(s, n, start, b, ULONG_MAX);
    ghost var t := s[..n];
    assert t[start..] == s[start..n] && t[start..end] == s[start..end];
  }

  /** `port_strtol`. */
  method StrToL(s: array<char>, ghost n: nat, base: int) returns (value: int, end: nat)
    requires IsCString(s, n)
    ensures Parsed(value, end) == ParseSigned(s[..n], base)
  {
    hide Open, DigitRun, Value;
    if base != 0 && (base < 2 || base > 36) { return 0, 0; }
    var negative, start, b := OpenNumber(s, n, base, true);
    var limit := if negative then LONG_MAX + 1 else LONG_MAX;
    var result;
    result, end := ReadDigits(s, n, start, b, limit);
    ghost var t := s[..n];
    assert t[start..] == s[start..n] && t[start..end] == s[start..end];
    if !negative {
      value := if result >= LONG_MAX then LONG_MAX else result;
    } else {
      value := if result >= LONG_MAX + 1 then LONG_MIN else -result;
    }
  }

  // Printing

  /** `if (written < limit) buf[written++] = c`; `out` is what a larger buffer would hold. */
  method Put(buf: array<char>, written: nat, limit: nat, c: char, ghost out: string) returns (written': nat)
    requires written <= limit <= buf.Length && buf[..written] == Take(out, limit)
    modifies buf
    ensures written <= written' <= limit && buf[..written'] == Take(out + [c], limit)
    ensures buf[limit..] == old(buf[limit..])
  {
    written' := written;
    if written < limit {
      buf[written] := c;
      written' := written + 1;
    }
  }

  lemma TwentyDigitsSuffice()
    ensures 0x1_0000_0000_0000_0000 <= Power(10, 20)
  {
    assert Power(10, 5) == 100000;
    assert Power(10, 10) == 100000 * Power(10, 5);
    assert Power(10, 15) == 100000 * Power(10, 10);
    assert Power(10, 20) == 100000 * Power(10, 15);
  }

  lemma QuotientShrinks(v: nat, base: nat, bound: nat)
    requires base >= 10 && v < 10 * bound
    ensures v / base < bound
  {
    QuotientAndRest(v, base);
    if v / base >= bound {
      Monotone(bound, v / base, 10);
      Monotone(10, base, v / base);
    }
  }

  function Reversed(s: string): string { if s == "" then "" else Reversed(s[1..]) + [s[0]] }

  lemma {:induction false} ReversedGrows(s: string, c: char)
    ensures Reversed(s + [c]) == [c] + Reversed(s)
  {
    if s == "" {
      assert s + [c] == [c];
    } else {
      assert (s + [c])[1..] == s[1..] + [c];
      ReversedGrows(s[1..], c);
    }
  }

  /** A digit put behind `before` is read in front of it. */
  lemma DigitInFront(high: string, before: string, c: char)
    ensures Reversed(before + [c]) == [c] + Reversed(before)
    ensures (high + [c]) + Reversed(before) == high + ([c] + Reversed(before))
  {
    ReversedGrows(before, c);
  }

  /** One digit off the end of `v`. */
  method SplitDigit(v: nat, base: nat, upper: bool, ghost bound: nat) returns (q: nat, rem: nat)
    requires 10 <= base <= 16 && v < 10 * bound
    ensures rem < 16 && q < bound && (q == 0 <==> v < base) && (v > 0 ==> q < v)
    ensures Digits(v, base, upper) == (if q == 0 then "" else Digits(q, base, upper)) + [DigitChar(rem, upper)]
  {
    rem := v % base;
    q := v / base;
    QuotientAndRest(v, base);
    QuotientShrinks(v, base, bound);
    SmallQuotient(v, base);
    DigitsStep(v, base, upper);
  }

  /** The digits, least significant first. */
  method Digitize(val: nat, base: nat, upper: bool) returns (temp: array<char>, digits: nat)
    requires 10 <= base <= 16 && val < 0x1_0000_0000_0000_0000
    ensures fresh(temp) && 0 < digits <= temp.Length
    ensures Reversed(temp[..digits]) == Digits(val, base, upper)
  {
    hide Digits, DigitChar, Reversed, Power;
    temp := new char[32](_ => '\0');
    var i := 0;
    if val == 0 {
      temp[0] := '0';
      i := 1;
      assert temp[..1] == ['0'];
      SingleDigit(base, upper);
    } else {
      var v: nat := val;
      ghost var done := "";
      TwentyDigitsSuffice();
      ReversedNothing();
      assert temp[..0] == "" && Digits(val, base, upper) + "" == Digits(val, base, upper);
      while v > 0
        invariant 0 <= i <= 20 && v < Power(10, 20 - i)
        invariant done == Reversed(temp[..i])
        invariant Digits(val, base, upper) == (if v == 0 then "" else Digits(v, base, upper)) + done
        invariant v == 0 ==> i > 0
        decreases v
      {
        TenFold(i, v);
        var q, rem := SplitDigit(v, base, upper, Power(10, 19 - i));
        ghost var before := temp[..i];
        temp[i] := DigitChar(rem, upper);
        assert temp[..i + 1] == before + [temp[i]];
        DigitInFront(if q == 0 then "" else Digits(q, base, upper), before, temp[i]);
        done := [temp[i]] + done;
        v := q;
        i := i + 1;
      }
      assert "" + done == done;
    }
    digits := i;
  }

  lemma TenFold(i: nat, v: nat)
    requires i <= 20 && 0 < v < Power(10, 20 - i)
    ensures i < 20 && Power(10, 20 - i) == 10 * Power(10, 19 - i)
  {
  }

  lemma SmallQuotient(v: nat, base: nat)
    requires base >= 2
    ensures v / base == 0 <==> v < base
  {
    QuotientAndRest(v, base);
  }

  lemma SingleDigit(base: nat, upper: bool)
    requires 10 <= base <= 16
    ensures Reversed(['0']) == Digits(0, base, upper)
  {
  }

  lemma ReversedNothing()
    ensures Reversed("") == ""
  {
  }

  /** The padding loops: blanks or zeros. */
  method PutPadding(buf: array<char>, written: nat, limit: nat, pad: int, zeroPad: bool, ghost out: string)
      returns (written': nat)
    requires written <= limit <= buf.Length && buf[..written] == Take(out, limit)
    modifies buf
    ensures written <= written' <= limit && buf[..written'] == Take(out + Padding(pad, zeroPad), limit)
    ensures buf[limit..] == old(buf[limit..])
  {
    hide Take;
    written' := written;
    var left := pad;
    assert out + Padding(0, zeroPad) == out;
    while left > 0
      invariant written <= written' <= limit && (left >= 0 || left == pad)
      invariant buf[..written'] == Take(out + Padding(if pad > 0 then pad - left else 0, zeroPad), limit)
      invariant buf[limit..] == old(buf[limit..])
    {
      var c := if zeroPad then '0' else ' ';
      written' := Put(buf, written', limit, c, out + Padding(pad - left, zeroPad));
      assert out + Padding(pad - left + 1, zeroPad) == out + Padding(pad - left, zeroPad) + [c];
      left := left - 1;
    }
  }

  /** The last loop: the stored digits, most significant first. */
  method PutDigits(buf: array<char>, written: nat, limit: nat, temp: array<char>, digits: nat, ghost out: string)
      returns (written': nat)
    requires written <= limit <= buf.Length && buf[..written] == Take(out, limit)
    requires digits <= temp.Length && temp != buf
    modifies buf
    ensures written <= written' <= limit
    ensures buf[..written'] == Take(out + Reversed(temp[..digits]), limit)
    ensures buf[limit..] == old(buf[limit..])
  {
    hide Take, Reversed;
    written' := written;
    var d := digits;
    ghost var text, all := out, out + Reversed(temp[..digits]);
    while d > 0
      invariant 0 <= d <= digits && written <= written' <= limit
      invariant text + Reversed(temp[..d]) == all
      invariant buf[..written'] == Take(text, limit)
      invariant buf[limit..] == old(buf[limit..])
    {
      d := d - 1;
      assert temp[..d + 1] == temp[..d] + [temp[d]];
      ReversedGrows(temp[..d], temp[d]);
      assert text + ([temp[d]] + Reversed(temp[..d])) == (text + [temp[d]]) + Reversed(temp[..d]);
      written' := Put(buf, written', limit, temp[d], text);
      text := text + [temp[d]];
    }
    ReversedNothing();
    assert temp[..0] == "" && text + "" == text;
  }

  lemma {:induction false} ReversedLength(s: string)
    ensures |Reversed(s)| == |s|
  {
    if s != "" { ReversedLength(s[1..]); }
  }

  /** `format_unsigned`: `out` is what has been printed so far. */
  method FormatNumber(buf: array<char>, written: nat, limit: nat, val: nat, base: nat, upper: bool,
                      minWidth: nat, zeroPad: bool, ghost out: string) returns (written': nat)
    requires written <= limit <= buf.Length && buf[..written] == Take(out, limit)
    requires 10 <= base <= 16 && val < 0x1_0000_0000_0000_0000
    modifies buf
    ensures written <= written' <= limit
    ensures buf[..written'] == Take(out + FormatUnsigned(val, base, upper, minWidth, zeroPad), limit)
    ensures buf[limit..] == old(buf[limit..])
  {
    hide Take, Digits, Reversed, Padding;
    var temp, digits := Digitize(val, base, upper);
    ReversedLength(temp[..digits]);
    ghost var padding := Padding(minWidth - digits, zeroPad);
    written' := PutPadding(buf, written, limit, minWidth - digits, zeroPad, out);
    written' := PutDigits(buf, written', limit, temp, digits, out + padding);
    assert (out + padding) + Digits(val, base, upper) == out + (padding + Digits(val, base, upper));
  }

  // The formatter

  /** `va_list`: the arguments and how many have been taken. */
  class ArgList {
    const args: seq<Arg>
    var taken: nat

    constructor (a: seq<Arg>)
      ensures args == a && taken == 0
    {
      args, taken := a, 0;
    }

    ghost function Rest(): seq<Arg>
      requires taken <= |args|
      reads this
    {
      args[taken..]
    }

    method Next() returns (a: Arg)
      requires taken < |args|
      modifies this
      ensures taken <= |args| && a == old(Rest())[0] && Rest() == old(Rest())[1..]
    {
      a := args[taken];
      taken := taken + 1;
    }
  }

  method PutText(buf: array<char>, written: nat, limit: nat, text: string, ghost out: string)
      returns (written': nat)
    requires written <= limit <= buf.Length && buf[..written] == Take(out, limit)
    modifies buf
    ensures written <= written' <= limit && buf[..written'] == Take(out + text, limit)
    ensures buf[limit..] == old(buf[limit..])
  {
    hide Take;
    written' := written;
    var i := 0;
    assert out + text[..0] == out;
    while i < |text|
      invariant 0 <= i <= |text| && written <= written' <= limit
      invariant buf[..written'] == Take(out + text[..i], limit)
      invariant buf[limit..] == old(buf[limit..])
    {
      written' := Put(buf, written', limit, text[i], out + text[..i]);
      assert out + text[..i + 1] == out + text[..i] + [text[i]];
      i := i + 1;
    }
    assert text[..i] == text;
  }

  /** The conversion switch. */
  method PutConversion(buf: array<char>, written: nat, limit: nat, conv: char, d: Directive, ap: ArgList,
                       ghost out: string) returns (written': nat)
    requires written <= limit <= buf.Length && buf[..written] == Take(out, limit)
    requires ap.taken <= |ap.args|
    requires Consumes(conv) ==> ap.Rest() != [] && Accepts(conv, ap.Rest()[0])
    modifies buf, ap
    ensures written <= written' <= limit && ap.taken <= |ap.args|
    ensures buf[..written'] == Take(out + Convert(conv, d, old(ap.Rest())), limit)
    ensures ap.Rest() == Remaining(conv, old(ap.Rest()))
    ensures buf[limit..] == old(buf[limit..])
  {
    hide Take, FormatUnsigned;
    if conv == 's' {
      var a := ap.Next();
      var str := if a.NullArg? then "(null)" else a.text;
      written' := PutText(buf, written, limit, str, out);
    } else if conv == 'd' || conv == 'i' {
      var a := ap.Next();
      written' := PutSigned(buf, written, limit, a.i, d.width, d.zero, out);
    } else if conv == 'u' {
      var a := ap.Next();
      written' := FormatNumber(buf, written, limit, a.w, 10, false, d.width, d.zero, out);
    } else if conv == 'x' || conv == 'X' {
      var a := ap.Next();
      written' := FormatNumber(buf, written, limit, a.w, 16, conv == 'X', d.width, d.zero, out);
    } else if conv == 'c' {
      var a := ap.Next();
      written' := Put(buf, written, limit, a.c, out);
    } else if conv == '%' {
      written' := Put(buf, written, limit, '%', out);
    } else {
      written' := Put(buf, written, limit, '%', out);
      written' := Put(buf, written', limit, conv, out + ['%']);
      assert out + ['%', conv] == out + ['%'] + [conv];
    }
  }

  method PutSigned(buf: array<char>, written: nat, limit: nat, val: int, width: nat, zero: bool, ghost out: string)
      returns (written': nat)
    requires written <= limit <= buf.Length && buf[..written] == Take(out, limit)
    requires -0x8000_0000_0000_0000 <= val < 0x8000_0000_0000_0000
    modifies buf
    ensures written <= written' <= limit && buf[..written'] == Take(out + FormatSigned(val, width, zero), limit)
    ensures buf[limit..] == old(buf[limit..])
  {
    hide Take, FormatUnsigned;
    if val < 0 {
      written' := Put(buf, written, limit, '-', out);
      written' := FormatNumber(buf, written', limit, -val, 10, false, width, zero, out + ['-']);
      assert out + ("-" + FormatUnsigned(-val, 10, false, width, zero)) ==
             out + ['-'] + FormatUnsigned(-val, 10, false, width, zero);
    } else {
      written' := FormatNumber(buf, written, limit, val, 10, false, width, zero, out);
    }
  }

  method TakeWidth(fmt: array<char>, ghost n: nat, from: nat) returns (j: nat, width: nat)
    requires IsCString(fmt, n) && from <= n
    ensures from <= j <= n && j == from + DigitRun(fmt[from..n], 10)
    ensures width == Value(fmt[from..j], 10)
  {
    hide DigitRun, Value, IsDigitOf, IsDigit;
    j, width := from, 0;
    NoValue(10);
    assert fmt[from..from] == "";
    while IsDigit(fmt[j])
      invariant from <= j <= n
      invariant from + DigitRun(fmt[from..n], 10) == j + DigitRun(fmt[j..n], 10)
      invariant width == Value(fmt[from..j], 10)
      decreases n - j
    {
      DecimalDigit(fmt[j]);
      assert fmt[j..n][0] == fmt[j] && fmt[j..n][1..] == fmt[j + 1..n];
      RunSteps(fmt[j..n], 10);
      assert fmt[from..j + 1] == fmt[from..j] + [fmt[j]];
      ValueGrows(fmt[from..j], fmt[j], 10);
      width := width * 10 + (fmt[j] as int - '0' as int);
      j := j + 1;
    }
    DecimalDigit(fmt[j]);
    assert j < n ==> fmt[j..n][0] == fmt[j];
    RunSteps(fmt[j..n], 10);
  }

  /** Reads flags, width and length modifier behind a percent sign at `i - 1`. */
  method TakeDirective(fmt: array<char>, ghost n: nat, i: nat) returns (j: nat, zero: bool, width: nat)
    requires IsCString(fmt, n) && i <= n
    ensures i <= j <= n
    ensures Directive(zero, width, fmt[j..n]) == ReadDirective(fmt[i..n])
  {
    hide DigitRun, Value, IsDigitOf, IsCString;
    TailStarts(fmt, n, i);
    ghost var f := fmt[i..n];
    var from := i;
    zero := false;
    if fmt[i] == '0' {
      zero := true;
      from := i + 1;
    }
    ghost var g := fmt[from..n];
    assert g == SkipIf(f, '0');
    j, width := TakeWidth(fmt, n, from);
    SliceOfSlice(fmt[..], from, j, n);
    assert g[..j - from] == fmt[from..j] && g[j - from..] == fmt[j..n];
    TailStarts(fmt, n, j);
    if fmt[j] == 'l' { j := j + 1; }
  }

  lemma SliceOfSlice(s: string, from: nat, j: nat, n: nat)
    requires from <= j <= n <= |s|
    ensures s[from..n][..j - from] == s[from..j] && s[from..n][j - from..] == s[j..n]
  {
  }

  lemma TailStarts(s: array<char>, n: nat, i: nat)
    requires IsCString(s, n) && i <= n
    ensures i < s.Length && n < s.Length
    ensures s[i] == '\0' <==> i == n
    ensures i < n ==> s[i..n][0] == s[i] && s[i..n][1..] == s[i + 1..n]
  {
  }

  lemma DecimalDigit(c: char)
    ensures IsDigit(c) <==> IsDigitOf(c, 10)
    ensures IsDigit(c) ==> c != '\0' && '0' <= c && HexVal(c) == c as int - '0' as int
  {
  }

  /** One percent sign, at `i`.  `more` is what it prints; `j` is where the
      format goes on. */
  method DoDirective(buf: array<char>, written: nat, limit: nat, fmt: array<char>, ghost m: nat, i: nat,
                     ap: ArgList, ghost out: string) returns (written': nat, j: nat, ghost more: string)
    requires written <= limit <= buf.Length && buf[..written] == Take(out, limit) && fmt != buf
    requires IsCString(fmt, m) && i < m && fmt[i] == '%'
    requires ap.taken <= |ap.args| && Matches(fmt[i..m], ap.Rest())
    modifies buf, ap
    ensures written' <= limit && ap.taken <= |ap.args| && i < j <= m
    ensures Matches(fmt[j..m], ap.Rest())
    ensures Format(fmt[i..m], old(ap.Rest())) == more + Format(fmt[j..m], ap.Rest())
    ensures buf[..written'] == Take(out + more, limit)
    ensures buf[limit..] == old(buf[limit..])
  {
    hide Take, Convert, ReadDirective, Consumes, Remaining, IsCString;
    TailStarts(fmt, m, i);
    var at, zero, width := TakeDirective(fmt, m, i + 1);
    TailStarts(fmt, m, at);
    ghost var d, rest := ReadDirective(fmt[i + 1..m]), ap.Rest();
    if fmt[at] == '\0' {
      written' := Put(buf, written, limit, '%', out);
      j, more := at, "%";
      assert fmt[j..m] == "" && "%" + "" == "%";
    } else {
      more := Convert(fmt[at], d, rest);
      ConvertIgnoresRest(fmt[at], d, Directive(zero, width, ""), rest);
      written' := PutConversion(buf, written, limit, fmt[at], Directive(zero, width, ""), ap, out);
      j := at + 1;
    }
  }

  /** `port_vsnprintf`: the longest prefix of the full text that leaves room for
      the NUL; nothing at all when the buffer is empty. */
  method VSnPrintf(buf: array<char>, n: nat, fmt: array<char>, ghost m: nat, ap: ArgList) returns (written: nat)
    requires n <= buf.Length && IsCString(fmt, m) && fmt != buf
    requires ap.taken <= |ap.args| && Matches(fmt[..m], ap.Rest())
    modifies buf, ap
    ensures n == 0 ==> written == 0
    ensures n > 0 ==> written < n && buf[written] == '\0'
    ensures n > 0 ==> buf[..written] == Take(Format(fmt[..m], old(ap.Rest())), n - 1)
    ensures buf[n..] == old(buf[n..])
  {
    hide Take, Format, Matches, IsCString;
    written := 0;
    var limit := if n > 0 then n - 1 else 0;
    var i := 0;
    TailStarts(fmt, m, i);
    ghost var out, full := "", Format(fmt[..m], ap.Rest());
    assert fmt[0..m] == fmt[..m] && "" + full == full;
    assert buf[..0] == Take("", limit) by { TakeNothing(limit); }
    while fmt[i] != '\0'
      invariant 0 <= i <= m < fmt.Length && (fmt[i] == '\0' <==> i == m)
      invariant written <= limit && ap.taken <= |ap.args|
      invariant IsCString(fmt, m) && Matches(fmt[i..m], ap.Rest())
      invariant out + Format(fmt[i..m], ap.Rest()) == full
      invariant buf[..written] == Take(out, limit)
      invariant buf[limit..] == old(buf[limit..])
      decreases m - i
    {
      ghost var more;
      TailStarts(fmt, m, i);
      if fmt[i] == '%' {
        written, i, more := DoDirective(buf, written, limit, fmt, m, i, ap, out);
      } else {
        PlainCharacter(fmt[i..m], ap.Rest());
        written := Put(buf, written, limit, fmt[i], out);
        more := [fmt[i]];
        i := i + 1;
      }
      ghost var rest := Format(fmt[i..m], ap.Rest());
      assert out + (more + rest) == (out + more) + rest;
      out := out + more;
      TailStarts(fmt, m, i);
    }
    NothingLeft(ap.Rest());
    assert fmt[i..m] == "" && out + "" == out;
    if n > 0 { buf[written] := '\0'; }
  }

  lemma PlainCharacter(f: string, args: seq<Arg>)
    requires f != "" && f[0] != '%' && Matches(f, args)
    ensures Matches(f[1..], args) && Format(f, args) == [f[0]] + Format(f[1..], args)
  {
  }

  lemma NothingLeft(args: seq<Arg>)
    ensures Matches("", args) && Format("", args) == ""
  {
  }

  lemma ConvertIgnoresRest(conv: char, d: Directive, e: Directive, args: seq<Arg>)
    requires Consumes(conv) ==> args != [] && Accepts(conv, args[0])
    requires d.zero == e.zero && d.width == e.width
    ensures Convert(conv, d, args) == Convert(conv, e, args)
  {
  }

  lemma TakeNothing(limit: nat)
    ensures Take("", limit) == ""
  {
  }
}
