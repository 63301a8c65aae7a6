/** The formatter of `port_string.c` on values: what a format and its arguments
    print when the buffer is large enough. */
module PortFormat {
  import opened Chars
  import opened PortNumber

  /** One variadic argument.  Passing one of the wrong type is undefined in C. */
  datatype Arg = TextArg(text: string) | NullArg | IntArg(i: int) | WordArg(w: nat) | CharArg(c: char)

  predicate Accepts(conv: char, a: Arg) {
    if conv == 's' then a.TextArg? || a.NullArg?
    else if conv == 'd' || conv == 'i' then a.IntArg? && -0x8000_0000_0000_0000 <= a.i < 0x8000_0000_0000_0000
    else if conv == 'u' || conv == 'x' || conv == 'X' then a.WordArg? && a.w < 0x1_0000_0000_0000_0000
    else conv == 'c' && a.CharArg?
  }

  predicate Consumes(conv: char) {
    conv == 's' || conv == 'd' || conv == 'i' || conv == 'u' || conv == 'x' || conv == 'X' || conv == 'c'
  }

  /** What follows a percent sign, up to the conversion character. */
  datatype Directive = Directive(zero: bool, width: nat, rest: string)

  function SkipIf(f: string, c: char): (g: string)
    ensures |g| <= |f|
  {
    if StartsWith(f, c) then f[1..] else f
  }

  function ReadDirective(f: string): (d: Directive)
    ensures |d.rest| <= |f|
  {
    var g := SkipIf(f, '0');
    var n := DigitRun(g, 10);
    Directive(StartsWith(f, '0'), Value(g[..n], 10), SkipIf(g[n..], 'l'))
  }

  /** An unknown conversion is printed with its percent sign. */
  function Convert(conv: char, d: Directive, args: seq<Arg>): string
    requires Consumes(conv) ==> args != [] && Accepts(conv, args[0])
  {
    if conv == 's' then (if args[0].NullArg? then "(null)" else args[0].text)
    else if conv == 'd' || conv == 'i' then FormatSigned(args[0].i, d.width, d.zero)
    else if conv == 'u' then FormatUnsigned(args[0].w, 10, false, d.width, d.zero)
    else if conv == 'x' then FormatUnsigned(args[0].w, 16, false, d.width, d.zero)
    else if conv == 'X' then FormatUnsigned(args[0].w, 16, true, d.width, d.zero)
    else if conv == 'c' then [args[0].c]
    else if conv == '%' then "%"
    else ['%', conv]
  }

  function Remaining(conv: char, args: seq<Arg>): seq<Arg>
    requires Consumes(conv) ==> args != []
  {
    if Consumes(conv) then args[1..] else args
  }

  /** Every conversion finds an argument of its type. */
  predicate Matches(f: string, args: seq<Arg>)
    decreases |f|
  {
    if f == "" then true
    else if f[0] != '%' then Matches(f[1..], args)
    else
      var d := ReadDirective(f[1..]);
      d.rest == ""
      || ((Consumes(d.rest[0]) ==> args != [] && Accepts(d.rest[0], args[0]))
          && Matches(d.rest[1..], Remaining(d.rest[0], args)))
  }

  /** The untruncated text. */
  function Format(f: string, args: seq<Arg>): string
    requires Matches(f, args)
    decreases |f|
  {
    if f == "" then ""
    else if f[0] != '%' then [f[0]] + Format(f[1..], args)
    else
      var d := ReadDirective(f[1..]);
      if d.rest == "" then "%"
      else Convert(d.rest[0], d, args) + Format(d.rest[1..], Remaining(d.rest[0], args))
  }

  /** As much of `t` as fits. */
  function Take(t: string, limit: nat): (u: string)
    ensures |u| <= limit
  {
    if |t| <= limit then t else t[..limit]
  }

  // The header documents `-`; the formatter does not know it

  /** `%-` prints as it stands, and the rest of the directive with it. */
  lemma MinusIsVerbatim(f: string, args: seq<Arg>)
    requires Matches(f, args)
    ensures Matches("%-" + f, args) && Format("%-" + f, args) == "%-" + Format(f, args)
  {
    var g := "%-" + f;
    assert g[1..] == "-" + f && !IsDigitOf('-', 10);
    assert ("-" + f)[..0] == "" && ("-" + f)[0..] == "-" + f && ("-" + f)[1..] == f;
    assert Value("", 10) == 0;
    assert ReadDirective(g[1..]) == Directive(false, 0, "-" + f);
  }

  // From the format string to the number and back

  /** `%0<width>` or `%<width>`, then the conversion. */
  function NumberFormat(zero: bool, width: nat, conv: char): string {
    "%" + (if zero then "0" else "") + WidthText(width) + [conv]
  }

  function WidthText(width: nat): string { if width > 0 then Digits(width, 10, false) else "" }

  lemma {:induction false} DigitsLead(v: nat, base: nat, upper: bool)
    requires 2 <= base <= 16 && v > 0
    ensures Digits(v, base, upper)[0] != '0'
    decreases v
  {
    hide DigitChar;
    QuotientAndRest(v, base);
    if v >= base {
      OneOrMore(v, base);
      DigitsLead(v / base, base, upper);
    } else {
      NonzeroDigit(v, upper);
    }
  }

  lemma OneOrMore(v: nat, base: nat)
    requires 2 <= base <= v
    ensures v / base > 0
  {
  }

  lemma NonzeroDigit(d: nat, upper: bool)
    requires 0 < d < 16
    ensures DigitChar(d, upper) != '0'
  {
  }

  lemma {:induction false} RunThenStop(s: string, rest: string, base: nat)
    requires AllDigits(s, base) && (rest == "" || !IsDigitOf(rest[0], base))
    ensures DigitRun(s + rest, base) == |s|
  {
    if s == "" {
      assert s + rest == rest;
    } else {
      assert (s + rest)[1..] == s[1..] + rest;
      RunThenStop(s[1..], rest, base);
    }
  }

  lemma ConversionIsNoDigit(conv: char)
    requires Consumes(conv)
    ensures !IsDigitOf(conv, 10) && conv != '0' && conv != 'l'
  {
  }

  /** The width is read where it ends, and is not taken for the zero flag. */
  lemma WidthReads(width: nat, rest: string)
    requires rest != "" && !IsDigitOf(rest[0], 10) && rest[0] != '0'
    ensures var w := WidthText(width);
            && DigitRun(w + rest, 10) == |w| && Value(w, 10) == width && !StartsWith(w + rest, '0')
  {
    hide Value, Digits, DigitRun, IsDigitOf;
    DigitsRead(width, 10, false);
    NoValue(10);
    if width > 0 { DigitsLead(width, 10, false); }
    RunThenStop(WidthText(width), rest, 10);
  }

  lemma DirectiveReads(zero: bool, width: nat, conv: char, rest: string)
    requires Consumes(conv)
    ensures NumberFormat(zero, width, conv) != "" && NumberFormat(zero, width, conv)[0] == '%'
    ensures ReadDirective((NumberFormat(zero, width, conv) + rest)[1..]) == Directive(zero, width, [conv] + rest)
  {
    hide Value, WidthText, DigitRun, IsDigitOf, Consumes;
    ConversionIsNoDigit(conv);
    var w, tail := WidthText(width), [conv] + rest;
    WidthReads(width, tail);
    var g := w + tail;
    var f := (NumberFormat(zero, width, conv) + rest)[1..];
    assert f == (if zero then "0" else "") + g;
    assert SkipIf(f, '0') == g && StartsWith(f, '0') == zero;
    assert g[..|w|] == w && g[|w|..] == tail;
  }

  /** A number printed by `%u`, `%x` or `%X`, with any width and padding, comes
      back through `port_strtoul`, or saturates. */
  lemma PrintfThenStrtoul(v: nat, zero: bool, width: nat, conv: char)
    requires conv == 'u' || conv == 'x' || conv == 'X'
    requires Accepts(conv, WordArg(v))
    ensures var f, args, base := NumberFormat(zero, width, conv), [WordArg(v)], if conv == 'u' then 10 else 16;
            && Matches(f, args)
            && ParseUnsigned(Format(f, args), base) == Parsed(Min(v, ULONG_MAX), |Format(f, args)|)
  {
    hide NumberFormat, FormatUnsigned, ReadDirective, ParseUnsigned;
    var f, args, base := NumberFormat(zero, width, conv), [WordArg(v)], if conv == 'u' then 10 else 16;
    DirectiveReads(zero, width, conv, "");
    assert f + "" == f && [conv] + "" == [conv];
    var d := ReadDirective(f[1..]);
    assert d.rest[1..] == "";
    var t := FormatUnsigned(v, base, conv == 'X', width, zero);
    assert Format(f, args) == t + "" == t;
    PrintedNumberReadsBack(v, base, conv == 'X', width, zero);
  }
}
