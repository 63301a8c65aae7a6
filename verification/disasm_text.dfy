/** The text `cpu_disassemble` prints: name, operand in hex, and the punctuation of
    the addressing mode, through the formatter. */
module DisasmText {
  import opened Bytes
  import opened BusModel
  import opened Chars
  import opened PortNumber
  import opened PortFormat
  import opened PortString
  import D = Disassembler
  import M = Mnemonics

  /** The name pool. */
  function Spelling(m: M.Mnemonic): (s: string)
    ensures 3 <= |s| <= 4
  {
    match m
    case BRK => "BRK" case ORA => "ORA" case JAM => "JAM" case SLO => "SLO"
    case NOP => "NOP" case ASL => "ASL" case PHP => "PHP" case ANC => "ANC"
    case BPL => "BPL" case CLC => "CLC" case JSR => "JSR" case AND => "AND"
    case RLA => "RLA" case BIT => "BIT" case ROL => "ROL" case PLP => "PLP"
    case BMI => "BMI" case SEC => "SEC" case RTI => "RTI" case EOR => "EOR"
    case SRE => "SRE" case LSR => "LSR" case PHA => "PHA" case ALR => "ALR"
    case JMP => "JMP" case BVC => "BVC" case CLI => "CLI" case RTS => "RTS"
    case ADC => "ADC" case RRA => "RRA" case ROR => "ROR" case PLA => "PLA"
    case ARR => "ARR" case BVS => "BVS" case SEI => "SEI" case SKB => "SKB"
    case STA => "STA" case SAX => "SAX" case STY => "STY" case STX => "STX"
    case DEY => "DEY" case TXA => "TXA" case XAA => "XAA" case BCC => "BCC"
    case AHX => "AHX" case TYA => "TYA" case TXS => "TXS" case TAS => "TAS"
    case SHY => "SHY" case SHX => "SHX" case LDY => "LDY" case LDA => "LDA"
    case LDX => "LDX" case LAX => "LAX" case TAY => "TAY" case TAX => "TAX"
    case BCS => "BCS" case CLV => "CLV" case TSX => "TSX" case LAS => "LAS"
    case CPY => "CPY" case CMP => "CMP" case DCP => "DCP" case DEC => "DEC"
    case INY => "INY" case DEX => "DEX" case SBX => "SBX" case BNE => "BNE"
    case CLD => "CLD" case CPX => "CPX" case SBC => "SBC" case ISB => "ISB"
    case INC => "INC" case INX => "INX" case USBC => "USBC" case BEQ => "BEQ"
    case SED => "SED"
  }

  /** What stands before the operand, its hex digits, and what stands behind. */
  datatype Layout = Layout(before: string, digits: nat, after: string)

  function LayoutOf(mode: D.AddrMode): (l: Layout)
    ensures |l.before| <= 3 && |l.after| <= 3 && (l.digits == 0 || l.digits == 2 || l.digits == 4)
  {
    match mode
    case IMP => Layout("", 0, "")
    case ACC => Layout(" A", 0, "")
    case IMM => Layout(" #$", 2, "")
    case ZP => Layout(" $", 2, "")
    case ZPX => Layout(" $", 2, ",X")
    case ZPY => Layout(" $", 2, ",Y")
    case ABS => Layout(" $", 4, "")
    case ABX => Layout(" $", 4, ",X")
    case ABY => Layout(" $", 4, ",Y")
    case IND => Layout(" ($", 4, ")")
    case IZX => Layout(" ($", 2, ",X)")
    case IZY => Layout(" ($", 2, "),Y")
    case REL => Layout(" $", 4, "")
  }

  /** The format string of each case. */
  function FormatOf(mode: D.AddrMode): string {
    match mode
    case IMP => "%s"
    case ACC => "%s A"
    case IMM => "%s #$%02X"
    case ZP => "%s $%02X"
    case ZPX => "%s $%02X,X"
    case ZPY => "%s $%02X,Y"
    case ABS => "%s $%04X"
    case ABX => "%s $%04X,X"
    case ABY => "%s $%04X,Y"
    case IND => "%s ($%04X)"
    case IZX => "%s ($%02X,X)"
    case IZY => "%s ($%02X),Y"
    case REL => "%s $%04X"
  }

  function Operand(line: D.Line): string {
    var l := LayoutOf(line.mode);
    if l.digits == 0 then "" else FormatUnsigned(line.operand, 16, true, l.digits, true)
  }

  /** The printed line. */
  function Text(name: string, line: D.Line): string {
    var l := LayoutOf(line.mode);
    name + l.before + Operand(line) + l.after
  }

  function Args(name: string, line: D.Line): seq<Arg> {
    [TextArg(name)] + if LayoutOf(line.mode).digits == 0 then [] else [WordArg(line.operand)]
  }

  // The formatter prints that text

  predicate Literal(t: string) { forall i :: 0 <= i < |t| ==> t[i] != '%' }

  lemma {:induction false} LiteralPrints(t: string, rest: string, args: seq<Arg>)
    requires Literal(t) && Matches(rest, args)
    ensures Matches(t + rest, args) && Format(t + rest, args) == t + Format(rest, args)
  {
    hide ReadDirective, Convert, Consumes, Remaining, Accepts;
    if t == "" {
      assert t + rest == rest;
    } else {
      assert (t + rest)[1..] == t[1..] + rest;
      LiteralPrints(t[1..], rest, args);
    }
  }

  lemma NamePrints(name: string, rest: string, args: seq<Arg>)
    requires Matches(rest, args)
    ensures Matches("%s" + rest, [TextArg(name)] + args)
    ensures Format("%s" + rest, [TextArg(name)] + args) == name + Format(rest, args)
  {
    var f, all := "%s" + rest, [TextArg(name)] + args;
    assert f[1..] == "s" + rest && ("s" + rest)[..0] == "" && ("s" + rest)[0..] == "s" + rest;
    assert ("s" + rest)[1..] == rest && all[1..] == args;
    assert !IsDigitOf('s', 10) && Value("", 10) == 0;
    assert ReadDirective(f[1..]) == Directive(false, 0, "s" + rest);
  }

  lemma NumberPrints(zero: bool, width: nat, v: nat, rest: string)
    requires Accepts('X', WordArg(v)) && Literal(rest)
    ensures var f := NumberFormat(zero, width, 'X') + rest;
            Matches(f, [WordArg(v)]) && Format(f, [WordArg(v)]) == FormatUnsigned(v, 16, true, width, zero) + rest
  {
    hide NumberFormat, FormatUnsigned, ReadDirective;
    var f, args := NumberFormat(zero, width, 'X') + rest, [WordArg(v)];
    DirectiveReads(zero, width, 'X', rest);
    var d := ReadDirective(f[1..]);
    assert f[0] == '%' && d.rest[1..] == rest && args[1..] == [];
    LiteralPrints(rest, "", []);
    assert rest + "" == rest;
  }

  lemma TwoOrFour()
    ensures NumberFormat(true, 2, 'X') == "%02X" && NumberFormat(true, 4, 'X') == "%04X"
  {
    DigitsStep(2, 10, false);
    DigitsStep(4, 10, false);
  }

  lemma LayoutIsLiteral(mode: D.AddrMode)
    ensures Literal(LayoutOf(mode).before) && Literal(LayoutOf(mode).after)
  {
  }

  function Field(digits: nat): string { if digits == 0 then "" else NumberFormat(true, digits, 'X') }

  lemma Fields()
    ensures Field(0) == "" && Field(2) == "%02X" && Field(4) == "%04X"
  {
    TwoOrFour();
  }

  lemma BareFormats(mode: D.AddrMode)
    requires mode.IMP? || mode.ACC?
    ensures var l := LayoutOf(mode); l.digits == 0 && FormatOf(mode) == "%s" + (l.before + ("" + l.after))
  {
  }

  lemma ByteFormats(mode: D.AddrMode)
    requires mode.IMM? || mode.ZP? || mode.ZPX?
    ensures var l := LayoutOf(mode); l.digits == 2 && FormatOf(mode) == "%s" + (l.before + ("%02X" + l.after))
  {
  }

  lemma MoreByteFormats(mode: D.AddrMode)
    requires mode.ZPY? || mode.IZX? || mode.IZY?
    ensures var l := LayoutOf(mode); l.digits == 2 && FormatOf(mode) == "%s" + (l.before + ("%02X" + l.after))
  {
  }

  lemma WordFormats(mode: D.AddrMode)
    requires mode.ABS? || mode.ABX?
    ensures var l := LayoutOf(mode); l.digits == 4 && FormatOf(mode) == "%s" + (l.before + ("%04X" + l.after))
  {
  }

  lemma MoreWordFormats(mode: D.AddrMode)
    requires mode.ABY? || mode.IND? || mode.REL?
    ensures var l := LayoutOf(mode); l.digits == 4 && FormatOf(mode) == "%s" + (l.before + ("%04X" + l.after))
  {
  }

  lemma FormatIsLayout(mode: D.AddrMode)
    ensures var l := LayoutOf(mode); FormatOf(mode) == "%s" + (l.before + (Field(l.digits) + l.after))
  {
    hide Field, LayoutOf, FormatOf;
    Fields();
    match mode
    case IMP | ACC => BareFormats(mode);
    case IMM | ZP | ZPX => ByteFormats(mode);
    case ZPY | IZX | IZY => MoreByteFormats(mode);
    case ABS | ABX => WordFormats(mode);
    case ABY | IND | REL => MoreWordFormats(mode);
  }

  lemma FormatPrintsText(name: string, line: D.Line)
    ensures Matches(FormatOf(line.mode), Args(name, line))
    ensures Format(FormatOf(line.mode), Args(name, line)) == Text(name, line)
  {
    hide FormatOf, LayoutOf, NumberFormat, Matches, Format, FormatUnsigned, Literal;
    var l := LayoutOf(line.mode);
    LayoutIsLiteral(line.mode);
    FormatIsLayout(line.mode);
    var tail := Field(l.digits) + l.after;
    var args := Args(name, line)[1..];
    assert Args(name, line) == [TextArg(name)] + args;
    if l.digits == 0 {
      NothingLeft([]);
      LiteralPrints(l.after, "", []);
      assert tail == l.after == l.after + "";
    } else {
      NumberPrints(true, l.digits, line.operand, l.after);
    }
    assert Format(tail, args) == Operand(line) + l.after;
    LiteralPrints(l.before, tail, args);
    NamePrints(name, l.before + tail, args);
    assert Text(name, line) == name + (l.before + (Operand(line) + l.after));
  }

  // Field widths

  /** The operand as its mode bounds it: a byte behind two digits. */
  predicate Fits(line: D.Line) { LayoutOf(line.mode).digits == 2 ==> line.operand < 256 }

  lemma HexLength(v: nat)
    ensures v < 16 ==> |Digits(v, 16, true)| == 1
    ensures v < 256 ==> |Digits(v, 16, true)| <= 2
    ensures v < 4096 ==> |Digits(v, 16, true)| <= 3
    ensures v < 65536 ==> |Digits(v, 16, true)| <= 4
  {
    DigitsStep(v, 16, true);
    if v >= 16 {
      DigitsStep(v / 16, 16, true);
      if v >= 256 {
        DigitsStep(v / 16 / 16, 16, true);
        if v >= 4096 { DigitsStep(v / 16 / 16 / 16, 16, true); }
      }
    }
  }

  lemma {:induction false} PaddingLength(n: int, zero: bool)
    ensures |Padding(n, zero)| == if n <= 0 then 0 else n
  {
    if n > 0 { PaddingLength(n - 1, zero); }
  }

  /** Two digits for a byte, four for an address, and they read back. */
  lemma OperandShows(line: D.Line)
    requires Fits(line) && LayoutOf(line.mode).digits > 0
    ensures |Operand(line)| == LayoutOf(line.mode).digits
    ensures ParseUnsigned(Operand(line), 16) == Parsed(line.operand, |Operand(line)|)
  {
    hide Digits, Padding, ParseUnsigned, LayoutOf;
    var d := LayoutOf(line.mode).digits;
    HexLength(line.operand);
    PaddingLength(d - |Digits(line.operand, 16, true)|, true);
    PrintedNumberReadsBack(line.operand, 16, true, d, true);
  }

  // The whole function

  lemma LineFits(b: BusState, pc: word)
    ensures Fits(D.Disassemble(b, pc).1)
    ensures D.Disassemble(b, pc).1.mode == D.OpMode(Read(b, pc).1)
  {
    hide D.OpMode, ReadCore;
  }

  /** A NUL-terminated copy. */
  method NewCString(t: string) returns (s: array<char>)
    requires forall i :: 0 <= i < |t| ==> t[i] != '\0'
    ensures fresh(s) && IsCString(s, |t|) && s[..|t|] == t
  {
    s := new char[|t| + 1](_ => '\0');
    forall i | 0 <= i < |t| { s[i] := t[i]; }
  }

  lemma FormatHasNoNul(mode: D.AddrMode)
    ensures forall i :: 0 <= i < |FormatOf(mode)| ==> FormatOf(mode)[i] != '\0'
  {
  }

  lemma TextIsShort(name: string, line: D.Line)
    requires |name| <= 4 && Fits(line)
    ensures |Text(name, line)| < 64
  {
    hide LayoutOf, FormatUnsigned;
    if LayoutOf(line.mode).digits > 0 { OperandShows(line); }
  }

  lemma TakeAll(t: string, limit: nat)
    requires |t| <= limit
    ensures Take(t, limit) == t
  {
  }

  /** `cpu_disassemble`: the instruction's length, and its text in the caller's
      buffer of 64 characters, never cut. */
  method CpuDisassemble(bus: Bus, pc: word, text: array<char>) returns (bytes: nat, n: nat)
    requires bus.Valid() && text.Length >= 64
    modifies bus, text
    ensures bus.Valid()
    ensures var (after, line) := D.Disassemble(old(bus.State()), pc);
            var op := Read(old(bus.State()), pc).1;
            && bus.State() == after && bytes == line.bytes
            && n < 64 && text[n] == '\0' && text[..n] == Text(Spelling(M.OpName(op)), line)
  {
    hide D.Disassemble, Text, FormatOf, Args, Take, Format, Matches, Read, M.OpName, Spelling, Bus.Valid, Bus.State,
      D.OpMode;
    ghost var before := bus.State();
    var line, op := D.ReadLine(bus, pc);
    LineFits(before, pc);
    var name := Spelling(M.OpName(op));
    bytes := line.bytes;
    FormatHasNoNul(line.mode);
    var fmt := NewCString(FormatOf(line.mode));
    var ap := new ArgList(Args(name, line));
    FormatPrintsText(name, line);
    assert ap.Rest() == Args(name, line);
    n := VSnPrintf(text, 64, fmt, |FormatOf(line.mode)|, ap);
    TextIsShort(name, line);
    TakeAll(Text(name, line), 63);
  }
}
