/** Woz Monitor text: documents of bytes and addresses with arbitrary blanks, comments
    and continuation colons between them, and what the loader reads from them. */
module WozPrint {
  import opened Bytes
  import opened BusModel
  import opened Chars
  import opened WozText

  // Documents

  /** What may separate tokens; a comment owns the line end that closes it. */
  datatype Part = Blank(c: char) | Comment(mark: string, body: string, eol: char) | Colon

  datatype Item =
      // bytes run together, then a separator
    | Data(bytes: seq<byte>, gap: seq<Part>)
      // AAAA : with the preceding data bytes glued to the address
    | Address(bytes: seq<byte>, addr: word, before: seq<Part>, after: seq<Part>)

  /** The end of the text: glued data, possibly a run command.  Fewer than four
      digits before the R are dropped. */
  datatype End =
    | Stop(bytes: seq<byte>)
    | RunCmd(bytes: seq<byte>, addr: word, gap: seq<Part>)
    | ShortRun(digits: string, gap: seq<Part>)

  /** A last comment that no line end closes. */
  datatype Closing = NoComment | LastComment(mark: string, body: string)

  datatype Doc = Doc(lead: seq<Part>, items: seq<Item>, end: End, closing: Closing)

  predicate IsMark(mark: string) { mark == "#" || mark == ";" || mark == "//" }

  ghost predicate InOneLine(body: string) { forall i :: 0 <= i < |body| ==> !EndsLine(body[i]) }

  ghost predicate GoodPart(p: Part) {
    match p
    case Blank(c) => IsSpace(c)
    case Comment(mark, body, eol) => IsMark(mark) && InOneLine(body) && EndsLine(eol)
    case Colon => true
  }

  ghost predicate GoodGap(g: seq<Part>) { forall p :: p in g ==> GoodPart(p) }

  /** A colon after four digits or more would turn them into an address. */
  ghost predicate GoodItem(i: Item) {
    match i
    case Data(bs, gap) => bs != [] && gap != [] && GoodGap(gap) && (|bs| > 1 ==> Colon !in gap)
    case Address(_, _, before, after) => GoodGap(before) && Colon !in before && GoodGap(after)
  }

  ghost predicate GoodItems(items: seq<Item>) { forall i :: i in items ==> GoodItem(i) }

  ghost predicate GoodEnd(e: End) {
    match e
    case Stop(_) => true
    case RunCmd(_, _, gap) => GoodGap(gap)
    case ShortRun(digits, gap) => 0 < |digits| < 4 && AllHex(digits) && GoodGap(gap)
  }

  ghost predicate GoodClosing(c: Closing) { c.LastComment? ==> IsMark(c.mark) && InOneLine(c.body) }

  ghost predicate GoodDoc(d: Doc) {
    GoodGap(d.lead) && GoodItems(d.items) && GoodEnd(d.end) && GoodClosing(d.closing)
  }

  ghost predicate AllHex(s: string) { forall i :: 0 <= i < |s| ==> IsHex(s[i]) }

  ghost predicate AllSpace(s: string) { forall i :: 0 <= i < |s| ==> IsSpace(s[i]) }

  /** Blanks and colons: what a separator leaves when its comments are gone. */
  ghost predicate AllSkipped(s: string) { forall i :: 0 <= i < |s| ==> IsSpace(s[i]) || s[i] == ':' }

  // Printing

  function Digit(d: int): char
    requires 0 <= d < 16
  {
    if d < 10 then ('0' as int + d) as char else ('A' as int + d - 10) as char
  }

  function HexByte(b: byte): string { [Digit(b / 16), Digit(b % 16)] }

  function Hex(bs: seq<byte>): (s: string)
    ensures |s| == 2 * |bs|
  {
    if bs == [] then "" else HexByte(bs[0]) + Hex(bs[1..])
  }

  function HexWord(a: word): string { HexByte(Hi(a)) + HexByte(Lo(a)) }

  function PrintPart(p: Part): string {
    match p case Blank(c) => [c] case Comment(mark, body, eol) => mark + body + [eol] case Colon => ":"
  }

  function PrintGap(g: seq<Part>): string {
    if g == [] then "" else PrintPart(g[0]) + PrintGap(g[1..])
  }

  function PrintItem(i: Item): string {
    match i
    case Data(bs, gap) => Hex(bs) + PrintGap(gap)
    case Address(bs, a, before, after) => Hex(bs) + HexWord(a) + PrintGap(before) + ":" + PrintGap(after)
  }

  function PrintEnd(e: End): string {
    match e
    case Stop(bs) => Hex(bs)
    case RunCmd(bs, a, gap) => Hex(bs) + HexWord(a) + "R" + PrintGap(gap)
    case ShortRun(digits, gap) => digits + "R" + PrintGap(gap)
  }

  function PrintItems(items: seq<Item>): string {
    if items == [] then "" else PrintItem(items[0]) + PrintItems(items[1..])
  }

  function PrintClosing(c: Closing): string { if c.LastComment? then c.mark + c.body else "" }

  function Print(d: Doc): string {
    PrintGap(d.lead) + PrintItems(d.items) + PrintEnd(d.end) + PrintClosing(d.closing)
  }

  // Comments vanish

  function CleanPart(p: Part): char {
    match p case Blank(c) => c case Comment(_, _, eol) => eol case Colon => ':'
  }

  function CleanGap(g: seq<Part>): (s: string)
    ensures |s| == |g|
  {
    if g == [] then "" else [CleanPart(g[0])] + CleanGap(g[1..])
  }

  lemma {:induction false} CommentIsSkipped(body: string, eol: char, rest: string)
    requires InOneLine(body) && EndsLine(eol)
    ensures Clean(body + [eol] + rest, true) == [eol] + Clean(rest, false)
  {
    if body == "" {
      assert body + [eol] + rest == [eol] + rest;
    } else {
      assert (body + [eol] + rest)[1..] == body[1..] + [eol] + rest;
      CommentIsSkipped(body[1..], eol, rest);
    }
  }

  /** A comment mark starts a comment whatever follows it. */
  lemma MarkIsSkipped(mark: string, tail: string)
    requires IsMark(mark)
    ensures Clean(mark + tail, false) == Clean(tail, true)
  {
    var s := mark + tail;
    if mark == "//" {
      assert s[1..] == "/" + tail && ("/" + tail)[1..] == tail;
      assert Clean(s, false) == Clean(s[1..], true) == Clean(tail, true);
    } else {
      assert s[1..] == tail;
    }
  }

  lemma OneCleans(c: char, rest: string)
    requires IsSpace(c) || c == ':'
    ensures Clean([c] + rest, false) == [c] + Clean(rest, false)
  {
    assert ([c] + rest)[1..] == rest;
  }

  lemma PartCleans(p: Part, rest: string)
    requires GoodPart(p)
    ensures Clean(PrintPart(p) + rest, false) == [CleanPart(p)] + Clean(rest, false)
  {
    hide Clean, IsSpace;
    match p
    case Blank(c) => OneCleans(c, rest);
    case Colon => OneCleans(':', rest);
    case Comment(mark, body, eol) =>
      CommentIsSkipped(body, eol, rest);
      MarkIsSkipped(mark, body + [eol] + rest);
      assert PrintPart(p) + rest == mark + (body + [eol] + rest);
  }

  lemma {:induction false} LastCommentVanishes(body: string)
    requires InOneLine(body)
    ensures Clean(body, true) == ""
  {
    if body != "" { LastCommentVanishes(body[1..]); }
  }

  lemma ClosingCleans(c: Closing)
    requires GoodClosing(c)
    ensures Clean(PrintClosing(c), false) == ""
  {
    hide Clean;
    if c.LastComment? {
      MarkIsSkipped(c.mark, c.body);
      LastCommentVanishes(c.body);
    } else {
      NothingCleans();
    }
  }

  lemma NothingCleans()
    ensures Clean("", false) == ""
  {
  }

  lemma {:induction false} GapCleans(g: seq<Part>, rest: string)
    requires GoodGap(g)
    ensures Clean(PrintGap(g) + rest, false) == CleanGap(g) + Clean(rest, false)
  {
    hide Clean, GoodPart, PrintPart, CleanPart;
    if g == [] {
      assert PrintGap(g) + rest == rest;
      assert CleanGap(g) + Clean(rest, false) == Clean(rest, false);
    } else {
      assert g[0] in g;
      PartCleans(g[0], PrintGap(g[1..]) + rest);
      assert PrintGap(g) + rest == PrintPart(g[0]) + (PrintGap(g[1..]) + rest);
      GapCleans(g[1..], rest);
      assert CleanGap(g) + Clean(rest, false) == [CleanPart(g[0])] + (CleanGap(g[1..]) + Clean(rest, false));
    }
  }

  /** A character that cleaning always keeps outside comments. */
  predicate Plain(c: char) { IsHex(c) || c == ':' || c == 'R' }

  lemma {:induction false} TokenCleans(t: string, rest: string)
    requires forall i :: 0 <= i < |t| ==> Plain(t[i])
    ensures Clean(t + rest, false) == t + Clean(rest, false)
  {
    if t == "" {
      assert t + rest == rest && t + Clean(rest, false) == Clean(rest, false);
    } else {
      assert (t + rest)[1..] == t[1..] + rest;
      TokenCleans(t[1..], rest);
      assert t + Clean(rest, false) == [t[0]] + (t[1..] + Clean(rest, false));
    }
  }

  lemma {:induction false} HexIsHex(bs: seq<byte>)
    ensures forall i :: 0 <= i < |Hex(bs)| ==> IsHex(Hex(bs)[i])
  {
    if bs != [] { HexIsHex(bs[1..]); }
  }

  function CleanItem(i: Item): string {
    match i
    case Data(bs, gap) => Hex(bs) + CleanGap(gap)
    case Address(bs, a, before, after) => Hex(bs) + HexWord(a) + CleanGap(before) + ":" + CleanGap(after)
  }

  function CleanEnd(e: End): string {
    match e
    case Stop(bs) => Hex(bs)
    case RunCmd(bs, a, gap) => Hex(bs) + HexWord(a) + "R" + CleanGap(gap)
    case ShortRun(digits, gap) => digits + "R" + CleanGap(gap)
  }

  function CleanPrint(items: seq<Item>, e: End): string {
    if items == [] then CleanEnd(e) else CleanItem(items[0]) + CleanPrint(items[1..], e)
  }

  lemma HexWordIsHex(a: word)
    ensures |HexWord(a)| == 4 && forall i :: 0 <= i < 4 ==> IsHex(HexWord(a)[i])
  {
  }

  lemma ItemCleans(i: Item, rest: string)
    requires GoodItem(i)
    ensures Clean(PrintItem(i) + rest, false) == CleanItem(i) + Clean(rest, false)
  {
    hide Clean, Hex, HexWord, PrintGap, CleanGap;
    HexIsHex(i.bytes);
    match i
    case Data(bs, gap) =>
      GapCleans(gap, rest);
      TokenCleans(Hex(bs), PrintGap(gap) + rest);
      assert PrintItem(i) + rest == Hex(bs) + (PrintGap(gap) + rest);
      assert CleanItem(i) + Clean(rest, false) == Hex(bs) + (CleanGap(gap) + Clean(rest, false));
    case Address(bs, a, before, after) =>
      HexWordIsHex(a);
      var t, tail := Hex(bs) + HexWord(a), PrintGap(after) + rest;
      GapCleans(after, rest);
      TokenCleans(":", tail);
      GapCleans(before, ":" + tail);
      TokenCleans(t, PrintGap(before) + (":" + tail));
      assert PrintItem(i) + rest == t + (PrintGap(before) + (":" + tail));
      assert CleanItem(i) + Clean(rest, false) ==
             t + (CleanGap(before) + (":" + (CleanGap(after) + Clean(rest, false))));
  }

  lemma EndCleans(e: End, rest: string)
    requires GoodEnd(e)
    ensures Clean(PrintEnd(e) + rest, false) == CleanEnd(e) + Clean(rest, false)
  {
    hide Clean, Hex, HexWord, PrintGap, CleanGap, IsHex;
    match e
    case Stop(bs) =>
      HexIsHex(bs);
      TokenCleans(Hex(bs), rest);
    case RunCmd(bs, a, gap) =>
      HexIsHex(bs);
      HexWordIsHex(a);
      var t := Hex(bs) + HexWord(a) + "R";
      GapCleans(gap, rest);
      TokenCleans(t, PrintGap(gap) + rest);
      assert PrintEnd(e) + rest == t + (PrintGap(gap) + rest);
      assert CleanEnd(e) + Clean(rest, false) == t + (CleanGap(gap) + Clean(rest, false));
    case ShortRun(digits, gap) =>
      var t := digits + "R";
      GapCleans(gap, rest);
      TokenCleans(t, PrintGap(gap) + rest);
      assert PrintEnd(e) + rest == t + (PrintGap(gap) + rest);
      assert CleanEnd(e) + Clean(rest, false) == t + (CleanGap(gap) + Clean(rest, false));
  }

  lemma GoodTail(items: seq<Item>)
    requires GoodItems(items) && items != []
    ensures GoodItem(items[0]) && GoodItems(items[1..])
  {
    assert items[0] in items && forall i :: i in items[1..] ==> i in items;
  }

  lemma {:induction false} ItemsClean(items: seq<Item>, e: End, rest: string)
    requires GoodItems(items) && GoodEnd(e)
    ensures Clean(PrintItems(items) + (PrintEnd(e) + rest), false) == CleanPrint(items, e) + Clean(rest, false)
  {
    hide Clean, PrintItem, CleanItem, GoodItem, PrintEnd, CleanEnd, GoodEnd;
    var tail := PrintEnd(e) + rest;
    if items == [] {
      assert PrintItems(items) + tail == tail;
      EndCleans(e, rest);
    } else {
      hide GoodItems;
      GoodTail(items);
      ItemCleans(items[0], PrintItems(items[1..]) + tail);
      ItemsClean(items[1..], e, rest);
      assert PrintItems(items) + tail == PrintItem(items[0]) + (PrintItems(items[1..]) + tail);
      assert CleanPrint(items, e) + Clean(rest, false) ==
             CleanItem(items[0]) + (CleanPrint(items[1..], e) + Clean(rest, false));
    }
  }

  lemma PrintCleans(d: Doc)
    requires GoodDoc(d)
    ensures Clean(Print(d), false) == CleanGap(d.lead) + CleanPrint(d.items, d.end)
  {
    hide Clean, PrintGap, CleanGap, PrintItems, CleanPrint, PrintEnd, GoodEnd;
    var last := PrintClosing(d.closing);
    var body := PrintItems(d.items) + (PrintEnd(d.end) + last);
    ClosingCleans(d.closing);
    ItemsClean(d.items, d.end, last);
    GapCleans(d.lead, body);
    assert Print(d) == PrintGap(d.lead) + body;
    assert CleanPrint(d.items, d.end) + "" == CleanPrint(d.items, d.end);
  }

  // Parsing what was printed

  function PokeAll(w: Loader, bs: seq<byte>): (w': Loader)
    ensures |w'.ram| == |w.ram|
    decreases bs
  {
    if bs == [] then w else PokeAll(Poke(w, bs[0]), bs[1..])
  }

  lemma DigitReads(d: int)
    requires 0 <= d < 16
    ensures IsHex(Digit(d)) && HexVal(Digit(d)) == d
  {
  }

  lemma {:induction false} PokesHex(w: Loader, bs: seq<byte>)
    ensures PokeDigits(w, Hex(bs)) == PokeAll(w, bs)
    decreases bs
  {
    if bs != [] {
      DigitReads(bs[0] / 16);
      DigitReads(bs[0] % 16);
      assert Hex(bs)[2..] == Hex(bs[1..]);
      PokesHex(Poke(w, bs[0]), bs[1..]);
    }
  }

  lemma ByteReads(t: string, b: byte)
    requires HexNumber(t) < 256
    ensures HexNumber(t + HexByte(b)) == HexNumber(t) * 256 + b
  {
    hide HexNumber, Digit, HexVal;
    var c, d := Digit(b / 16), Digit(b % 16);
    DigitReads(b / 16);
    DigitReads(b % 16);
    DigitJoins(t, c);
    DigitJoins(t + [c], d);
    assert t + HexByte(b) == t + [c] + [d];
  }

  lemma DigitJoins(t: string, c: char)
    requires HexNumber(t) < 4096
    ensures HexNumber(t + [c]) == HexNumber(t) * 16 + HexVal(c)
  {
    assert (t + [c])[..|t|] == t;
  }

  lemma WordReads(a: word)
    ensures HexNumber(HexWord(a)) == a
  {
    hide HexByte;
    ByteReads("", Hi(a));
    assert "" + HexByte(Hi(a)) == HexByte(Hi(a));
    ByteReads(HexByte(Hi(a)), Lo(a));
  }

  lemma {:induction false} HexRunStops(h: string, rest: string)
    requires AllHex(h) && (rest == "" || !IsHex(rest[0]))
    ensures HexRun(h + rest) == |h|
  {
    if h != "" {
      assert (h + rest)[1..] == h[1..] + rest;
      HexRunStops(h[1..], rest);
    } else {
      assert h + rest == rest;
    }
  }

  lemma {:induction false} SpaceRunStops(g: string, rest: string)
    requires AllSpace(g) && (rest == "" || !IsSpace(rest[0]))
    ensures SpaceRun(g + rest) == |g|
  {
    if g != "" {
      assert (g + rest)[1..] == g[1..] + rest;
      SpaceRunStops(g[1..], rest);
    } else {
      assert g + rest == rest;
    }
  }

  lemma {:induction false} ParseSkips(g: string, rest: string, w: Loader)
    requires AllSkipped(g)
    ensures Parse(g + rest, w) == Parse(rest, w)
  {
    hide Parse;
    if g == "" {
      assert g + rest == rest;
    } else {
      assert (g + rest)[1..] == g[1..] + rest;
      ParseSkipsOne(g + rest, w);
      ParseSkips(g[1..], rest, w);
    }
  }

  /** A hex run is handed to `OnRun` whole. */
  lemma ParseMeetsRun(h: string, rest: string, w: Loader)
    requires h != "" && AllHex(h) && (rest == "" || !IsHex(rest[0]))
    ensures Parse(h + rest, w) == var (w1, rest1) := OnRun(w, h, rest); Parse(rest1, w1)
  {
    hide OnRun, HexRun;
    HexRunStops(h, rest);
    var s := h + rest;
    assert s[..|h|] == h && s[|h|..] == rest && IsHex(s[0]);
  }

  lemma SkippedIsNoHex(c: char)
    requires IsSpace(c) || c == ':'
    ensures !IsHex(c) && ToUpper(c) != 'R'
  {
  }

  /** Bytes and a separator.  The lookahead sees an address only behind three
      digits or more, so a single byte may be followed by colons. */
  lemma ParseData(bs: seq<byte>, g: string, rest: string, w: Loader)
    requires bs != [] && g != "" && AllSkipped(g) && (|bs| > 1 ==> AllSpace(g) && (rest == "" || IsHex(rest[0])))
    ensures Parse(Hex(bs) + g + rest, w) == Parse(rest, PokeAll(w, bs))
  {
    hide Parse, Hex, HexRun, PokeDigits, SpaceRun, IsSpace, IsHex, ToUpper, AllSpace;
    HexIsHex(bs);
    assert Hex(bs) + g + rest == Hex(bs) + (g + rest);
    SkippedIsNoHex(g[0]);
    ParseMeetsRun(Hex(bs), g + rest, w);
    if |bs| > 1 { HexIsNoSpace(rest); SpaceRunStops(g, rest); }
    PokesHex(w, bs);
    ParseSkips(g, rest, PokeAll(w, bs));
  }

  lemma HexIsNoSpace(s: string)
    ensures s != "" && IsHex(s[0]) ==> !IsSpace(s[0]) && s[0] != ':'
  {
  }

  lemma GluedDigits(bs: seq<byte>, a: word, w: Loader)
    ensures var h := Hex(bs) + HexWord(a);
            && |h| >= 4 && AllHex(h) && h[|h| - 4..] == HexWord(a) && DataLen(|h|) == |h| - 4
            && PokeDigits(w, h[..DataLen(|h|)]) == PokeAll(w, bs) && HexNumber(h[|h| - 4..]) == a
  {
    hide Hex, HexWord, HexNumber, PokeDigits;
    HexIsHex(bs);
    HexWordIsHex(a);
    PokesHex(w, bs);
    WordReads(a);
    var h := Hex(bs) + HexWord(a);
    assert h[..|h| - 4] == Hex(bs);
  }

  lemma ParseAddress(bs: seq<byte>, a: word, b: string, c: string, rest: string, w: Loader)
    requires AllSpace(b) && AllSkipped(c)
    ensures Parse(Hex(bs) + HexWord(a) + b + ":" + c + rest, w) ==
            Parse(rest, PokeAll(w, bs).(addr := a, first := false))
  {
    hide Parse, Hex, HexWord, HexRun, HexNumber, PokeDigits, SpaceRun;
    var h, tail := Hex(bs) + HexWord(a), c + rest;
    GluedDigits(bs, a, w);
    SpaceRunStops(b, ":" + tail);
    assert Hex(bs) + HexWord(a) + b + ":" + c + rest == h + (b + (":" + tail));
    ParseMeetsRun(h, b + (":" + tail), w);
    assert (b + (":" + tail))[|b| + 1..] == tail;
    ParseSkips(c, rest, PokeAll(w, bs).(addr := a, first := false));
  }

  lemma ParseRunCmd(bs: seq<byte>, a: word, g: string, w: Loader)
    requires AllSkipped(g)
    ensures Parse(Hex(bs) + HexWord(a) + "R" + g, w) == PokeAll(w, bs).(run := RunAt(a))
  {
    hide Hex, HexWord, HexRun, HexNumber, PokeDigits, SpaceRun;
    var h := Hex(bs) + HexWord(a);
    GluedDigits(bs, a, w);
    assert h + "R" + g == h + ("R" + g);
    ParseMeetsRun(h, "R" + g, w);
    assert ("R" + g)[1..] == g && g + "" == g;
    ParseSkips(g, "", PokeAll(w, bs).(run := RunAt(a)));
  }

  /** Too few digits for an address: nothing is stored and nothing is reported. */
  lemma ParseShortRun(digits: string, g: string, w: Loader)
    requires 0 < |digits| < 4 && AllHex(digits) && AllSkipped(g)
    ensures Parse(digits + "R" + g, w) == w
  {
    hide Parse, HexRun, HexNumber, SpaceRun;
    assert digits + "R" + g == digits + ("R" + g) && !IsHex('R');
    ParseMeetsRun(digits, "R" + g, w);
    assert digits[..0] == "" && PokeDigits(w, "") == w;
    assert ("R" + g)[1..] == g && g + "" == g;
    ParseSkips(g, "", w);
    ParseNothing(w);
  }

  lemma ParseStop(bs: seq<byte>, w: Loader)
    ensures Parse(Hex(bs), w) == PokeAll(w, bs)
  {
    if bs != [] {
      HexIsHex(bs);
      ParseMeetsRun(Hex(bs), "", w);
      assert Hex(bs) + "" == Hex(bs);
      PokesHex(w, bs);
    }
  }

  /** What a document does to the loader. */
  function Effect(items: seq<Item>, e: End, w: Loader): Loader {
    if items == [] then
      match e
      case Stop(bs) => PokeAll(w, bs)
      case RunCmd(bs, a, _) => PokeAll(w, bs).(run := RunAt(a))
      case ShortRun(_, _) => w
    else
      var w1 := PokeAll(w, items[0].bytes);
      Effect(items[1..], e, if items[0].Address? then w1.(addr := items[0].addr, first := false) else w1)
  }

  lemma StartsWithHex(bs: seq<byte>, t: string)
    ensures bs != [] ==> IsHex((Hex(bs) + t)[0])
  {
  }

  /** After an item comes a token or nothing. */
  lemma NextIsHex(items: seq<Item>, e: End)
    requires GoodItems(items) && GoodEnd(e)
    ensures CleanPrint(items, e) == "" || IsHex(CleanPrint(items, e)[0])
  {
    hide IsHex;
    if items == [] {
      match e
      case Stop(bs) => StartsWithHex(bs, "");
      case RunCmd(bs, a, _) => { StartsWithHex(bs, ""); HexWordIsHex(a); }
      case ShortRun(_, _) => {}
    } else {
      assert items[0] in items;
      StartsWithHex(items[0].bytes, "");
      if items[0].Address? { HexWordIsHex(items[0].addr); }
    }
  }

  lemma {:induction false} GapIsSkipped(g: seq<Part>)
    requires GoodGap(g)
    ensures AllSkipped(CleanGap(g))
    ensures Colon !in g ==> AllSpace(CleanGap(g))
  {
    if g != [] {
      assert g[0] in g;
      assert forall p :: p in g[1..] ==> p in g;
      GapIsSkipped(g[1..]);
    }
  }

  lemma ParsesEnd(e: End, w: Loader)
    requires GoodEnd(e)
    ensures Parse(CleanEnd(e), w) == Effect([], e, w)
  {
    hide Parse, Hex, HexWord, PokeAll, CleanGap, AllSkipped, AllSpace;
    match e
    case Stop(bs) => ParseStop(bs, w);
    case RunCmd(bs, a, gap) =>
      GapIsSkipped(gap);
      ParseRunCmd(bs, a, CleanGap(gap), w);
    case ShortRun(digits, gap) =>
      GapIsSkipped(gap);
      ParseShortRun(digits, CleanGap(gap), w);
  }

  lemma {:induction false} ParsesClean(items: seq<Item>, e: End, w: Loader)
    requires GoodItems(items) && GoodEnd(e)
    ensures Parse(CleanPrint(items, e), w) == Effect(items, e, w)
    decreases items
  {
    hide Parse, Hex, HexWord, PokeAll, CleanGap, CleanEnd, GoodEnd, AllSkipped, AllSpace, IsHex;
    if items == [] {
      ParsesEnd(e, w);
    } else {
      var rest := CleanPrint(items[1..], e);
      assert items[0] in items;
      assert forall i :: i in items[1..] ==> i in items;
      NextIsHex(items[1..], e);
      match items[0]
      case Data(bs, gap) =>
        GapIsSkipped(gap);
        ParseData(bs, CleanGap(gap), rest, w);
        ParsesClean(items[1..], e, PokeAll(w, bs));
      case Address(bs, a, before, after) =>
        GapIsSkipped(before);
        GapIsSkipped(after);
        ParseAddress(bs, a, CleanGap(before), CleanGap(after), rest, w);
        ParsesClean(items[1..], e, PokeAll(w, bs).(addr := a, first := false));
    }
  }

  /** The loader reads any such document as it was meant. */
  lemma ReadsDocument(d: Doc, w: Loader)
    requires GoodDoc(d)
    ensures Parse(Clean(Print(d), false), w) == Effect(d.items, d.end, w)
  {
    hide Parse, Clean, Print, CleanGap, CleanPrint, AllSkipped, AllSpace;
    PrintCleans(d);
    GapIsSkipped(d.lead);
    ParseSkips(CleanGap(d.lead), CleanPrint(d.items, d.end), w);
    ParsesClean(d.items, d.end, w);
  }

  /** Two digits before a colon are a data byte, never an address, whatever
      blanks and colons follow. */
  lemma TwoDigitsAreData(b: byte, sep: string, rest: string, w: Loader)
    requires sep != "" && AllSkipped(sep)
    ensures Parse(HexByte(b) + sep + rest, w) == Parse(rest, Poke(w, b))
  {
    hide Parse, AllSkipped, Poke;
    assert Hex([b]) == HexByte(b) && PokeAll(w, [b]) == Poke(w, b);
    ParseData([b], sep, rest, w);
  }
}
