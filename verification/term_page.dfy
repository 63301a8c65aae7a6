/** The 24x40 screen of `term_ansi.c` on values, and what it shows: the last
    rows of an unbounded page, on which the text is typeset. */
module TermPage {
  import opened Bytes

  type Row = r: seq<byte> | |r| == 40 witness seq(40, _ => 0x20)

  function Blank(): Row { seq(40, _ => 0x20) }

  type Window = w: seq<Row> | |w| == 24 witness Blanks(24)

  const CR: byte := 0x0D

  function Blanks(n: nat): (rows: seq<Row>)
    ensures |rows| == n
    ensures forall i :: 0 <= i < n ==> rows[i] == Blank()
  {
    seq(n, _ => Blank())
  }

  function SetCell(rows: seq<Row>, y: nat, x: nat, v: byte): (r: seq<Row>)
    requires y < |rows| && x < 40
    ensures |r| == |rows|
  {
    rows[y := rows[y][x := v]]
  }

  predicate Prints(v: byte) { 0x20 <= v <= 0x7E }

  function Glyph(v: byte): byte { if 0x61 <= v <= 0x7A then v - 32 else v }

  // The screen

  datatype RawScreen = Screen(rows: Window, x: nat, y: nat)

  /** The cursor is inside the screen and its cell holds the cursor mark. */
  predicate ValidScreen(s: RawScreen) { s.x < 40 && s.y < 24 && s.rows[s.y][s.x] == 0 }

  function PowerOnRow(y: int): Row { seq(40, x => if (x + y) % 2 == 1 then 0x5F else 0x00) }

  /** The checkerboard of `term_init`. */
  function PowerOnRows(): Window { seq(24, y => PowerOnRow(y)) }

  type Screen = s: RawScreen | ValidScreen(s) witness Screen(PowerOnRows(), 0, 0)

  /** Cursor motion onto the next line, scrolling at the bottom, and the mark. */
  function NewLine(rows: Window, y: nat): Screen
    requires y < 24
  {
    if y + 1 >= 24 then
      var up: Window := rows[1..] + [Blank()];
      Screen(SetCell(up, 23, 0, 0), 0, 23)
    else Screen(SetCell(rows, y + 1, 0, 0), 0, y + 1)
  }

  /** `term_write`. */
  function Type(s: Screen, value: byte): Screen {
    var v := value % 128;
    if v == CR then NewLine(SetCell(s.rows, s.y, s.x, 0x20), s.y)
    else if Prints(v) then
      var rows: Window := SetCell(s.rows, s.y, s.x, Glyph(v));
      if s.x + 1 >= 40 then NewLine(rows, s.y)
      else Screen(SetCell(rows, s.y, s.x + 1, 0), s.x + 1, s.y)
    else s
  }

  /** Ctrl-L. */
  function Cleared(): Screen { Screen(SetCell(Blanks(24), 0, 0, 0), 0, 0) }

  datatype Input = Char(value: byte) | ClearKey

  function Take(s: Screen, i: Input): Screen {
    match i case Char(v) => Type(s, v) case ClearKey => Cleared()
  }

  function RunScreen(s: Screen, inputs: seq<Input>): Screen
    decreases inputs
  {
    if inputs == [] then s
    else Take(RunScreen(s, inputs[..|inputs| - 1]), inputs[|inputs| - 1])
  }

  // The unbounded page

  datatype RawPage = Page(rows: seq<Row>, x: nat, y: nat)

  predicate ValidPage(p: RawPage) {
    |p.rows| >= 24 && p.x < 40 && |p.rows| - 24 <= p.y < |p.rows| && p.rows[p.y][p.x] == 0
  }

  type Page = p: RawPage | ValidPage(p) witness Page(PowerOnRows(), 0, 0)

  /** Nothing is ever lost: the page grows by a row instead of scrolling. */
  function NewPageLine(rows: seq<Row>, y: nat): Page
    requires |rows| >= 24 && |rows| - 24 <= y < |rows|
  {
    var more := if y + 1 >= |rows| then rows + [Blank()] else rows;
    Page(SetCell(more, y + 1, 0, 0), 0, y + 1)
  }

  function PageType(p: Page, value: byte): Page {
    var v := value % 128;
    if v == CR then NewPageLine(SetCell(p.rows, p.y, p.x, 0x20), p.y)
    else if Prints(v) then
      var rows := SetCell(p.rows, p.y, p.x, Glyph(v));
      if p.x + 1 >= 40 then NewPageLine(rows, p.y)
      else Page(SetCell(rows, p.y, p.x + 1, 0), p.x + 1, p.y)
    else p
  }

  /** Clearing turns to 24 room rows. */
  function PageTake(p: Page, i: Input): Page {
    match i
    case Char(v) => PageType(p, v)
    case ClearKey => Page(SetCell(p.rows + Blanks(24), |p.rows|, 0, 0), 0, |p.rows|)
  }

  function RunPage(p: Page, inputs: seq<Input>): Page
    decreases inputs
  {
    if inputs == [] then p
    else PageTake(RunPage(p, inputs[..|inputs| - 1]), inputs[|inputs| - 1])
  }

  function LastRows(rows: seq<Row>): Window
    requires |rows| >= 24
  {
    rows[|rows| - 24..]
  }

  function WindowOn(p: Page): Screen { Screen(LastRows(p.rows), p.x, p.y - (|p.rows| - 24)) }

  lemma WindowCell(rows: seq<Row>, y: nat, x: nat, v: byte)
    requires |rows| >= 24 && |rows| - 24 <= y < |rows| && x < 40
    ensures LastRows(SetCell(rows, y, x, v)) == SetCell(LastRows(rows), y - (|rows| - 24), x, v)
  {
  }

  lemma WindowNewLine(rows: seq<Row>, y: nat)
    requires |rows| >= 24 && |rows| - 24 <= y < |rows|
    ensures WindowOn(NewPageLine(rows, y)) == NewLine(LastRows(rows), y - (|rows| - 24))
  {
    hide SetCell;
    var top := |rows| - 24;
    if y + 1 >= |rows| {
      WindowCell(rows + [Blank()], y + 1, 0, 0);
      assert LastRows(rows + [Blank()]) == LastRows(rows)[1..] + [Blank()];
    } else {
      WindowCell(rows, y + 1, 0, 0);
    }
  }

  lemma StepKeepsWindow(p: Page, i: Input)
    ensures WindowOn(PageTake(p, i)) == Take(WindowOn(p), i)
  {
    hide SetCell, NewLine, NewPageLine, LastRows;
    var top := |p.rows| - 24;
    match i
    case Char(value) =>
      var v := value % 128;
      if v == CR {
        WindowCell(p.rows, p.y, p.x, 0x20);
        WindowNewLine(SetCell(p.rows, p.y, p.x, 0x20), p.y);
      } else if Prints(v) {
        var rows := SetCell(p.rows, p.y, p.x, Glyph(v));
        WindowCell(p.rows, p.y, p.x, Glyph(v));
        if p.x + 1 >= 40 {
          WindowNewLine(rows, p.y);
        } else {
          WindowCell(rows, p.y, p.x + 1, 0);
        }
      }
    case ClearKey =>
      WindowCell(p.rows + Blanks(24), |p.rows|, 0, 0);
      assert LastRows(p.rows + Blanks(24)) == Blanks(24) by { LastOfConcat(p.rows, Blanks(24)); }
  }

  lemma LastOfConcat(above: seq<Row>, below: Window)
    ensures LastRows(above + below) == below
  {
  }

  /** After any run the screen is the last 24 rows of the page; its type says
      that the cursor is inside and its cell marked. */
  lemma {:induction false} ScreenIsWindowOnPage(p: Page, inputs: seq<Input>)
    ensures WindowOn(RunPage(p, inputs)) == RunScreen(WindowOn(p), inputs)
    decreases inputs
  {
    if inputs != [] {
      var k := |inputs| - 1;
      ScreenIsWindowOnPage(p, inputs[..k]);
      StepKeepsWindow(RunPage(p, inputs[..k]), inputs[k]);
    }
  }

  // What is on the page

  /** The characters that leave a trace, as they are shown. */
  function Visible(text: seq<byte>): seq<byte>
    decreases text
  {
    if text == [] then []
    else
      var v := text[|text| - 1] % 128;
      Visible(text[..|text| - 1]) + if v == CR then [CR] else if Prints(v) then [Glyph(v)] else []
  }

  function Spaces(n: nat): seq<byte> { seq(n, _ => 0x20) }

  /** A paragraph cut into rows of 40; a full last row is followed by a blank one. */
  function Wrap(s: seq<byte>): (rows: seq<Row>)
    ensures |rows| == |s| / 40 + 1
  {
    if |s| < 40 then [s + Spaces(40 - |s|)] else [s[..40]] + Wrap(s[40..])
  }

  function FirstCR(s: seq<byte>): (i: nat)
    ensures i <= |s| && (i < |s| ==> s[i] == 0x0D)
    ensures forall j :: 0 <= j < i ==> s[j] != 0x0D
  {
    if s == [] || s[0] == CR then 0 else 1 + FirstCR(s[1..])
  }

  /** Paragraphs end at carriage returns. */
  function Layout(s: seq<byte>): (rows: seq<Row>)
    ensures |rows| > 0
  {
    var i := FirstCR(s);
    if i == |s| then Wrap(s) else Wrap(s[..i]) + Layout(s[i + 1..])
  }

  /** Where the next character goes in the last row. */
  function Column(s: seq<byte>): (x: nat)
    ensures x < 40
  {
    var i := FirstCR(s);
    if i == |s| then |s| % 40 else Column(s[i + 1..])
  }

  /** The last row with one more character; the row after it if it is full. */
  function Extend(rows: seq<Row>, x: nat, c: byte): seq<Row>
    requires rows != [] && x < 40
  {
    SetCell(rows, |rows| - 1, x, c) + if x == 39 then [Blank()] else []
  }

  lemma ExtendBehind(above: seq<Row>, rows: seq<Row>, x: nat, c: byte)
    requires rows != [] && x < 40
    ensures above + Extend(rows, x, c) == Extend(above + rows, x, c)
  {
    assert above + SetCell(rows, |rows| - 1, x, c) == SetCell(above + rows, |above + rows| - 1, x, c);
  }

  lemma {:induction false} ShortWrapGrows(s: seq<byte>, c: byte)
    requires |s| < 40
    ensures Wrap(s + [c]) == Extend(Wrap(s), |s|, c)
  {
    var before: Row := s + Spaces(40 - |s|);
    var after: Row := before[|s| := c];
    assert Wrap(s) == [before];
    assert SetCell([before], 0, |s|, c) == [after];
    if |s| < 39 {
      assert s + [c] + Spaces(40 - |s| - 1) == after;
      assert Wrap(s + [c]) == [after] && [after] + [] == [after];
    } else {
      assert s + [c] == after && after[..40] == after && after[40..] == [];
      assert [] + Spaces(40) == Blank() && Wrap([]) == [Blank()];
      assert Wrap(s + [c]) == [after] + [Blank()];
    }
  }

  lemma {:induction false} WrapGrows(s: seq<byte>, c: byte)
    ensures Wrap(s + [c]) == Extend(Wrap(s), |s| % 40, c)
    decreases |s|
  {
    if |s| < 40 {
      ShortWrapGrows(s, c);
    } else {
      hide SetCell;
      WrapGrows(s[40..], c);
      assert (s + [c])[..40] == s[..40] && (s + [c])[40..] == s[40..] + [c];
      ExtendBehind([s[..40]], Wrap(s[40..]), |s| % 40, c);
    }
  }

  lemma {:induction false} FirstCRInPrefix(s: seq<byte>, c: byte)
    ensures FirstCR(s) < |s| ==> FirstCR(s + [c]) == FirstCR(s)
    ensures FirstCR(s) == |s| ==> FirstCR(s + [c]) == if c == CR then |s| else |s| + 1
  {
    if s != [] && s[0] != CR {
      assert (s + [c])[1..] == s[1..] + [c];
      FirstCRInPrefix(s[1..], c);
    } else if s == [] {
      assert s + [c] == [c];
    }
  }

  lemma {:induction false} LayoutSplits(s: seq<byte>)
    ensures var i := FirstCR(s);
            && Layout(s) == (if i == |s| then Wrap(s) else Wrap(s[..i]) + Layout(s[i + 1..]))
            && Column(s) == if i == |s| then |s| % 40 else Column(s[i + 1..])
  {
    hide Wrap, FirstCR;
  }

  lemma {:induction false} LayoutGrows(s: seq<byte>, c: byte)
    requires c != CR
    ensures Layout(s + [c]) == Extend(Layout(s), Column(s), c)
    ensures Column(s + [c]) == (Column(s) + 1) % 40
    decreases |s|
  {
    hide Wrap, Extend, FirstCR, Layout, Column;
    var i := FirstCR(s);
    FirstCRInPrefix(s, c);
    LayoutSplits(s);
    LayoutSplits(s + [c]);
    if i == |s| {
      WrapGrows(s, c);
    } else {
      assert (s + [c])[..i] == s[..i] && (s + [c])[i + 1..] == s[i + 1..] + [c];
      LayoutGrows(s[i + 1..], c);
      ExtendBehind(Wrap(s[..i]), Layout(s[i + 1..]), Column(s), c);
    }
  }

  lemma {:induction false} LayoutBreaks(s: seq<byte>)
    ensures Layout(s + [CR]) == Layout(s) + [Blank()] && Column(s + [CR]) == 0
    decreases |s|
  {
    hide FirstCR, Layout, Column, Wrap;
    var i := FirstCR(s);
    FirstCRInPrefix(s, CR);
    LayoutSplits(s);
    LayoutSplits(s + [CR]);
    if i == |s| {
      assert (s + [CR])[..i] == s && (s + [CR])[i + 1..] == [];
      NothingTypeset();
    } else {
      assert (s + [CR])[..i] == s[..i] && (s + [CR])[i + 1..] == s[i + 1..] + [CR];
      LayoutBreaks(s[i + 1..]);
      assert Wrap(s[..i]) + (Layout(s[i + 1..]) + [Blank()]) == Wrap(s[..i]) + Layout(s[i + 1..]) + [Blank()];
    }
  }

  lemma NothingTypeset()
    ensures Layout([]) == [Blank()] && Column([]) == 0
  {
    assert [] + Spaces(40) == Blank();
  }

  /** The page's rows without the cursor mark. */
  function Unmarked(p: Page): seq<Row> { SetCell(p.rows, p.y, p.x, 0x20) }

  /** What is left of `room` blank rows under the text `s`. */
  function Left(room: nat, s: seq<byte>): nat {
    if |Layout(s)| > room then 0 else room - |Layout(s)|
  }

  /** `p` shows `above`, then `s` typeset on `room` blank rows or more. */
  ghost predicate Shows(p: Page, above: seq<Row>, s: seq<byte>, room: nat) {
    && p.y == |above| + |Layout(s)| - 1 && p.x == Column(s)
    && Unmarked(p) == above + Layout(s) + Blanks(Left(room, s))
  }

  function Chars(text: seq<byte>): (inputs: seq<Input>)
    ensures |inputs| == |text|
  {
    seq(|text|, i requires 0 <= i < |text| => Char(text[i]))
  }

  lemma MarkAndUnmark(rows: seq<Row>, y: nat, x: nat, v: byte)
    requires y < |rows| && x < 40 && rows[y][x] == 0x20
    ensures SetCell(SetCell(rows, y, x, v), y, x, 0x20) == rows
  {
    assert rows[y][x := v][x := 0x20] == rows[y];
  }

  lemma UnmarkedBeneath(rows: seq<Row>, y: nat, x: nat, v: byte)
    requires y < |rows| && x < 40
    ensures SetCell(SetCell(rows, y, x, 0x20), y, x, v) == SetCell(rows, y, x, v)
  {
    assert rows[y][x := 0x20][x := v] == rows[y][x := v];
  }

  /** Moving to a new line below text `t` that ends in row `y`. */
  lemma NewLineShows(above: seq<Row>, t: seq<Row>, below: nat, y: nat)
    requires t != [] && y == |above| + |t| - 1 && |above| + |t| + below >= 24 && below < 24
    ensures var p := NewPageLine(above + t + Blanks(below), y);
            && p.x == 0 && p.y == y + 1
            && Unmarked(p) == above + (t + [Blank()]) + Blanks(if below == 0 then 0 else below - 1)
  {
    var rows := above + t + Blanks(below);
    var more := if below == 0 then rows + [Blank()] else rows;
    assert below > 0 ==> Blanks(below) == [Blank()] + Blanks(below - 1);
    assert more == above + (t + [Blank()]) + Blanks(if below == 0 then 0 else below - 1);
    MarkAndUnmark(more, y + 1, 0, 0);
  }

  lemma {:induction false} WrapEndsBlank(s: seq<byte>, j: nat)
    requires |s| % 40 <= j < 40
    ensures Wrap(s)[|Wrap(s)| - 1][j] == 0x20
    decreases |s|
  {
    if |s| >= 40 { WrapEndsBlank(s[40..], j); }
  }

  lemma {:induction false} LayoutEndsBlank(s: seq<byte>, j: nat)
    requires Column(s) <= j < 40
    ensures Layout(s)[|Layout(s)| - 1][j] == 0x20
    decreases |s|
  {
    hide Wrap, Layout, Column, FirstCR;
    LayoutSplits(s);
    var i := FirstCR(s);
    if i == |s| { WrapEndsBlank(s, j); } else { LayoutEndsBlank(s[i + 1..], j); }
  }

  lemma BreakShows(p: Page, above: seq<Row>, s: seq<byte>, room: nat)
    requires Shows(p, above, s, room)
    ensures Shows(PageType(p, CR), above, s + [CR], room)
  {
    hide Layout, Column, NewPageLine;
    LayoutBreaks(s);
    NewLineShows(above, Layout(s), Left(room, s), p.y);
  }

  lemma GlyphShows(p: Page, above: seq<Row>, s: seq<byte>, room: nat, v: byte)
    requires Shows(p, above, s, room) && v < 128 && Prints(v)
    ensures Shows(PageType(p, v), above, s + [Glyph(v)], room)
  {
    hide Layout, Column, NewPageLine;
    var g, t, below := Glyph(v), Layout(s), Left(room, s);
    LayoutGrows(s, g);
    UnmarkedBeneath(p.rows, p.y, p.x, g);
    var typed, rows := SetCell(t, |t| - 1, p.x, g), SetCell(p.rows, p.y, p.x, g);
    assert SetCell(Unmarked(p), p.y, p.x, g) == above + typed + Blanks(below);
    if p.x == 39 {
      NewLineShows(above, typed, below, p.y);
    } else {
      LayoutEndsBlank(s, p.x + 1);
      assert rows[p.y] == typed[|t| - 1];
      MarkAndUnmark(rows, p.y, p.x + 1, 0);
      assert typed + [] == typed;
    }
  }

  lemma OnlySevenBits(p: Page, value: byte)
    ensures PageType(p, value) == PageType(p, value % 128)
    ensures value % 128 != CR && !Prints(value % 128) ==> PageType(p, value) == p
  {
    hide NewPageLine, SetCell;
  }

  /** A page at the start of `room` blank rows takes `text`: it then shows the
      visible part of `text`, typeset. */
  lemma {:induction false} PageIsTypeset(p: Page, above: seq<Row>, room: nat, text: seq<byte>)
    requires Shows(p, above, [], room)
    ensures Shows(RunPage(p, Chars(text)), above, Visible(text), room)
    decreases text
  {
    hide Shows, PageType, Glyph, Prints;
    if text != [] {
      var k := |text| - 1;
      var v, t := text[k] % 128, Visible(text[..k]);
      PageIsTypeset(p, above, room, text[..k]);
      assert Chars(text)[..k] == Chars(text[..k]);
      var q := RunPage(p, Chars(text[..k]));
      OnlySevenBits(q, text[k]);
      if v == CR {
        BreakShows(q, above, t, room);
      } else if Prints(v) {
        GlyphShows(q, above, t, room, v);
      } else {
        assert t + [] == t;
      }
    }
  }

  /** The screen `s` without its cursor mark. */
  function Clear(s: Screen): seq<Row> { SetCell(s.rows, s.y, s.x, 0x20) }

  /** A text with room to spare is shown from the top; a longer one by its last rows. */
  function Fitted(rows: seq<Row>): Window {
    if |rows| >= 24 then LastRows(rows) else rows + Blanks(24 - |rows|)
  }

  /** Whatever was on the screen, after Ctrl-L and `text` it shows the visible
      text typeset in rows of 40, with the cursor behind the last character. */
  lemma ScreenShowsText(text: seq<byte>)
    ensures var s, t := RunScreen(Cleared(), Chars(text)), Visible(text);
            && Clear(s) == Fitted(Layout(t))
            && s.x == Column(t)
            && s.y == if |Layout(t)| >= 24 then 23 else |Layout(t)| - 1
  {
    hide Layout, Column, RunScreen, RunPage, Shows, Clear, Cleared, Fitted, FreshPage;
    ScreenIsWindowOnPage(FreshPage(), Chars(text));
    FreshPageShows();
    PageIsTypeset(FreshPage(), [], 24, text);
    WindowShows(RunPage(FreshPage(), Chars(text)), Visible(text));
  }

  /** The page that a cleared screen is the window on. */
  function FreshPage(): Page { Page(SetCell(Blanks(24), 0, 0, 0), 0, 0) }

  lemma FreshPageShows()
    ensures WindowOn(FreshPage()) == Cleared() && Shows(FreshPage(), [], [], 24)
  {
    hide Layout, Column;
    NothingTypeset();
    MarkAndUnmark(Blanks(24), 0, 0, 0);
    assert Blanks(24) == [] + [Blank()] + Blanks(23);
  }

  lemma WindowShows(q: Page, t: seq<byte>)
    requires Shows(q, [], t, 24)
    ensures var s := WindowOn(q);
            && Clear(s) == Fitted(Layout(t)) && s.x == Column(t)
            && s.y == if |Layout(t)| >= 24 then 23 else |Layout(t)| - 1
  {
    hide Layout, Column, SetCell, LastRows;
    WindowCell(q.rows, q.y, q.x, 0x20);
    var rows, n := Layout(t), Left(24, t);
    assert [] + rows == rows;
    assert Unmarked(q) == rows + Blanks(n) && |q.rows| == |rows| + n;
    LastOfPadded(rows, n);
  }

  lemma LastOfPadded(rows: seq<Row>, n: nat)
    requires n == if |rows| > 24 then 0 else 24 - |rows|
    ensures LastRows(rows + Blanks(n)) == Fitted(rows)
  {
    if |rows| >= 24 { assert rows + Blanks(n) == rows; }
  }
}
