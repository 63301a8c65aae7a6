/** The terminal of `term_ansi.c` as it runs: static arrays updated in place,
    proved against `TermPage` and `TermCache`. */
module Terminal {
  import opened Bytes
  import opened TermPage
  import opened TermCache

  predicate IsScreen(a: array2<byte>) { a.Length0 == 24 && a.Length1 == 40 }

  ghost function RowAt(a: array2<byte>, y: nat): Row
    requires IsScreen(a) && y < 24
    reads a
  {
    seq(40, x requires 0 <= x < 40 reads a => a[y, x])
  }

  ghost function Grid(a: array2<byte>): Window
    requires IsScreen(a)
    reads a
  {
    seq(24, y requires 0 <= y < 24 reads a => RowAt(a, y))
  }

  method PutCell(a: array2<byte>, y: nat, x: nat, v: byte)
    requires IsScreen(a) && y < 24 && x < 40
    modifies a
    ensures Grid(a) == SetCell(old(Grid(a)), y, x, v)
  {
    ghost var before := Grid(a);
    a[y, x] := v;
    forall r | 0 <= r < 24
      ensures Grid(a)[r] == SetCell(before, y, x, v)[r]
    {
      assert RowAt(a, r) == SetCell(before, y, x, v)[r];
    }
  }

  /** `scroll_up`. */
  method ScrollUp(a: array2<byte>)
    requires IsScreen(a)
    modifies a
    ensures Grid(a) == old(Grid(a))[1..] + [Blank()]
  {
    var y := 0;
    while y < 23
      invariant 0 <= y <= 23
      invariant forall r, x :: 0 <= r < y && 0 <= x < 40 ==> a[r, x] == old(a[r + 1, x])
      invariant forall r, x :: y <= r < 24 && 0 <= x < 40 ==> a[r, x] == old(a[r, x])
    {
      forall x | 0 <= x < 40 { a[y, x] := a[y + 1, x]; }
      y := y + 1;
    }
    forall x | 0 <= x < 40 { a[23, x] := 0x20; }
    forall r | 0 <= r < 23
      ensures Grid(a)[r] == old(Grid(a))[r + 1]
    {
      assert RowAt(a, r) == old(RowAt(a, r + 1));
    }
    assert RowAt(a, 23) == Blank();
  }

  lemma Checkerboard(a: array2<byte>)
    requires IsScreen(a)
    requires forall y, x :: 0 <= y < 24 && 0 <= x < 40 ==> a[y, x] == if (x + y) % 2 == 1 then 0x5F else 0x00
    ensures Grid(a) == PowerOnRows() && Grid(a)[0][0] == 0
  {
    forall r | 0 <= r < 24
      ensures Grid(a)[r] == PowerOnRows()[r]
    {
      assert RowAt(a, r) == PowerOnRow(r);
    }
  }

  /** `memset` of the whole screen to spaces. */
  method FillBlank(a: array2<byte>)
    requires IsScreen(a)
    modifies a
    ensures Grid(a) == Blanks(24)
  {
    forall y, x | 0 <= y < 24 && 0 <= x < 40 { a[y, x] := 0x20; }
    forall r | 0 <= r < 24
      ensures Grid(a)[r] == Blank()
    {
      assert RowAt(a, r) == Blank();
    }
  }

  /** `memcpy` of one row. */
  method CopyRow(src: array2<byte>, dst: array2<byte>, y: nat)
    requires IsScreen(src) && IsScreen(dst) && src != dst && y < 24
    modifies dst
    ensures Grid(dst) == old(Grid(dst))[y := RowAt(src, y)]
  {
    ghost var before := Grid(dst);
    forall x | 0 <= x < 40 { dst[y, x] := src[y, x]; }
    forall r | 0 <= r < 24
      ensures Grid(dst)[r] == before[y := RowAt(src, y)][r]
    {
      assert RowAt(dst, r) == before[y := RowAt(src, y)][r];
    }
  }

  datatype Key = Nothing | Pressed(code: byte) | Quit

  class Console {
    const vram: array2<byte>
    const shadow: array2<byte>
    var shadowBlink: bool
    var shadowValid: bool
    var cursorX: nat
    var cursorY: nat
    var pasting: bool
    var resetPending: bool
    var host: Host            // the user's terminal, moved by what is sent to it

    ghost predicate Valid()
      reads this, vram
    {
      && IsScreen(vram) && IsScreen(shadow) && vram != shadow
      && cursorX < 40 && cursorY < 24 && Grid(vram)[cursorY][cursorX] == 0
    }

    ghost function State(): Term
      requires Valid()
      reads this, vram, shadow
    {
      Term(Screen(Grid(vram), cursorX, cursorY), Grid(shadow), shadowBlink, shadowValid, host, pasting)
    }

    /** `term_init`: the power-on checkerboard and a host that shows nothing of it. */
    constructor (hostBefore: Host)
      ensures Valid() && fresh(vram) && fresh(shadow)
      ensures State().screen == Screen(PowerOnRows(), 0, 0)
      ensures !State().shadowValid && !State().pasting
      ensures host.rows == Blanks(24)
    {
      vram := new byte[24, 40]((y: nat, x: nat) => if (x + y) % 2 == 1 then 0x5F else 0x00);
      shadow := new byte[24, 40]((_, _) => 0);
      cursorX, cursorY := 0, 0;
      shadowBlink, shadowValid, pasting, resetPending := false, false, false, false;
      host := hostBefore;
      new;
      hide ObeyAll, EraseCommands;
      Checkerboard(vram);
      HostIsErased(State());
      EraseHostScreen();
    }

    method Send(c: Command)
      modifies this`host
      ensures host == Obey(old(host), c)
    {
      host := Obey(host, c);
    }

    /** `term_clear_host_screen`. */
    method EraseHostScreen()
      requires Valid()
      modifies this`host, this`shadowValid
      ensures Valid() && State() == ClearHost(old(State()))
    {
      hide Obey, ObeyAll, EraseLines, Grid;
      ghost var h0 := host;
      shadowValid := false;
      Send(EraseScreen);
      Send(Goto(0, 0));
      ghost var sent := [EraseScreen, Goto(0, 0)];
      assert host == ObeyAll(h0, sent) by { TwoCommands(h0, EraseScreen, Goto(0, 0)); }
      var y := 0;
      while y < 24
        invariant 0 <= y <= 24
        invariant !shadowValid && Valid() && host == ObeyAll(h0, sent)
        invariant sent + EraseLines(y) == [EraseScreen, Goto(0, 0)] + EraseLines(0)
      {
        ghost var pair := [Goto(y, 0), EraseLine];
        Send(Goto(y, 0));
        Send(EraseLine);
        ObeyConcat(h0, sent, pair);
        TwoCommands(ObeyAll(h0, sent), Goto(y, 0), EraseLine);
        EraseNextLine(y);
        assert sent + (pair + EraseLines(y + 1)) == (sent + pair) + EraseLines(y + 1);
        sent := sent + pair;
        y := y + 1;
      }
      Send(Goto(0, 0));
      OneMore(h0, sent, Goto(0, 0));
      assert sent + EraseLines(24) == sent by { assert EraseLines(24) == [] by { NoMoreLines(); } }
      assert sent + [Goto(0, 0)] == EraseCommands();
    }

    // Drawing into video memory

    /** The tail shared by a carriage return and a full line. */
    method LineFeed()
      requires IsScreen(vram) && cursorY < 24
      modifies this`cursorX, this`cursorY, vram
      ensures IsScreen(vram) && cursorX == 0 && cursorY < 24
      ensures SetCell(Grid(vram), cursorY, 0, 0) == NewLine(old(Grid(vram)), old(cursorY)).rows
      ensures cursorY == NewLine(old(Grid(vram)), old(cursorY)).y
    {
      hide Grid;
      cursorX := 0;
      cursorY := cursorY + 1;
      if cursorY >= 24 {
        ScrollUp(vram);
        cursorY := 23;
      }
    }

    /** `term_write`.  A backspace is ignored like any other control character;
        the code's test for $5F is never reached, since $5F prints. */
    method Write(value: byte)
      requires Valid()
      modifies this`cursorX, this`cursorY, vram
      ensures Valid()
      ensures State() == old(State()).(screen := Type(old(State()).screen, value))
    {
      hide Grid, SetCell;
      var v := value % 128;
      if v == 0x0D || v == 0x0A {
        if v == 0x0D {
          PutCell(vram, cursorY, cursorX, 0x20);
          LineFeed();
          PutCell(vram, cursorY, cursorX, 0x00);
        }
      } else if 0x20 <= v <= 0x7E {
        var glyph := v;
        if 0x61 <= glyph <= 0x7A { glyph := glyph - 32; }
        PutCell(vram, cursorY, cursorX, glyph);
        cursorX := cursorX + 1;
        if cursorX >= 40 { LineFeed(); }
        CellIsSet(Grid(vram), cursorY, cursorX, 0x00);
        PutCell(vram, cursorY, cursorX, 0x00);
      }
    }

    /** The key handling of `term_poll` outside pastes and escape sequences;
        zero means that nothing was typed. */
    method Poll(ch: byte) returns (key: Key)
      requires Valid()
      modifies this, vram
      ensures Valid()
      ensures State() == if ch == 0x0C then old(State()).(screen := Cleared())
                         else if ch == 3 then ClearHost(old(State())) else old(State())
      ensures resetPending == (old(resetPending) || ch == 0x12 || ch == 0x14)
      ensures key == if ch == 3 then Quit
                     else if ch in {0, 0x0C, 0x12, 0x14} then Nothing
                     else Pressed(128 + (if ch == 0x0A then 0x0D else Glyph(ch)) % 128)
    {
      hide Grid, SetCell, ObeyAll, EraseCommands;
      if ch == 0 { return Nothing; }
      if ch == 3 {
        EraseHostScreen();
        return Quit;
      }
      var c := ch;
      if c == 0x0A { c := 0x0D; }
      if c == 0x0C {
        FillBlank(vram);
        cursorX, cursorY := 0, 0;
        CellIsSet(Grid(vram), 0, 0, 0x00);
        PutCell(vram, 0, 0, 0x00);
        return Nothing;
      }
      if c == 0x12 || c == 0x14 {
        resetPending := true;
        return Nothing;
      }
      if 0x61 <= c <= 0x7A { c := c - 32; }
      key := Pressed(128 + c % 128);
    }

    // Redrawing the host

    /** `row_needs_repaint`. */
    method RowNeedsRepaint(y: nat, blinkOn: bool) returns (dirty: bool)
      requires Valid() && y < 24
      ensures dirty == Dirty(State(), y, blinkOn)
    {
      ghost var row, old' := RowAt(vram, y), RowAt(shadow, y);
      if !shadowValid { return true; }
      var hasBlinking := false;
      var x := 0;
      while x < 40
        invariant 0 <= x <= 40
        invariant row[..x] == old'[..x]
        invariant hasBlinking <==> 0 in row[..x] || 0 in old'[..x]
      {
        assert row[x] == vram[y, x] && old'[x] == shadow[y, x];
        if vram[y, x] != shadow[y, x] { return true; }
        if vram[y, x] == 0 || shadow[y, x] == 0 { hasBlinking := true; }
        assert row[..x + 1] == row[..x] + [row[x]] && old'[..x + 1] == old'[..x] + [old'[x]];
        x := x + 1;
      }
      assert row[..40] == row && old'[..40] == old';
      dirty := hasBlinking && blinkOn != shadowBlink;
    }

    /** The characters of one row, the cursor mark at its current phase. */
    method BuildLine(y: nat, blinkOn: bool) returns (line: array<byte>)
      requires Valid() && y < 24
      ensures fresh(line) && line[..] == Render(RowAt(vram, y), blinkOn)
    {
      line := new byte[40](_ => 0);
      var x := 0;
      while x < 40
        invariant 0 <= x <= 40
        invariant forall i :: 0 <= i < x ==> line[i] == Shown(vram[y, i], blinkOn)
      {
        var c := vram[y, x];
        if c == 0x00 {
          line[x] := if blinkOn then 0x40 else 0x20;
        } else {
          line[x] := c;
        }
        x := x + 1;
      }
    }

    /** `term_update` at clock reading `now`, in microseconds. */
    method Redraw(now: nat)
      requires Valid()
      modifies this`host, this`shadowBlink, this`shadowValid, shadow
      ensures Valid() && State() == Update(old(State()), now / 250000 % 2 == 1)
    {
      hide Grid, Render, NeedsRepaint, Obey;
      if pasting { return; }
      var blinkOn := now / 250000 % 2 == 1;
      ghost var painted := Paint(State(), blinkOn, 0);
      var y := 0;
      while y < 24
        invariant 0 <= y <= 24 && Valid()
        invariant !pasting && Grid(vram) == old(Grid(vram))
        invariant Paint(State(), blinkOn, y) == painted
      {
        var dirty := RowNeedsRepaint(y, blinkOn);
        if dirty {
          ghost var before := State();
          Send(Goto(y, 0));
          var line := BuildLine(y, blinkOn);
          Send(Text(line[..]));
          CopyRow(vram, shadow, y);
          GridRow(vram, y);
          assert State() == before.(host := host, shadow := Grid(shadow));
        }
        y := y + 1;
      }
      shadowBlink := blinkOn;
      shadowValid := true;
    }
  }

  lemma GridRow(a: array2<byte>, y: nat)
    requires IsScreen(a) && y < 24
    ensures Grid(a)[y] == RowAt(a, y)
  {
  }

  lemma TwoCommands(h: Host, c: Command, d: Command)
    ensures ObeyAll(h, [c, d]) == Obey(Obey(h, c), d)
  {
    assert [c, d][..1] == [c] && [c][..0] == [];
    assert ObeyAll(h, [c]) == Obey(ObeyAll(h, []), c);
  }

  lemma OneMore(h: Host, cs: seq<Command>, c: Command)
    ensures ObeyAll(h, cs + [c]) == Obey(ObeyAll(h, cs), c)
  {
    assert (cs + [c])[..|cs|] == cs;
  }

  lemma NoMoreLines()
    ensures EraseLines(24) == []
  {
  }

  lemma EraseNextLine(y: nat)
    requires y < 24
    ensures EraseLines(y) == [Goto(y, 0), EraseLine] + EraseLines(y + 1)
  {
  }

  lemma CellIsSet(rows: seq<Row>, y: nat, x: nat, v: byte)
    requires y < |rows| && x < 40
    ensures SetCell(rows, y, x, v)[y][x] == v
  {
  }
}
