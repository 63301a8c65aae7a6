/** The dirty-row cache of `term_ansi.c`: rows whose picture cannot have changed
    are not sent again, and the host's screen is exact all the same. */
module TermCache {
  import opened Bytes
  import opened TermPage

  const AT_SIGN: byte := 0x40

  // The host's terminal, as far as the emulator drives it

  datatype Command =
    | Goto(row: nat, col: nat)
    | Text(chars: seq<byte>)
    | EraseLine
    | EraseScreen

  /** The 24x40 corner that is drawn, and the host's own cursor. */
  datatype Host = Host(rows: Window, row: nat, col: nat)

  /** Characters outside the corner are not seen. */
  function Obey(h: Host, c: Command): Host {
    match c
    case Goto(row, col) => h.(row := row, col := col)
    case EraseLine => if h.row < 24 then h.(rows := h.rows[h.row := Blank()]) else h
    case EraseScreen => h.(rows := Blanks(24))
    case Text(chars) =>
      if h.row < 24 && h.col + |chars| <= 40 then
        var line: Row := h.rows[h.row][..h.col] + chars + h.rows[h.row][h.col + |chars|..];
        Host(h.rows[h.row := line], h.row, h.col + |chars|)
      else h.(col := h.col + |chars|)
  }

  function ObeyAll(h: Host, cs: seq<Command>): Host
    decreases cs
  {
    if cs == [] then h else Obey(ObeyAll(h, cs[..|cs| - 1]), cs[|cs| - 1])
  }

  // Pictures

  /** The cursor mark blinks between an at sign and a space. */
  function Shown(v: byte, blinkOn: bool): byte {
    if v == 0 then (if blinkOn then AT_SIGN else 0x20) else v
  }

  function Render(row: Row, blinkOn: bool): Row {
    seq(40, x requires 0 <= x < 40 => Shown(row[x], blinkOn))
  }

  function RenderAll(rows: Window, blinkOn: bool): Window {
    seq(24, y requires 0 <= y < 24 => Render(rows[y], blinkOn))
  }

  // The terminal

  datatype Term = Term(
    screen: Screen, shadow: Window, shadowBlink: bool, shadowValid: bool, host: Host, pasting: bool)

  /** `row_needs_repaint` for one row. */
  predicate NeedsRepaint(valid: bool, row: Row, shadow: Row, blinkOn: bool, shadowBlink: bool) {
    || !valid
    || row != shadow
    || (blinkOn != shadowBlink && (0 in row || 0 in shadow))
  }

  predicate Dirty(t: Term, y: nat, blinkOn: bool)
    requires y < 24
  {
    NeedsRepaint(t.shadowValid, t.screen.rows[y], t.shadow[y], blinkOn, t.shadowBlink)
  }

  /** Rows `from` on of one update. */
  function Paint(t: Term, blinkOn: bool, from: nat): Term
    requires from <= 24
    decreases 24 - from
  {
    if from == 24 then t
    else if Dirty(t, from, blinkOn) then
      var row := t.screen.rows[from];
      var h := Obey(Obey(t.host, Goto(from, 0)), Text(Render(row, blinkOn)));
      Paint(t.(host := h, shadow := t.shadow[from := row]), blinkOn, from + 1)
    else Paint(t, blinkOn, from + 1)
  }

  /** `term_update`. */
  function Update(t: Term, blinkOn: bool): Term {
    if t.pasting then t
    else Paint(t, blinkOn, 0).(shadowBlink := blinkOn, shadowValid := true)
  }

  function EraseLines(from: nat): seq<Command>
    requires from <= 24
    decreases 24 - from
  {
    if from == 24 then [] else [Goto(from, 0), EraseLine] + EraseLines(from + 1)
  }

  /** What `term_clear_host_screen` sends. */
  function EraseCommands(): seq<Command> { [EraseScreen, Goto(0, 0)] + EraseLines(0) + [Goto(0, 0)] }

  function ClearHost(t: Term): Term {
    t.(host := ObeyAll(t.host, EraseCommands()), shadowValid := false)
  }

  lemma {:induction false} EraseLinesBlank(h: Host, cs: seq<Command>)
    requires h.rows == Blanks(24) && forall c :: c in cs ==> !c.Text?
    ensures ObeyAll(h, cs).rows == Blanks(24)
    decreases cs
  {
    if cs != [] { EraseLinesBlank(h, cs[..|cs| - 1]); }
  }

  lemma {:induction false} EraseLinesHaveNoText(from: nat)
    requires from <= 24
    ensures forall c :: c in EraseLines(from) ==> !c.Text?
    decreases 24 - from
  {
    if from < 24 { EraseLinesHaveNoText(from + 1); }
  }

  lemma {:induction false} ObeyConcat(h: Host, cs: seq<Command>, ds: seq<Command>)
    ensures ObeyAll(h, cs + ds) == ObeyAll(ObeyAll(h, cs), ds)
    decreases ds
  {
    hide Obey;
    if ds == [] {
      assert cs + ds == cs;
    } else {
      var k := |ds| - 1;
      ObeyConcat(h, cs, ds[..k]);
      assert (cs + ds)[..|cs + ds| - 1] == cs + ds[..k];
    }
  }

  /** Clearing the host leaves no row of an earlier picture behind. */
  lemma HostIsErased(t: Term)
    ensures ClearHost(t).host.rows == Blanks(24)
  {
    hide EraseLines;
    var rest := [Goto(0, 0)] + EraseLines(0) + [Goto(0, 0)];
    assert EraseCommands() == [EraseScreen] + rest;
    ObeyConcat(t.host, [EraseScreen], rest);
    EraseLinesHaveNoText(0);
    assert [EraseScreen][..0] == [];
    EraseLinesBlank(ObeyAll(t.host, [EraseScreen]), rest);
  }

  // Runs

  datatype Event = Input(input: Input) | Refresh(blinkOn: bool) | EraseHost | Paste(on: bool)

  function React(t: Term, e: Event): Term {
    match e
    case Input(i) => t.(screen := Take(t.screen, i))
    case Refresh(blinkOn) => Update(t, blinkOn)
    case EraseHost => ClearHost(t)
    case Paste(on) => t.(pasting := on)
  }

  function Run(t: Term, events: seq<Event>): Term
    decreases events
  {
    if events == [] then t else React(Run(t, events[..|events| - 1]), events[|events| - 1])
  }

  /** The cache's promise: a valid shadow is what the host shows. */
  predicate Cached(t: Term) {
    t.shadowValid ==> forall y :: 0 <= y < 24 ==> t.host.rows[y] == Render(t.shadow[y], t.shadowBlink)
  }

  lemma PaintsLine(h: Host, y: nat, line: Row)
    requires y < 24
    ensures Obey(Obey(h, Goto(y, 0)), Text(line)) == Host(h.rows[y := line], y, 40)
  {
    var r := h.rows[y];
    assert r[..0] + line + r[0 + |line|..] == line;
  }

  /** A row is skipped exactly when nothing about it changed: neither its cells
      nor, blinking included, its picture. */
  lemma SkippedExactlyWhenRedundant(row: Row, shadow: Row, blinkOn: bool, shadowBlink: bool)
    ensures NeedsRepaint(true, row, shadow, blinkOn, shadowBlink) <==>
            row != shadow || Render(row, blinkOn) != Render(shadow, shadowBlink)
  {
    var r, s := Render(row, blinkOn), Render(shadow, shadowBlink);
    if row == shadow && blinkOn != shadowBlink && 0 in row {
      var x :| 0 <= x < 40 && row[x] == 0;
      assert r[x] != s[x];
    }
    if row == shadow && 0 !in row {
      assert forall x :: 0 <= x < 40 ==> row[x] in row;
      assert r == s;
    }
  }

  /** What one update leaves of row `y`. */
  lemma {:induction false} PaintIsExact(t: Term, blinkOn: bool, from: nat)
    requires from <= 24
    requires forall y :: from <= y < 24 ==> t.shadowValid ==> t.host.rows[y] == Render(t.shadow[y], t.shadowBlink)
    ensures var t' := Paint(t, blinkOn, from);
            && t'.screen == t.screen && t'.pasting == t.pasting
            && (forall y :: 0 <= y < from ==> t'.host.rows[y] == t.host.rows[y] && t'.shadow[y] == t.shadow[y])
            && (forall y :: from <= y < 24 ==> t'.host.rows[y] == Render(t.screen.rows[y], blinkOn))
            && (forall y :: from <= y < 24 ==> t'.shadow[y] == t.screen.rows[y])
    decreases 24 - from
  {
    hide Render, NeedsRepaint, Obey;
    if from < 24 {
      var row := t.screen.rows[from];
      if Dirty(t, from, blinkOn) {
        PaintsLine(t.host, from, Render(row, blinkOn));
        var h := Obey(Obey(t.host, Goto(from, 0)), Text(Render(row, blinkOn)));
        PaintIsExact(t.(host := h, shadow := t.shadow[from := row]), blinkOn, from + 1);
      } else {
        CleanMeansValid(t.shadowValid, row, t.shadow[from], blinkOn, t.shadowBlink);
        SkippedExactlyWhenRedundant(row, t.shadow[from], blinkOn, t.shadowBlink);
        PaintIsExact(t, blinkOn, from + 1);
      }
    }
  }

  lemma CleanMeansValid(valid: bool, row: Row, shadow: Row, blinkOn: bool, shadowBlink: bool)
    requires !NeedsRepaint(valid, row, shadow, blinkOn, shadowBlink)
    ensures valid && !NeedsRepaint(true, row, shadow, blinkOn, shadowBlink)
  {
  }

  lemma UpdateIsExact(t: Term, blinkOn: bool)
    requires Cached(t) && !t.pasting
    ensures var t' := Update(t, blinkOn);
            t'.host.rows == RenderAll(t.screen.rows, blinkOn) && t'.screen == t.screen && Cached(t')
  {
    hide Render, Paint;
    PaintIsExact(t, blinkOn, 0);
  }

  lemma {:induction false} RunsStayCached(t: Term, events: seq<Event>)
    requires Cached(t)
    ensures Cached(Run(t, events))
    decreases events
  {
    hide Update, ClearHost;
    if events != [] {
      var k := |events| - 1;
      RunsStayCached(t, events[..k]);
      var u := Run(t, events[..k]);
      match events[k]
      case Refresh(blinkOn) => { if u.pasting { UpdateWaits(u, blinkOn); } else { UpdateIsExact(u, blinkOn); } }
      case EraseHost => ClearHostForgets(u);
      case Input(_) => {}
      case Paste(_) => {}
    }
  }

  lemma UpdateWaits(t: Term, blinkOn: bool)
    requires t.pasting
    ensures Update(t, blinkOn) == t
  {
  }

  lemma ClearHostForgets(t: Term)
    ensures Cached(ClearHost(t)) && ClearHost(t).screen == t.screen && ClearHost(t).pasting == t.pasting
  {
  }

  /** The inputs among the events. */
  function Inputs(events: seq<Event>): seq<Input>
    decreases events
  {
    if events == [] then []
    else
      var k := |events| - 1;
      Inputs(events[..k]) + if events[k].Input? then [events[k].input] else []
  }

  lemma {:induction false} OnlyInputsMoveTheScreen(t: Term, events: seq<Event>)
    ensures Run(t, events).screen == RunScreen(t.screen, Inputs(events))
    decreases events
  {
    hide Update, ClearHost, Take;
    if events != [] {
      var k := |events| - 1;
      OnlyInputsMoveTheScreen(t, events[..k]);
      var u, ins := Run(t, events[..k]), Inputs(events[..k]);
      match events[k]
      case Refresh(blinkOn) => {
        assert ins + [] == ins;
        UpdateKeepsScreen(u, blinkOn);
      }
      case EraseHost => {
        assert ins + [] == ins;
        ClearHostForgets(u);
      }
      case Input(i) => assert (ins + [i])[..|ins|] == ins;
      case Paste(_) => assert ins + [] == ins;
    }
  }

  lemma {:induction false} PaintKeepsScreen(t: Term, blinkOn: bool, from: nat)
    requires from <= 24
    ensures Paint(t, blinkOn, from).screen == t.screen
    decreases 24 - from
  {
    hide Obey, Render, NeedsRepaint;
    if from < 24 {
      var row := t.screen.rows[from];
      var h := Obey(Obey(t.host, Goto(from, 0)), Text(Render(row, blinkOn)));
      PaintKeepsScreen(t.(host := h, shadow := t.shadow[from := row]), blinkOn, from + 1);
      PaintKeepsScreen(t, blinkOn, from + 1);
    }
  }

  lemma UpdateKeepsScreen(t: Term, blinkOn: bool)
    ensures Update(t, blinkOn).screen == t.screen
  {
    PaintKeepsScreen(t, blinkOn, 0);
  }

  /** After any run, an update that is not held back by a paste leaves on the
      host the full rendering of the screen the inputs alone produce, whatever was
      skipped on the way.  A cache that is still invalid is `Cached`. */
  lemma HostShowsScreen(t: Term, events: seq<Event>, blinkOn: bool)
    requires Cached(t) && !Run(t, events).pasting
    ensures Run(t, events + [Refresh(blinkOn)]).host.rows ==
            RenderAll(RunScreen(t.screen, Inputs(events)).rows, blinkOn)
  {
    hide Update, RenderAll, Inputs;
    RunsStayCached(t, events);
    OnlyInputsMoveTheScreen(t, events);
    UpdateIsExact(Run(t, events), blinkOn);
    var all := events + [Refresh(blinkOn)];
    assert all[..|all| - 1] == events;
  }
}
