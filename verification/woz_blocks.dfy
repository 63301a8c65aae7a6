/** Woz text and `bus_load_bin_buf` agree: a document leaves RAM as loading its
    blocks one by one would, and reports the run address. */
module WozBlocks {
  import opened Bytes
  import opened BusModel
  import opened Chars
  import opened WozText
  import opened WozPrint

  datatype Block = Block(addr: word, bytes: seq<byte>)

  /** `bus_load_bin_buf` on each block in turn. */
  function LoadBlocks(ram: seq<byte>, blocks: seq<Block>): seq<byte>
    decreases blocks
  {
    if blocks == [] then ram
    else LoadBlocks(LoadBin(ram, blocks[0].addr, blocks[0].bytes).ram, blocks[1..])
  }

  /** The binary loader accepts every block that has any bytes. */
  ghost predicate AllFit(ramSize: nat, blocks: seq<Block>) {
    forall b :: b in blocks ==> Fits(ramSize, b.addr, |b.bytes|)
  }

  // Poking is copying

  lemma {:induction false} PokeAllConcat(w: Loader, xs: seq<byte>, ys: seq<byte>)
    ensures PokeAll(w, xs + ys) == PokeAll(PokeAll(w, xs), ys)
    decreases xs
  {
    if xs == [] {
      assert xs + ys == ys;
    } else {
      assert (xs + ys)[1..] == xs[1..] + ys;
      PokeAllConcat(Poke(w, xs[0]), xs[1..], ys);
    }
  }

  lemma PokeInside(v: Loader, a: word, k: nat, b: byte)
    requires Fits(|v.ram|, a, k + 1) && v.addr == Wrap16(a + k)
    ensures a + k < 0x1_0000 && IsRam(|v.ram|, a + k)
    ensures Poke(v, b).ram == v.ram[Translate(|v.ram|, a + k) := b]
    ensures Poke(v, b).addr == Wrap16(a + k + 1)
  {
    hide IsRam, Translate;
    var at: word := a + k;
    assert IsRam(|v.ram|, at);
  }

  lemma PokeOne(v: Loader, b: byte)
    ensures PokeAll(v, [b]) == Poke(v, b)
  {
    hide Poke;
  }

  lemma {:induction false} PokingIsCopying(w: Loader, a: word, bs: seq<byte>)
    requires Fits(|w.ram|, a, |bs|) && w.addr == a
    ensures PokeAll(w, bs).ram == CopyIn(w.ram, a, bs)
    ensures PokeAll(w, bs).addr == Wrap16(a + |bs|)
    decreases bs
  {
    hide IsRam, Translate, Poke;
    if bs != [] {
      var k := |bs| - 1;
      PokingIsCopying(w, a, bs[..k]);
      PokeAllConcat(w, bs[..k], [bs[k]]);
      assert bs[..k] + [bs[k]] == bs;
      var v := PokeAll(w, bs[..k]);
      PokeInside(v, a, k, bs[k]);
      PokeOne(v, bs[k]);
    }
  }

  lemma PokingIsLoading(w: Loader, b: Block)
    requires Fits(|w.ram|, b.addr, |b.bytes|) && w.addr == b.addr
    ensures PokeAll(w, b.bytes).ram == LoadBin(w.ram, b.addr, b.bytes).ram
  {
    PokingIsCopying(w, b.addr, b.bytes);
  }

  // The blocks a document denotes

  function EndBytes(e: End): seq<byte> { if e.ShortRun? then [] else e.bytes }

  /** `open` is the block being filled when `items` begin. */
  function Denote(items: seq<Item>, e: End, open: Block): seq<Block>
    decreases items
  {
    if items == [] then [open.(bytes := open.bytes + EndBytes(e))]
    else
      var filled := open.(bytes := open.bytes + items[0].bytes);
      if items[0].Address? then [filled] + Denote(items[1..], e, Block(items[0].addr, []))
      else Denote(items[1..], e, filled)
  }

  /** Bytes before the first address go to address 0. */
  function Blocks(d: Doc): seq<Block> { Denote(d.items, d.end, Block(0, [])) }

  function RunOf(e: End): RunAddress { if e.RunCmd? then RunAt(e.addr) else NoRun }

  /** A text without any address or data is an error, run command or not. */
  function StatusOf(d: Doc): Status {
    if Print(d) == "" then InvalidInput
    else if d.items == [] && EndBytes(d.end) == [] then BadFormat
    else Ok
  }

  /** `w` has just poked the bytes of `open` on top of `v`. */
  ghost predicate Filling(v: Loader, open: Block, w: Loader) {
    v.addr == open.addr && w.ram == PokeAll(v, open.bytes).ram && w.addr == PokeAll(v, open.bytes).addr
  }

  lemma {:induction false} PokesCount(w: Loader, bs: seq<byte>)
    ensures var w' := PokeAll(w, bs); w'.run == w.run && w'.first == w.first && w'.total == w.total + |bs|
    decreases bs
  {
    if bs != [] { PokesCount(Poke(w, bs[0]), bs[1..]); }
  }

  /** Poking looks at RAM and address only. */
  lemma {:induction false} PokesAlike(v: Loader, w: Loader, bs: seq<byte>)
    requires v.ram == w.ram && v.addr == w.addr
    ensures PokeAll(v, bs).ram == PokeAll(w, bs).ram && PokeAll(v, bs).addr == PokeAll(w, bs).addr
    decreases bs
  {
    if bs != [] { PokesAlike(Poke(v, bs[0]), Poke(w, bs[0]), bs[1..]); }
  }

  lemma FillMore(v: Loader, open: Block, w: Loader, bs: seq<byte>)
    requires Filling(v, open, w)
    ensures Filling(v, open.(bytes := open.bytes + bs), PokeAll(w, bs))
  {
    PokeAllConcat(v, open.bytes, bs);
    PokesAlike(PokeAll(v, open.bytes), w, bs);
  }

  lemma {:induction false} EffectLoadsBlocks(items: seq<Item>, e: End, v: Loader, open: Block, w: Loader)
    requires Filling(v, open, w)
    requires AllFit(|v.ram|, Denote(items, e, open))
    ensures Effect(items, e, w).ram == LoadBlocks(v.ram, Denote(items, e, open))
    decreases items
  {
    hide PokeAll, LoadBin, Fits, Filling;
    if items == [] {
      var filled := open.(bytes := open.bytes + EndBytes(e));
      FillMore(v, open, w, EndBytes(e));
      PokeNothing(w);
      assert filled in Denote(items, e, open);
      FilledLoads(v, filled, PokeAll(w, EndBytes(e)));
    } else {
      var filled, w1 := open.(bytes := open.bytes + items[0].bytes), PokeAll(w, items[0].bytes);
      FillMore(v, open, w, items[0].bytes);
      if items[0].Address? {
        var next := Block(items[0].addr, []);
        var rest := Denote(items[1..], e, next);
        assert Denote(items, e, open) == [filled] + rest;
        assert filled in [filled] + rest;
        assert forall b :: b in rest ==> b in [filled] + rest;
        FilledLoads(v, filled, w1);
        var v1 := w1.(addr := items[0].addr, first := false);
        FillNothing(v1, next);
        EffectLoadsBlocks(items[1..], e, v1, next, v1);
      } else {
        EffectLoadsBlocks(items[1..], e, v, filled, w1);
      }
    }
  }

  lemma FilledLoads(v: Loader, b: Block, w: Loader)
    requires Filling(v, b, w) && Fits(|v.ram|, b.addr, |b.bytes|)
    ensures w.ram == LoadBin(v.ram, b.addr, b.bytes).ram && |w.ram| == |v.ram|
  {
    PokingIsLoading(v, b);
  }

  lemma FillNothing(v: Loader, b: Block)
    requires v.addr == b.addr && b.bytes == []
    ensures Filling(v, b, v)
  {
  }

  lemma PokeNothing(w: Loader)
    ensures PokeAll(w, []) == w && |PokeAll(w, []).ram| == |w.ram|
  {
  }

  /** Run address, and whether anything was loaded: an address or a byte. */
  lemma {:induction false} EffectReports(items: seq<Item>, e: End, w: Loader)
    requires GoodItems(items) && w.run == NoRun
    ensures var w' := Effect(items, e, w);
            && w'.run == RunOf(e) && w'.total >= w.total && (!w.first ==> !w'.first)
            && (w'.total == 0 && w'.first <==> w.total == 0 && w.first && items == [] && EndBytes(e) == [])
    decreases items
  {
    hide PokeAll;
    if items == [] {
      PokesCount(w, EndBytes(e));
      PokeNothing(w);
    } else {
      assert items[0] in items && forall i :: i in items[1..] ==> i in items;
      PokesCount(w, items[0].bytes);
      var w1 := PokeAll(w, items[0].bytes);
      EffectReports(items[1..], e, if items[0].Address? then w1.(addr := items[0].addr, first := false) else w1);
    }
  }

  /** Any well-formed document leaves RAM as loading its blocks one by one would,
      and its run command is reported. */
  lemma TextLoadsLikeBinary(ram: seq<byte>, d: Doc)
    requires GoodDoc(d) && AllFit(|ram|, Blocks(d))
    ensures LoadWoz(ram, Print(d)) == Loaded(StatusOf(d), LoadBlocks(ram, Blocks(d)), RunOf(d.end))
  {
    hide Clean, Parse, Print, Denote, Effect, Filling;
    var w := Loader(ram, 0, true, 0, NoRun);
    ReadsDocument(d, w);
    EffectReports(d.items, d.end, w);
    FillNothing(w, Block(0, []));
    EffectLoadsBlocks(d.items, d.end, w, Block(0, []), w);
    if Print(d) == "" { PrintsNothing(d, w); }
  }

  lemma PrintsNothing(d: Doc, w: Loader)
    requires Print(d) == "" && GoodDoc(d)
    ensures Effect(d.items, d.end, w) == w
  {
    hide Effect;
    ReadsDocument(d, w);
    assert Clean("", false) == "" && Parse("", w) == w;
  }

  /** An empty first block changes nothing. */
  lemma EmptyBlockLoads(ram: seq<byte>, blocks: seq<Block>)
    ensures LoadBlocks(ram, [Block(0, [])] + blocks) == LoadBlocks(ram, blocks)
    ensures AllFit(|ram|, blocks) ==> AllFit(|ram|, [Block(0, [])] + blocks)
  {
    assert ([Block(0, [])] + blocks)[1..] == blocks;
    assert LoadBin(ram, 0, []).ram == ram;
  }

  // Printing blocks as lines

  /** A line `AAAA: HH HH ...`: each byte is followed by blanks, comments or
      continuation colons. */
  datatype Line = Line(addr: word, before: seq<Part>, after: seq<Part>, bytes: seq<(byte, seq<Part>)>)

  ghost predicate GoodLine(l: Line) {
    && GoodGap(l.before) && Colon !in l.before && GoodGap(l.after)
    && forall i :: 0 <= i < |l.bytes| ==> l.bytes[i].1 != [] && GoodGap(l.bytes[i].1)
  }

  function Values(bytes: seq<(byte, seq<Part>)>): seq<byte> {
    seq(|bytes|, i requires 0 <= i < |bytes| => bytes[i].0)
  }

  function LineBlock(l: Line): Block { Block(l.addr, Values(l.bytes)) }

  function Tokens(bytes: seq<(byte, seq<Part>)>): seq<Item> {
    seq(|bytes|, i requires 0 <= i < |bytes| => Data([bytes[i].0], bytes[i].1))
  }

  function LineItems(l: Line): seq<Item> { [Address([], l.addr, l.before, l.after)] + Tokens(l.bytes) }

  function Lines(ls: seq<Line>): seq<Item> { if ls == [] then [] else LineItems(ls[0]) + Lines(ls[1..]) }

  function LineBlocks(ls: seq<Line>): (blocks: seq<Block>)
    ensures |blocks| == |ls|
  {
    if ls == [] then [] else [LineBlock(ls[0])] + LineBlocks(ls[1..])
  }

  /** Bytes glued to the run command belong to the last block. */
  function AddToLast(blocks: seq<Block>, extra: seq<byte>): seq<Block>
    requires blocks != []
  {
    var k := |blocks| - 1;
    blocks[k := blocks[k].(bytes := blocks[k].bytes + extra)]
  }

  lemma {:induction false} TokensFill(bytes: seq<(byte, seq<Part>)>, rest: seq<Item>, e: End, open: Block)
    ensures Denote(Tokens(bytes) + rest, e, open) ==
            Denote(rest, e, open.(bytes := open.bytes + Values(bytes)))
    decreases bytes
  {
    var vs := Values(bytes);
    if bytes == [] {
      assert Tokens(bytes) + rest == rest && open.bytes + vs == open.bytes;
    } else {
      var filled := open.(bytes := open.bytes + [bytes[0].0]);
      var us := Values(bytes[1..]);
      assert (Tokens(bytes) + rest)[1..] == Tokens(bytes[1..]) + rest;
      TokensFill(bytes[1..], rest, e, filled);
      assert filled.bytes + us == open.bytes + vs;
    }
  }

  lemma LinesStart(ls: seq<Line>)
    requires ls != []
    ensures Lines(ls) != [] && Lines(ls)[0] == Address([], ls[0].addr, ls[0].before, ls[0].after)
    ensures Lines(ls)[1..] == Tokens(ls[0].bytes) + Lines(ls[1..])
  {
    hide Tokens;
    var first, rest := LineItems(ls[0]), Lines(ls[1..]);
    assert Lines(ls) == first + rest && first[1..] == Tokens(ls[0].bytes);
  }

  lemma DenoteAddress(items: seq<Item>, e: End, open: Block)
    requires items != [] && items[0].Address? && items[0].bytes == []
    ensures Denote(items, e, open) == [open] + Denote(items[1..], e, Block(items[0].addr, []))
  {
    assert open.bytes + [] == open.bytes;
  }

  /** A text of lines denotes its blocks. */
  lemma {:induction false} LinesDenote(l: Line, ls: seq<Line>, e: End)
    ensures Denote(Tokens(l.bytes) + Lines(ls), e, Block(l.addr, [])) == AddToLast(LineBlocks([l] + ls), EndBytes(e))
    decreases ls
  {
    hide Tokens, Values;
    var b := LineBlock(l);
    TokensFill(l.bytes, Lines(ls), e, Block(l.addr, []));
    assert b == Block(l.addr, [] + b.bytes);
    assert ([l] + ls)[1..] == ls;
    if ls == [] {
      assert LineBlocks([l] + ls) == [b];
    } else {
      hide Denote, Lines;
      LinesStart(ls);
      assert ls == [ls[0]] + ls[1..];
      LinesDenote(ls[0], ls[1..], e);
      DenoteAddress(Lines(ls), e, b);
      assert LineBlocks([l] + ls) == [b] + LineBlocks(ls);
      LastOfMore(b, LineBlocks(ls), EndBytes(e));
    }
  }

  lemma LastOfMore(b: Block, blocks: seq<Block>, extra: seq<byte>)
    requires blocks != []
    ensures AddToLast([b] + blocks, extra) == [b] + AddToLast(blocks, extra)
  {
  }

  lemma {:induction false} LinesAreGood(ls: seq<Line>)
    requires forall l :: l in ls ==> GoodLine(l)
    ensures GoodItems(Lines(ls))
  {
    if ls != [] {
      assert GoodLine(ls[0]) by { assert ls[0] in ls; }
      LinesAreGood(ls[1..]);
      forall i | i in Lines(ls) ensures GoodItem(i) {
        if i in Tokens(ls[0].bytes) {
          var k :| 0 <= k < |ls[0].bytes| && Tokens(ls[0].bytes)[k] == i;
        }
      }
    }
  }

  lemma LinesDocBlocks(ls: seq<Line>, e: End)
    requires ls != []
    ensures Denote(Lines(ls), e, Block(0, [])) == [Block(0, [])] + AddToLast(LineBlocks(ls), EndBytes(e))
  {
    hide Denote, Lines, Tokens, LineBlocks;
    LinesStart(ls);
    DenoteAddress(Lines(ls), e, Block(0, []));
    LinesDenote(ls[0], ls[1..], e);
    assert ls == [ls[0]] + ls[1..];
  }

  /** Lines of address and bytes, colon-continued or not, with blanks and comments
      anywhere - before the first address, behind the last byte, unclosed at the
      end - and an optional run command, glued to the last byte or not. */
  lemma LinesLoadLikeBinary(ram: seq<byte>, lead: seq<Part>, ls: seq<Line>, e: End, closing: Closing)
    requires ls != [] && (forall l :: l in ls ==> GoodLine(l))
    requires GoodGap(lead) && GoodEnd(e) && GoodClosing(closing)
    requires AllFit(|ram|, AddToLast(LineBlocks(ls), EndBytes(e)))
    ensures LoadWoz(ram, Print(Doc(lead, Lines(ls), e, closing))) ==
            Loaded(Ok, LoadBlocks(ram, AddToLast(LineBlocks(ls), EndBytes(e))), RunOf(e))
  {
    hide LoadWoz, LoadBlocks, Denote, Lines, GoodItems, GoodGap, GoodEnd, GoodLine, LineBlocks, AllFit,
      EndBytes, PrintItem;
    var d, blocks := Doc(lead, Lines(ls), e, closing), AddToLast(LineBlocks(ls), EndBytes(e));
    LinesAreGood(ls);
    LinesStart(ls);
    LinesDocBlocks(ls, e);
    EmptyBlockLoads(ram, blocks);
    TextLoadsLikeBinary(ram, d);
    PrintsSomething(d);
  }

  lemma PrintsSomething(d: Doc)
    requires d.items != [] && d.items[0].Address?
    ensures Print(d) != ""
  {
    HexWordIsHex(d.items[0].addr);
    assert PrintItem(d.items[0]) != "";
  }

  // The colon-continued form

  /** The block as it is shipped: the address on a line of its own, then lines of
      `width` bytes, each behind a colon. */
  function Continued(b: Block, width: nat): Line
    requires width > 0
  {
    Line(b.addr, [Blank('\r')], [],
         seq(|b.bytes|, i requires 0 <= i < |b.bytes| =>
               (b.bytes[i],
                if i == |b.bytes| - 1 then [Blank('\r')]
                else if i % width == width - 1 then [Blank('\r'), Colon] else [Blank(' ')])))
  }

  function AllContinued(blocks: seq<Block>, width: nat): (ls: seq<Line>)
    requires width > 0
    ensures |ls| == |blocks|
  {
    if blocks == [] then [] else [Continued(blocks[0], width)] + AllContinued(blocks[1..], width)
  }

  lemma {:induction false} ContinuedIsGood(blocks: seq<Block>, width: nat)
    requires width > 0
    ensures forall l :: l in AllContinued(blocks, width) ==> GoodLine(l)
    ensures LineBlocks(AllContinued(blocks, width)) == blocks
  {
    if blocks != [] {
      ContinuedIsGood(blocks[1..], width);
      var l := Continued(blocks[0], width);
      assert Values(l.bytes) == blocks[0].bytes;
      assert GoodPart(Blank('\r')) && GoodPart(Blank(' ')) && GoodPart(Colon);
      assert AllContinued(blocks, width)[1..] == AllContinued(blocks[1..], width);
    }
  }

  lemma AddNothing(blocks: seq<Block>)
    requires blocks != []
    ensures AddToLast(blocks, []) == blocks
  {
    var last := blocks[|blocks| - 1];
    assert last.bytes + [] == last.bytes;
  }

  /** Printed in colon-continued lines of any width, blocks load as they are. */
  lemma ContinuedLoadsLikeBinary(ram: seq<byte>, blocks: seq<Block>, width: nat, e: End)
    requires blocks != [] && width > 0 && GoodEnd(e) && EndBytes(e) == [] && AllFit(|ram|, blocks)
    ensures LoadWoz(ram, Print(Doc([], Lines(AllContinued(blocks, width)), e, NoComment))) ==
            Loaded(Ok, LoadBlocks(ram, blocks), RunOf(e))
  {
    hide LoadWoz, LoadBlocks, Print, Lines, AllContinued, LineBlocks, GoodLine, GoodEnd, AllFit;
    ContinuedIsGood(blocks, width);
    AddNothing(blocks);
    LinesLoadLikeBinary(ram, [], AllContinued(blocks, width), e, NoComment);
  }

  // The joined form

  /** `AAAA:HHHH...HHAAAA:HH...` with nothing in between. */
  function Joined(open: Block, blocks: seq<Block>): seq<Item>
    decreases blocks
  {
    if blocks == [] then []
    else [Address(open.bytes, blocks[0].addr, [], [])] + Joined(blocks[0], blocks[1..])
  }

  function LastBytes(open: Block, blocks: seq<Block>): seq<byte> {
    if blocks == [] then open.bytes else blocks[|blocks| - 1].bytes
  }

  lemma {:induction false} JoinedDenotes(open: Block, blocks: seq<Block>, e: End)
    requires EndBytes(e) == LastBytes(open, blocks)
    ensures Denote(Joined(open, blocks), e, Block(open.addr, [])) == [open] + blocks
    decreases blocks
  {
    assert [] + open.bytes == open.bytes;
    if blocks != [] {
      JoinedDenotes(blocks[0], blocks[1..], e);
      assert blocks == [blocks[0]] + blocks[1..];
      assert Joined(open, blocks)[1..] == Joined(blocks[0], blocks[1..]);
    }
  }

  lemma {:induction false} JoinedIsGood(open: Block, blocks: seq<Block>)
    ensures GoodItems(Joined(open, blocks))
    decreases blocks
  {
    if blocks != [] { JoinedIsGood(blocks[0], blocks[1..]); }
  }

  /** Everything run together, the run address glued to the last byte. */
  lemma JoinedLoadsLikeBinary(ram: seq<byte>, first: Block, blocks: seq<Block>, e: End)
    requires GoodEnd(e) && EndBytes(e) == LastBytes(first, blocks) && AllFit(|ram|, [first] + blocks)
    ensures LoadWoz(ram, Print(Doc([], [Address([], first.addr, [], [])] + Joined(first, blocks), e, NoComment))) ==
            Loaded(Ok, LoadBlocks(ram, [first] + blocks), RunOf(e))
  {
    hide LoadWoz, LoadBlocks, Denote, Joined, EndBytes, GoodEnd, PrintItem, AllFit;
    var items := [Address([], first.addr, [], [])] + Joined(first, blocks);
    JoinedDenotes(first, blocks, e);
    JoinedIsGood(first, blocks);
    assert items[1..] == Joined(first, blocks);
    DenoteAddress(items, e, Block(0, []));
    EmptyBlockLoads(ram, [first] + blocks);
    TextLoadsLikeBinary(ram, Doc([], items, e, NoComment));
    PrintsSomething(Doc([], items, e, NoComment));
  }

  // Blocks that do not fit

  /** The text loader accepts a line wherever it points; the binary loader
      refuses a block that leaves RAM.  They agree exactly on blocks that fit. */
  lemma OneLineAgreesExactlyWhenItFits(ram: seq<byte>, l: Line, e: End)
    requires GoodLine(l) && l.bytes != [] && GoodEnd(e) && EndBytes(e) == []
    ensures var text := LoadWoz(ram, Print(Doc([], Lines([l]), e, NoComment)));
            var bin := LoadBin(ram, l.addr, Values(l.bytes));
            && text.status == Ok
            && ((text.status == bin.status && text.ram == bin.ram) <==> Fits(|ram|, l.addr, |l.bytes|))
  {
    hide Clean, Parse, Print, GoodLine, Lines, Fits, Effect, GoodEnd;
    var ls, d := [l], Doc([], Lines([l]), e, NoComment);
    var w := Loader(ram, 0, true, 0, NoRun);
    LinesAreGood(ls);
    LinesStart(ls);
    PrintsSomething(d);
    ReadsDocument(d, w);
    EffectReports(d.items, e, w);
    if Fits(|ram|, l.addr, |l.bytes|) {
      var b := LineBlock(l);
      assert LineBlocks(ls) == [b] && b.bytes + [] == b.bytes;
      LinesLoadLikeBinary(ram, [], ls, e, NoComment);
      assert LoadBlocks(ram, [b]) == LoadBin(ram, b.addr, b.bytes).ram;
    }
  }

  /** Two bytes across the end of a 4 KB RAM: refused as a block, stored in part
      as text. */
  lemma OverrunIsStoredInPart(ram: seq<byte>)
    requires |ram| == 4096 && ram[4095] != 1
    ensures LoadBin(ram, 0x0FFF, [1, 2]) == Loaded(OutOfRange, ram, NoRun)
    ensures var l := Line(0x0FFF, [], [Blank(' ')], [(1, [Blank(' ')]), (2, [Blank(' ')])]);
            var text := LoadWoz(ram, Print(Doc([], Lines([l]), Stop([]), NoComment)));
            text.status == Ok && |text.ram| == 4096 && text.ram[4095] == 1
  {
    hide Clean, Parse, Print, Lines;
    var word: word := 0x1000;
    assert !IsRam(4096, word);
    var l := Line(0x0FFF, [], [Blank(' ')], [(1, [Blank(' ')]), (2, [Blank(' ')])]);
    assert GoodPart(Blank(' '));
    OneLineAgreesExactlyWhenItFits(ram, l, Stop([]));
    OverrunText(ram, l);
  }

  lemma OverrunText(ram: seq<byte>, l: Line)
    requires |ram| == 4096 && GoodLine(l) && l.addr == 0x0FFF && Values(l.bytes) == [1, 2]
    ensures var text := LoadWoz(ram, Print(Doc([], Lines([l]), Stop([]), NoComment)));
            |text.ram| == 4096 && text.ram[4095] == 1
  {
    hide Clean, Parse, Print, PokeAll, Lines, Tokens, Values, GoodLine;
    var d, w := Doc([], Lines([l]), Stop([]), NoComment), Loader(ram, 0, true, 0, NoRun);
    LinesAreGood([l]);
    LinesStart([l]);
    PrintsSomething(d);
    ReadsDocument(d, w);
    PokeNothing(w);
    OneLine(l);
    var v := w.(addr := 0x0FFF, first := false);
    TokensPoke(l.bytes, v);
    PokesStoreWhatIsRam(v, [1, 2], 0);
  }

  lemma OneLine(l: Line)
    ensures Lines([l]) != [] && Lines([l])[1..] == Tokens(l.bytes)
  {
    assert Lines([l]) == LineItems(l) + Lines([]) && Lines([]) == [];
  }

  lemma {:induction false} TokensPoke(bytes: seq<(byte, seq<Part>)>, w: Loader)
    ensures Effect(Tokens(bytes), Stop([]), w) == PokeAll(w, Values(bytes))
    decreases bytes
  {
    hide Poke;
    if bytes != [] {
      assert Tokens(bytes)[1..] == Tokens(bytes[1..]) && Values(bytes)[1..] == Values(bytes[1..]);
      PokeOne(w, bytes[0].0);
      assert Tokens(bytes)[0].bytes == [bytes[0].0];
      TokensPoke(bytes[1..], Poke(w, bytes[0].0));
    }
  }

  lemma PokeHits(w: Loader, v: byte, a: word)
    requires IsRam(|w.ram|, a)
    ensures Poke(w, v).ram[Translate(|w.ram|, a)] == if a == w.addr then v else w.ram[Translate(|w.ram|, a)]
  {
  }

  /** What the text loader stores of a block, fitting or not: byte `i` lands if
      its address, taken modulo 64 KB, is RAM. */
  lemma {:induction false} PokesStoreWhatIsRam(w: Loader, bs: seq<byte>, i: nat)
    requires i < |bs| <= 0x1_0000 && IsRam(|w.ram|, Wrap16(w.addr + i))
    ensures PokeAll(w, bs).ram[Translate(|w.ram|, Wrap16(w.addr + i))] == bs[i]
    ensures PokeAll(w, bs).addr == Wrap16(w.addr + |bs|)
    decreases bs
  {
    hide IsRam, Translate, Poke;
    var k, a := |bs| - 1, Wrap16(w.addr + i);
    var v := PokeAll(w, bs[..k]);
    PokeAllConcat(w, bs[..k], [bs[k]]);
    assert bs[..k] + [bs[k]] == bs;
    PokeOne(v, bs[k]);
    PokesAdvance(w, bs[..k]);
    PokesAdvance(w, bs);
    PokeHits(v, bs[k], a);
    if i < k { PokesStoreWhatIsRam(w, bs[..k], i); }
  }

  /** Every other cell stays. */
  lemma {:induction false} PokesLeaveTheRest(w: Loader, bs: seq<byte>, cell: nat)
    requires cell < |w.ram|
    requires forall i :: 0 <= i < |bs| ==> !Lands(|w.ram|, w.addr, i, cell)
    ensures PokeAll(w, bs).ram[cell] == w.ram[cell]
    decreases bs
  {
    hide IsRam, Translate;
    if bs != [] {
      var v := Poke(w, bs[0]);
      assert !Lands(|w.ram|, w.addr, 0, cell);
      forall i | 0 <= i < |bs[1..]| ensures !Lands(|v.ram|, v.addr, i, cell) {
        assert !Lands(|w.ram|, w.addr, i + 1, cell);
        NextAddress(w.addr, i);
      }
      PokesLeaveTheRest(v, bs[1..], cell);
    }
  }

  /** Byte `i` of a block at `addr` is stored in `cell`. */
  predicate Lands(ramSize: nat, addr: word, i: nat, cell: nat) {
    IsRam(ramSize, Wrap16(addr + i)) && Translate(ramSize, Wrap16(addr + i)) == cell
  }

  lemma NextAddress(addr: word, i: nat)
    ensures Wrap16(Wrap16(addr + 1) + i) == Wrap16(addr + (i + 1))
  {
  }

  lemma {:induction false} PokesAdvance(w: Loader, bs: seq<byte>)
    ensures PokeAll(w, bs).addr == Wrap16(w.addr + |bs|)
    decreases bs
  {
    if bs != [] {
      hide Wrap16, IsRam, Translate;
      PokesAdvance(Poke(w, bs[0]), bs[1..]);
      NextAddress(w.addr, |bs| - 1);
    }
  }
}
