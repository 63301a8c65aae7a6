/** The two loaders of `bus.c` as they run: over the caller's buffers, storing
    into the bus's RAM array, proved against `WozText`. */
module WozLoader {
  import opened Bytes
  import opened BusModel
  import opened Chars
  import opened PortNumber
  import opened PortString
  import opened WozText

  /** `bus_load_bin_buf`: a range check over every address, then a copy. */
  method LoadBinBuffer(bus: Bus, data: array<byte>, address: word) returns (status: Status)
    requires bus.Valid() && data != bus.ram
    modifies bus.ram
    ensures bus.Valid()
    ensures status == LoadBin(old(bus.ram[..]), address, data[..]).status
    ensures bus.ram[..] == LoadBin(old(bus.ram[..]), address, data[..]).ram
  {
    hide IsRam, Translate;
    if data.Length == 0 { return InvalidInput; }
    var addr: int := address;
    while addr < address + data.Length
      invariant address <= addr <= address + data.Length && addr <= 0x1_0000
      invariant forall a: word :: address <= a < addr ==> IsRam(bus.ram.Length, a)
      invariant bus.ram[..] == old(bus.ram[..])
    {
      if addr > 0xFFFF || !IsRam(bus.ram.Length, addr) { return OutOfRange; }
      addr := addr + 1;
    }
    ghost var ram0 := bus.ram[..];
    var i := 0;
    while i < data.Length
      invariant 0 <= i <= data.Length
      invariant forall a: word :: address <= a < address + data.Length ==> IsRam(bus.ram.Length, a)
      invariant bus.ram[..] == CopyIn(ram0, address, data[..i])
    {
      var la: word := address + i;
      assert IsRam(bus.ram.Length, la);
      bus.ram[Translate(bus.ram.Length, la)] := data[i];
      assert data[..i + 1][..i] == data[..i];
      i := i + 1;
    }
    assert data[..i] == data[..];
    return Ok;
  }

  // The text loader

  lemma CleanKeeps(s: string, inComment: bool)
    requires s != "" && (EndsLine(s[0]) || (!inComment && !StartsComment(s)))
    ensures Clean(s, inComment) == [s[0]] + Clean(s[1..], false)
  {
  }

  lemma CleanDrops(s: string, inComment: bool)
    requires s != "" && !EndsLine(s[0]) && (inComment || StartsComment(s))
    ensures Clean(s, inComment) == Clean(s[1..], true)
  {
  }

  /** Copies the text without its comments; the result ends with a NUL. */
  method StripComments(text: array<char>) returns (cleaned: array<char>, w: nat)
    ensures fresh(cleaned) && w < cleaned.Length
    ensures cleaned[..w] == Clean(text[..], false)
  {
    hide Clean;
    cleaned := new char[text.Length + 1](_ => '\0');
    w := 0;
    var inComment := false;
    var i := 0;
    assert text[i..] == text[..];
    while i < text.Length
      invariant 0 <= w <= i <= text.Length
      invariant cleaned[..w] + Clean(text[i..], inComment) == Clean(text[..], false)
    {
      ghost var kept, here := cleaned[..w], text[i..];
      assert here[1..] == text[i + 1..] && here[0] == text[i];
      assert i + 1 < text.Length ==> here[1] == text[i + 1];
      if text[i] == '\n' || text[i] == '\r' {
        CleanKeeps(here, inComment);
        inComment := false;
        cleaned[w] := text[i];
        w := w + 1;
        assert cleaned[..w] == kept + [text[i]];
      } else if inComment {
        CleanDrops(here, inComment);
      } else if text[i] == '#' || text[i] == ';' {
        CleanDrops(here, inComment);
        inComment := true;
      } else if text[i] == '/' && i + 1 < text.Length && text[i + 1] == '/' {
        CleanDrops(here, inComment);
        inComment := true;
      } else {
        CleanKeeps(here, inComment);
        cleaned[w] := text[i];
        w := w + 1;
        assert cleaned[..w] == kept + [text[i]];
      }
      i := i + 1;
    }
    cleaned[w] := '\0';
    assert text[i..] == [] && Clean("", inComment) == "" by { CleanNothing(inComment); }
  }

  lemma CleanNothing(inComment: bool)
    ensures Clean("", inComment) == ""
  {
  }

  lemma PokePair(w: Loader, s: string)
    requires |s| >= 2
    ensures PokeDigits(w, s) == PokeDigits(Poke(w, HexVal(s[0]) * 16 + HexVal(s[1])), s[2..])
  {
  }

  lemma PokeNoPair(w: Loader, s: string)
    requires |s| < 2
    ensures PokeDigits(w, s) == w
  {
  }

  /** `ram[translate(addr)] = val` where `addr` is RAM. */
  method StoreByte(bus: Bus, addr: word, v: byte, ghost w: Loader)
    requires bus.Valid() && w.ram == bus.ram[..] && w.addr == addr
    modifies bus.ram
    ensures bus.Valid() && bus.ram[..] == Poke(w, v).ram
  {
    hide IsRam, Translate;
    if IsRam(bus.ram.Length, addr) { bus.ram[Translate(bus.ram.Length, addr)] := v; }
  }

  /** The inner loop shared by the three kinds of hex run: pairs of digits to
      bytes, bytes to RAM.  `w` is the loader's state on entry. */
  method StoreDigits(bus: Bus, s: array<char>, start: nat, len: nat, addr: word, total: nat, ghost w: Loader)
      returns (addr': word, total': nat)
    requires bus.Valid() && start + len <= s.Length
    requires w.ram == bus.ram[..] && w.addr == addr && w.total == total
    modifies bus.ram
    ensures bus.Valid()
    ensures PokeDigits(w, s[start..start + len]) == w.(ram := bus.ram[..], addr := addr', total := total')
  {
    hide Poke, PokeDigits, HexVal;
    addr', total' := addr, total;
    var j := 0;
    ghost var v := w;
    while j + 1 < len
      invariant 0 <= j <= len
      invariant v == w.(ram := bus.ram[..], addr := addr', total := total')
      invariant PokeDigits(w, s[start..start + len]) == PokeDigits(v, s[start + j..start + len])
    {
      ghost var digits := s[start + j..start + len];
      assert digits[0] == s[start + j] && digits[1] == s[start + j + 1];
      assert digits[2..] == s[start + (j + 2)..start + len];
      var b: byte := HexVal(s[start + j]) * 16 + HexVal(s[start + j + 1]);
      PokePair(v, digits);
      PokeCounts(v, b);
      StoreByte(bus, addr', b, v);
      v := Poke(v, b);
      addr', total' := Wrap16(addr' + 1), total' + 1;
      j := j + 2;
    }
    PokeNoPair(v, s[start + j..start + len]);
  }

  lemma PokeCounts(w: Loader, b: byte)
    ensures Poke(w, b) == w.(ram := Poke(w, b).ram, addr := Wrap16(w.addr + 1), total := w.total + 1)
  {
  }

  method SkipHex(s: array<char>, from: nat, w: nat) returns (i: nat)
    requires from <= w <= s.Length
    ensures i == from + HexRun(s[from..w])
    ensures forall j :: from <= j < i ==> IsHex(s[j])
  {
    i := from;
    while i < w && IsHex(s[i])
      invariant from <= i <= w
      invariant forall j :: from <= j < i ==> IsHex(s[j])
      invariant from + HexRun(s[from..w]) == i + HexRun(s[i..w])
    {
      assert s[i..w][1..] == s[i + 1..w];
      i := i + 1;
    }
  }

  method SkipSpace(s: array<char>, from: nat, w: nat) returns (i: nat)
    requires from <= w <= s.Length
    ensures i == from + SpaceRun(s[from..w])
  {
    i := from;
    while i < w && IsSpace(s[i])
      invariant from <= i <= w
      invariant from + SpaceRun(s[from..w]) == i + SpaceRun(s[i..w])
    {
      assert s[i..w][1..] == s[i + 1..w];
      i := i + 1;
    }
  }

  lemma WrapEarly(a: nat, d: nat)
    ensures Wrap16(Wrap16(a) * 16 + d) == Wrap16(a * 16 + d)
  {
    var q, r := a / 65536, a % 65536;
    assert a == 65536 * q + r;
    Turns(r * 16 + d, q * 16);
  }

  lemma Turns(x: int, n: int)
    ensures Wrap16(65536 * n + x) == Wrap16(x)
  {
  }

  lemma {:induction false} HexNumberIsValue(s: string)
    ensures HexNumber(s) == Wrap16(Value(s, 16))
  {
    hide Wrap16, HexVal;
    if s == "" {
      SmallWraps(0);
    } else {
      var t := s[..|s| - 1];
      HexNumberIsValue(t);
      WrapEarly(Value(t, 16), HexVal(s[|s| - 1]));
    }
  }

  lemma SmallWraps(a: word)
    ensures Wrap16(a) == a
  {
  }

  lemma {:induction false} FourDigits(s: string)
    ensures Value(s, 16) < Power(16, |s|)
  {
    if s != "" { FourDigits(s[..|s| - 1]); }
  }

  lemma FourDigitsFit()
    ensures Power(16, 4) == 65536
  {
    assert Power(16, 2) == 256;
  }

  lemma {:induction false} Widens(j: nat, k: nat)
    requires j <= k
    ensures Power(16, j) <= Power(16, k)
  {
    if j < k { Widens(j, k - 1); }
  }

  /** `port_strtol` of at most four hex digits is their value, so the cast to
      16 bits loses nothing. */
  lemma AddressReads(s: string)
    requires s != "" && |s| <= 4 && AllDigits(s, 16)
    ensures ParseSigned(s, 16).value == HexNumber(s)
  {
    hide HexNumber, Value, Open, DigitsIn, Power, AllDigits, Wrap16;
    assert "" + s == s;
    PlainDigitsOpen("", s, 16, true);
    FourDigits(s);
    Widens(|s|, 4);
    FourDigitsFit();
    HexNumberIsValue(s);
    SmallWraps(Value(s, 16));
  }

  /** The copy of the address digits into `addr_str` and `port_strtol` on it. */
  method ReadHex(s: array<char>, from: nat, to: nat) returns (v: word)
    requires from < to <= s.Length && to - from <= 4
    requires forall i :: from <= i < to ==> IsHex(s[i])
    ensures v == HexNumber(s[from..to])
  {
    hide HexNumber, ParseSigned;
    var addrStr := new char[5](_ => '\0');
    var n := to - from;
    forall i | 0 <= i < n { addrStr[i] := s[from + i]; }
    ghost var digits := s[from..to];
    assert addrStr[..n] == digits;
    assert IsHex(s[from]);
    HexIsDigit(digits);
    AddressReads(digits);
    var value, _ := StrToL(addrStr, n, 16);
    v := Wrap16(value);
  }

  lemma HexIsDigit(s: string)
    requires forall i :: 0 <= i < |s| ==> IsHex(s[i])
    ensures AllDigits(s, 16)
    ensures forall i :: 0 <= i < |s| ==> s[i] != '\0'
  {
  }

  predicate IsRunCmd(rest: string) { rest != "" && ToUpper(rest[0]) == 'R' }

  predicate IsAddress(n: nat, rest: string) {
    SpaceRun(rest) < |rest| && rest[SpaceRun(rest)] == ':' && n >= 3
  }

  lemma OnRunCmd(w: Loader, digits: string, rest: string)
    requires IsRunCmd(rest)
    ensures OnRun(w, digits, rest) ==
            var w1, n := PokeDigits(w, digits[..DataLen(|digits|)]), |digits|;
            (if n >= 4 then w1.(run := RunAt(HexNumber(digits[DataLen(n)..]))) else w1, rest[1..])
  {
  }

  lemma OnAddress(w: Loader, digits: string, rest: string)
    requires !IsRunCmd(rest) && IsAddress(|digits|, rest)
    ensures OnRun(w, digits, rest) ==
            var w1, d := PokeDigits(w, digits[..DataLen(|digits|)]), digits[DataLen(|digits|)..];
            (w1.(addr := HexNumber(d), first := false), rest[SpaceRun(rest) + 1..])
  {
  }

  lemma OnData(w: Loader, digits: string, rest: string)
    requires !IsRunCmd(rest) && !IsAddress(|digits|, rest)
    ensures OnRun(w, digits, rest) == (PokeDigits(w, digits), rest)
  {
  }

  /** One hex run of length `n` at `start`, with what follows it.  Returns where
      reading goes on; `v` is the loader's state on entry. */
  method TakeRun(bus: Bus, s: array<char>, start: nat, n: nat, w: nat,
                 addr: word, first: bool, total: nat, run: RunAddress, ghost v: Loader)
      returns (i: nat, addr': word, first': bool, total': nat, run': RunAddress)
    requires bus.Valid() && start + n <= w <= s.Length && n > 0
    requires forall j :: start <= j < start + n ==> IsHex(s[j])
    requires v == Loader(bus.ram[..], addr, first, total, run)
    modifies bus.ram
    ensures bus.Valid()
    ensures start < i <= w
    ensures OnRun(v, s[start..start + n], s[start + n..w]) ==
            (Loader(bus.ram[..], addr', first', total', run'), s[i..w])
  {
    hide PokeDigits, HexNumber, SpaceRun, OnRun, IsHex, ToUpper;
    i, first', run' := start + n, first, run;
    var peek := SkipSpace(s, i, w);
    var dataLen := DataLen(n);
    ghost var digits, rest := s[start..i], s[i..w];
    assert digits[..dataLen] == s[start..start + dataLen] && digits[dataLen..] == s[start + dataLen..start + n];
    if i < w && ToUpper(s[i]) == 'R' {
      OnRunCmd(v, digits, rest);
      addr', total' := StoreDigits(bus, s, start, dataLen, addr, total, v);
      if n >= 4 {
        var at := ReadHex(s, start + dataLen, start + n);
        run' := RunAt(at);
      }
      i := i + 1;
      assert rest[1..] == s[i..w];
    } else if peek < w && s[peek] == ':' && n >= 3 {
      assert rest[peek - i] == s[peek] && rest[peek - i + 1..] == s[peek + 1..w];
      OnAddress(v, digits, rest);
      addr', total' := StoreDigits(bus, s, start, dataLen, addr, total, v);
      addr' := ReadHex(s, start + dataLen, start + n);
      first' := false;
      i := peek + 1;
    } else {
      assert peek < w ==> rest[peek - i] == s[peek];
      OnData(v, digits, rest);
      addr', total' := StoreDigits(bus, s, start, n, addr, total, v);
    }
  }

  lemma ParseSkipsMark(s: string, w: Loader)
    requires s != "" && Marks(s, 'X') && !IsSpace(s[0])
    ensures Parse(s, w) == Parse(s[1 + HexRun(s[1..])..], w)
  {
    hide OnRun;
  }

  lemma ParseTakesRun(s: string, w: Loader)
    requires s != "" && IsHex(s[0])
    ensures HexRun(s) > 0
    ensures Parse(s, w) == var n := HexRun(s); var (w1, rest) := OnRun(w, s[..n], s[n..]); Parse(rest, w1)
  {
    hide OnRun;
  }

  lemma OthersAreNoHex(s: string)
    requires s != "" && (IsSpace(s[0]) || s[0] == ':' || Marks(s, 'T') || Marks(s, 'X'))
    ensures !IsHex(s[0])
  {
  }

  /** The branches that store nothing: blanks, the T and X marks, colons, and
      whatever else is no digit. */
  method StepOver(s: array<char>, i: nat, w: nat, ghost v: Loader) returns (j: nat)
    requires i < w <= s.Length && !IsHex(s[i])
    ensures i < j <= w && Parse(s[i..w], v) == Parse(s[j..w], v)
  {
    hide HexRun, Parse, IsSpace, IsHex, ToUpper;
    ghost var here := s[i..w];
    assert here[0] == s[i] && here[1..] == s[i + 1..w] && |here| == w - i;
    assert i + 1 < w ==> here[1] == s[i + 1];
    if IsSpace(s[i]) {
      ParseSkipsOne(here, v);
      j := i + 1;
    } else if ToUpper(s[i]) == 'T' && i + 1 < w && IsHex(s[i + 1]) {
      ParseSkipsOne(here, v);
      j := i + 1;
    } else if ToUpper(s[i]) == 'X' && i + 1 < w && IsHex(s[i + 1]) {
      ParseSkipsMark(here, v);
      j := SkipHex(s, i + 1, w);
      assert here[1 + HexRun(here[1..])..] == s[j..w];
    } else {
      ParseSkipsOne(here, v);
      j := i + 1;
    }
  }

  /** `bus_load_wozmon_txt_buf`.  No character that starts another branch is a hex
      digit, so the runs may be told apart first. */
  method LoadWozBuffer(bus: Bus, text: array<char>) returns (status: Status, run: RunAddress)
    requires bus.Valid()
    modifies bus.ram
    ensures bus.Valid()
    ensures Loaded(status, bus.ram[..], run) == LoadWoz(old(bus.ram[..]), text[..])
  {
    hide OnRun, HexRun, Clean, Parse, IsHex;
    run := NoRun;
    if text.Length == 0 { return InvalidInput, NoRun; }
    var s, w := StripComments(text);
    var i, addr: word, first, total := 0, 0, true, 0;
    ghost var v := Loader(bus.ram[..], 0, true, 0, NoRun);
    ghost var final := Parse(s[..w], v);
    assert s[i..w] == s[..w];
    while i < w
      invariant 0 <= i <= w < s.Length
      invariant v == Loader(bus.ram[..], addr, first, total, run)
      invariant Parse(s[i..w], v) == final
      decreases w - i
    {
      if IsHex(s[i]) {
        ghost var here := s[i..w];
        var end := SkipHex(s, i, w);
        ParseTakesRun(here, v);
        SliceOfSlice(s[..], i, end, w);
        assert here == s[..][i..w];
        assert here[..end - i] == s[i..end] && here[end - i..] == s[end..w];
        i, addr, first, total, run := TakeRun(bus, s, i, end - i, w, addr, first, total, run, v);
        v := Loader(bus.ram[..], addr, first, total, run);
      } else {
        i := StepOver(s, i, w, v);
      }
    }
    ParseNothing(v);
    assert s[i..w] == "";
    status := if total == 0 && first then BadFormat else Ok;
  }
}
