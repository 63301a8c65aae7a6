/** The loaders of `bus.c` on values: raw binary blocks, and Woz Monitor text. */
module WozText {
  import opened Bytes
  import opened BusModel
  import opened Chars

  /** Length of the leading run of hex digits. */
  function HexRun(s: string): (n: nat)
    ensures n <= |s|
  {
    if s != "" && IsHex(s[0]) then 1 + HexRun(s[1..]) else 0
  }

  /** The value of hex digits, most significant first, in 16 bits. */
  function HexNumber(s: string): word {
    if s == "" then 0 else Wrap16(HexNumber(s[..|s| - 1]) * 16 + HexVal(s[|s| - 1]))
  }

  // Storing bytes

  datatype RunAddress = NoRun | RunAt(addr: word)

  /** The loader's state: RAM, the address being filled, and what it will report. */
  datatype Loader = Loader(ram: seq<byte>, addr: word, first: bool, total: nat, run: RunAddress)

  /** Addresses outside RAM are counted and skipped. */
  function Poke(w: Loader, v: byte): (w': Loader)
    ensures |w'.ram| == |w.ram|
  {
    w.(ram := if IsRam(|w.ram|, w.addr) then w.ram[Translate(|w.ram|, w.addr) := v] else w.ram,
       addr := Wrap16(w.addr + 1), total := w.total + 1)
  }

  /** Digits in pairs; an odd last digit is dropped. */
  function PokeDigits(w: Loader, s: string): (w': Loader)
    ensures |w'.ram| == |w.ram|
    decreases |s|
  {
    if |s| < 2 then w else PokeDigits(Poke(w, HexVal(s[0]) * 16 + HexVal(s[1])), s[2..])
  }

  // Stripping comments

  predicate EndsLine(c: char) { c == '\n' || c == '\r' }

  predicate StartsComment(s: string)
    requires s != ""
  {
    s[0] == '#' || s[0] == ';' || (s[0] == '/' && |s| > 1 && s[1] == '/')
  }

  function Clean(s: string, inComment: bool): (t: string)
    ensures |t| <= |s|
  {
    if s == "" then ""
    else if EndsLine(s[0]) then [s[0]] + Clean(s[1..], false)
    else if inComment || StartsComment(s) then Clean(s[1..], true)
    else [s[0]] + Clean(s[1..], false)
  }

  // Parsing

  function DataLen(n: nat): nat { if n > 4 then n - 4 else 0 }

  predicate Marks(s: string, marker: char)
    requires s != ""
  {
    ToUpper(s[0]) == marker && |s| > 1 && IsHex(s[1])
  }

  /** A hex run and what follows it: `R` runs, `:` after three digits or more
      sets the address, anything else is data. */
  function OnRun(w: Loader, digits: string, rest: string): (r: (Loader, string))
    ensures |r.0.ram| == |w.ram| && |r.1| <= |rest|
  {
    var n, sp := |digits|, SpaceRun(rest);
    var data := digits[..DataLen(n)];
    if rest != "" && ToUpper(rest[0]) == 'R' then
      var w1 := PokeDigits(w, data);
      (if n >= 4 then w1.(run := RunAt(HexNumber(digits[n - 4..]))) else w1, rest[1..])
    else if sp < |rest| && rest[sp] == ':' && n >= 3 then
      var w1 := PokeDigits(w, data);
      (w1.(addr := HexNumber(digits[DataLen(n)..]), first := false), rest[sp + 1..])
    else (PokeDigits(w, digits), rest)
  }

  function Parse(s: string, w: Loader): (w': Loader)
    ensures |w'.ram| == |w.ram|
    decreases |s|
  {
    if s == "" then w
    else if IsSpace(s[0]) then Parse(s[1..], w)
    else if Marks(s, 'T') then Parse(s[1..], w)
    else if Marks(s, 'X') then Parse(s[1 + HexRun(s[1..])..], w)
    else if s[0] == ':' then Parse(s[1..], w)
    else if IsHex(s[0]) then
      var n := HexRun(s);
      var (w1, rest) := OnRun(w, s[..n], s[n..]);
      Parse(rest, w1)
    else Parse(s[1..], w)
  }

  /** A character the loop steps over. */
  predicate IsSkipped(s: string)
    requires s != ""
  {
    IsSpace(s[0]) || Marks(s, 'T') || (!Marks(s, 'X') && !IsHex(s[0]))
  }

  lemma ParseSkipsOne(s: string, w: Loader)
    requires s != "" && IsSkipped(s)
    ensures Parse(s, w) == Parse(s[1..], w)
  {
    hide OnRun;
  }

  lemma ParseNothing(w: Loader)
    ensures Parse("", w) == w
  {
  }

  // The two loaders

  datatype Status = Ok | InvalidInput | OutOfRange | BadFormat

  datatype Loaded = Loaded(status: Status, ram: seq<byte>, run: RunAddress)

  /** `bus_load_wozmon_txt_buf`. */
  function LoadWoz(ram: seq<byte>, text: string): Loaded {
    if text == "" then Loaded(InvalidInput, ram, NoRun)
    else
      var w := Parse(Clean(text, false), Loader(ram, 0, true, 0, NoRun));
      Loaded(if w.total == 0 && w.first then BadFormat else Ok, w.ram, w.run)
  }

  predicate Fits(ramSize: nat, addr: word, len: nat) {
    addr + len <= 0x1_0000 && forall a: word :: addr <= a < addr + len ==> IsRam(ramSize, a)
  }

  function CopyIn(ram: seq<byte>, addr: word, data: seq<byte>): (ram': seq<byte>)
    requires Fits(|ram|, addr, |data|)
    ensures |ram'| == |ram|
    decreases data
  {
    if data == [] then ram
    else
      var last := |data| - 1;
      CopyIn(ram, addr, data[..last])[Translate(|ram|, addr + last) := data[last]]
  }

  /** `bus_load_bin_buf`: all of it or nothing. */
  function LoadBin(ram: seq<byte>, addr: word, data: seq<byte>): Loaded {
    if data == [] then Loaded(InvalidInput, ram, NoRun)
    else if !Fits(|ram|, addr, |data|) then Loaded(OutOfRange, ram, NoRun)
    else Loaded(Ok, CopyIn(ram, addr, data), NoRun)
  }
}
