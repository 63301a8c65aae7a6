# A verified model of the Apple-1 emulator core

This project models the parts of the emulator that carry its behaviour - the
6502 CPU, the system bus with its PIA, the cassette interface, the keyboard
path, the program loaders, the terminal, and the number and formatting routines
- and proves what they promise, for all inputs and all runs.

Each component has two faces. A value-level form (functions on sequences and
datatypes) says what the code computes; the theorems are about it. Where the C
code changes state in place, a class or a method over arrays runs the same steps
with the same branches and is proved against the value-level form.

| Files | Source | Contents |
|---|---|---|
| `bytes.dfy`, `chars.dfy` | | byte and character arithmetic |
| `bus.dfy`, `bus_map.dfy` | bus.c | decoding, RAM layouts, PIA, open bus; the memory map over any run |
| `cpu_alu.dfy`, `cpu_table.dfy`, `cpu_spec.dfy` | cpu.c | registers and flags, the dispatch table, one step |
| `cpu_frame.dfy`, `cpu_handlers.dfy`, `cpu_cycles.dfy` | cpu.c | bus accesses against cycles, helper by helper, then whole runs |
| `cpu_stack.dfy`, `cpu_arith.dfy` | cpu.c | nested calls and interrupts; multi-byte decimal and binary arithmetic |
| `cpu_machine.dfy` | cpu.c | the mutable CPU |
| `disasm.dfy`, `mnemonics.dfy`, `disasm_text.dfy` | disasm.c | instruction boundaries and names agree with the CPU; the printed line |
| `tape_time.dfy`, `tape_detect.dfy`, `tape_wav.dfy` | aci.c | samples and cycles, the hysteresis detector, WAV files |
| `tape_recorder.dfy`, `tape_player.dfy`, `tape_replay.dfy` | aci.c | recording, playback, and playback of what was recorded |
| `aci_spec.dfy`, `aci_card.dfy` | aci.c | the card over any run, and as an object |
| `keyboard.dfy` | io.c, bus.c | ring, latch and CPU read as one queue |
| `woz_text.dfy`, `woz_print.dfy`, `woz_blocks.dfy`, `woz_loader.dfy` | bus.c | binary loader and Woz Monitor text |
| `term_page.dfy`, `term_cache.dfy`, `terminal.dfy` | term_ansi.c | the scrolled screen and the dirty-row cache |
| `port_number.dfy`, `port_format.dfy`, `port_string.dfy` | port_string.c | reading and printing numbers, the formatter |

The bus keeps a ghost log of its accesses, dummies included; cycle counting and
RAM framing are statements about that log. Bytes are integers below 256, and
every wrap, truncation and signed conversion of the C code is written out.

## Where the promise fails

Several natural statements are false of the code. Each is proved with its exact
condition and shown to fail on an input.

- A step returns its number of bus accesses unless it is a JAM, an interrupt entry
  or a halted step (`CpuCycles.CycleExact`, `CpuCycles.JamIsNotExact`,
  `CpuCycles.InterruptIsNotExact`, `CpuCycles.HaltedIsNotExact`);
  `CpuCycles.LedgerBalances` counts them all.
- The disassembler prints $AB as a one-byte JAM, while the CPU runs the two-byte
  LXA; BRK's padding byte is not printed (`Disassembler.LengthsAgree`,
  `Disassembler.LxaIsTwoBytes`, `Disassembler.BrkIsTwoBytes`).  The names differ
  for $AB and for $EB, which is plain SBC (`Mnemonics.NamesAgree`,
  `Mnemonics.UsbcIsSbc`).
- A pulse longer than INT32_MAX cycles ends at once on playback
  (`TapePlayer.PlaysCorrectlyExactlyWhen`, `TapePlayer.LongPulseEndsAtOnce`).
- A gap of 2^32 cycles or more loses whole turns of the counter on recording
  (`TapeRecorder.RecordingConservesTime`, `TapeRecorder.WholeTurnIsLost`).
- An even number of toggles in one cycle does not move the output, but the tape
  changes level there (`TapeReplay.ReplayComplementsExactlyWhen`,
  `TapeReplay.EvenInstantIsReplayed`).  An indexed store on one page makes such a
  pair: it reads the register it then writes (`CpuHandlers.StoreAtMakes`,
  `AciSpec.ReadThenWriteTogglesTwice`).  And the tape starts at the level before
  the first toggle, so what is replayed is the complement of the output.
- The sample total of a recording is accumulated in 32 bits, so a recording can
  wrap past the length check and be cut short (`TapeWav.RoundTripExactlyWhen`,
  `TapeWav.WrappedRecordingIsCut`, `TapeWav.LongRecordingIsCut`).
- The text loader stores the part of an overlong block that lies in RAM; the
  binary loader refuses the block (`WozBlocks.OneLineAgreesExactlyWhenItFits`,
  `WozBlocks.OverrunIsStoredInPart`).
- `%5d` of a negative number prints the sign before the blanks, which the number
  reader does not accept (`PortNumber.SignedReadsBackExactlyWhen`,
  `PortNumber.PaddedMinusIsLost`).
- The readers' end pointer is not always that of ISO C: it stays behind a skipped
  prefix without digits, letters beyond f are never digits, and the unsigned
  reader takes no minus sign (`PortNumber.EndMeetsIsoExactlyWhen`,
  `PortNumber.UnsignedEndMeetsIsoExactlyWhen`, `PortNumber.LetterEndsDiffer`,
  `PortNumber.PrefixEndsDiffer`, `PortNumber.MinusEndsDiffer`).

Where code and documentation disagree the model follows the code: port.h:350
documents a `-` flag that port_string.c:583-611 does not read
(`PortFormat.MinusIsVerbatim`), and term_ansi.c:189 lists $5F as a backspace
that is not displayed, although the branch for printing characters takes $5F
first (`Terminal.Console.Write`).

## Model

| member | source | states |
|---|---|---|
| `OpcodeTable.Decode` | cpu.c:2623-2880 | Each of the 256 dispatch slots as operation, mode and cycle count; every slot is well timed, so its cycle literal is what its mode and operation must cost. |
| `CpuFrame.AddressMoves` | cpu.c:161-326 | Every addressing mode, for all operands: the accesses its helper makes are the mode's cost (with the page-cross dummy read exactly when reported), the program counter moves by its operand bytes, registers stay, and a RAM cell changes only if a logged write hit it. |
| `CpuFrame.AddrIndReads` | cpu.c:256-270 | The indirect jump reads its pointer, then the target from two bytes on one page - the carry never reaches the high byte - and changes nothing but the program counter; RAM stays. |
| `CpuHandlers.DoBranchMoves` | cpu.c:328-350 | A branch goes to its relative target or to the next instruction; it makes no extra access if not taken, one if taken on the page, two across a page, and leaves RAM alone. |
| `CpuHandlers.ModifyAtMakes` | cpu.c:2032-2319 | The read-modify-write cores make exactly three accesses at one address: the read, the unmodified byte written back, the result. |
| `CpuHandlers.StoreAtMakes` | cpu.c:1720-1733 | A store makes its write, and if it pays the fix-up cycle a read of the same address just before it. |
| `CpuHandlers.HandlerRuns` | cpu.c:449-2617 | For all 256 handlers and all states: accesses after the fetch equal cycles minus one (a JAM makes one and returns one), which handlers keep S, which fall through and by how many bytes, and the RAM frame. |
| `CpuCycles.StepRuns` | cpu.c:2887-2985 | One call of the step function in each of its cases: bus accesses, cycles, refresh accumulator and the fixed bits of P. |
| `CpuCycles.CycleExact` | cpu.c:2887-2985 | With refresh off, a step returns the number of bus accesses it made if and only if it runs an instruction other than a JAM. |
| `CpuCycles.JamIsNotExact` | cpu.c:2361-2380 | A JAM: one cycle, two accesses. |
| `CpuCycles.InterruptIsNotExact` | cpu.c:2930-2938 | An interrupt entry: seven cycles, six accesses. |
| `CpuCycles.HaltedIsNotExact` | cpu.c:2894-2896 | A halted step: one cycle, no access. |
| `CpuCycles.LedgerBalances` | cpu.c:2887-2985 | Over any run, with any interrupt and key inputs, two totals, where C is the base cycles executed: the cycles returned are C plus seven an interrupt entry, one a halted step and floor(4C/61) stolen by refresh; the accesses are C plus one a JAM and six an interrupt entry. No drift. |
| `CpuCycles.StealsAtMostOne` | cpu.c:2972-2983 | One step steals at most one cycle, so the 8-bit cycle count never wraps, and the accumulator stays below 61. |
| `CpuStack.OpenStores` | cpu.c:1122-1160 | JSR, PHA, PHP, BRK and both interrupts store exactly their frame on the (wrapping) stack page and lower S by its width. |
| `CpuStack.CloseLoads` | cpu.c:1136-1160 | RTS, RTI, PLA and PLP read back the cells above S, in order, and raise S by the same width. |
| `CpuStack.CloseRestores` | cpu.c:39-67 | If the saved cells are intact, the close restores S and what the open saved: RTS at JSR+3, BRK's RTI at BRK+2, an interrupt's RTI at the preempted PC, A or P for the pulls. |
| `CpuStack.NestedRunsRestore` | cpu.c:1122-1160 | Any properly nested run, of any depth and length, that uses at most 256 stack bytes: every bracket restores what it saved, S and all live bytes come back, and P keeps its fixed bits. |
| `CpuStack.StatusAlwaysOk` | cpu.c:1426-1458 | In every reachable state, whatever the program and the lines do, bit 5 of P is set and B is clear. |
| `CpuStack.StatusRoundTrip` | cpu.c:1433-1458 | Pushing P, with B or without, and pulling it again gives P back. |
| `CpuArith.AdcByte` | cpu.c:356-383 | One byte of decimal or binary ADC: digits and carry out hold exactly the sum of digits and carry in. |
| `CpuArith.SbcByte` | cpu.c:384-443 | One byte of decimal or binary SBC: the difference with a clear carry as a borrow. |
| `CpuArith.ChainAdds` | cpu.c:356-428 | n bytes of ADC chained through the carry: value(r) + carry*W^n = value(a) + value(b) + c, for packed BCD (W = 100) and binary (W = 256), and all result digits are digits. |
| `CpuArith.ChainSubtracts` | cpu.c:384-443 | n bytes of SBC chained: the difference, with a clear final carry standing for a borrow of W^n. |
| `CpuArith.SubtractUndoesAdd` | cpu.c:356-443 | Subtracting what was added gives the bytes back, for any length, and borrows exactly when the addition carried. |
| `CpuArith.AdcFlags` | cpu.c:414-427 | After binary ADC, V is signed overflow, C unsigned overflow, Z and N describe the byte. |
| `CpuArith.CompareThenBranch` | cpu.c:664-703 | A comparison followed by BCS, BCC, BEQ, BNE or BMI branches on the order of the operands (BMI on bit 7 of their difference). |
| `CpuArith.LogicIsBitByBit` | cpu.c:543-601 | The integer form of AND, ORA and EOR combines each bit with the bit of the same weight and no other. |
| `CpuArith.BitThenBranch` | cpu.c:705-723 | BIT followed by BEQ, BMI or BVS tests A AND M, bit 7 and bit 6. |
| `CpuArith.RolThenRor` | cpu.c:1474-1614 | ROR undoes ROL on the nine bits of carry and byte. |
| `CpuArith.RorThenRol` | cpu.c:1474-1614 | ROL undoes ROR on the nine bits of carry and byte. |
| `CpuMachine.Cpu.Exec` | cpu.c:449-2617 | Every handler, run on the object's fields and the bus object, takes the state where the value-level handler does. |
| `CpuMachine.TraceRing.Record` | cpu.c:2899-2908 | The 24-slot ring holds the last 24 recorded edges. |
| `CpuMachine.Cpu.StealCycles` | cpu.c:2972-2983 | The subtracting loop computes quotient and remainder by 61. |
| `CpuMachine.Cpu.Step` | cpu.c:2887-2985 | The whole step on the mutable machine refines the value-level step that the ledger, nesting and sweep theorems are about. |
| `BusModel.Bus.BusRead` | bus.c:709-771 | A bus read refines the memory map: value, PIA side effects, last bus value, one log entry. |
| `BusModel.Bus.BusWrite` | bus.c:780-837 | A real or dummy bus write refines the memory map; nothing else changes. |
| `BusModel.Bus.ReadPia` | bus.c:628-677 | The four PIA registers as read, the strobe cleared by a data read. |
| `BusModel.Bus.WritePia` | bus.c:679-707 | The four PIA registers as written; status bits survive; the display sees a byte only in data mode. |
| `BusMap.TranslationIsInjective` | bus.c:20-50 | On RAM addresses translation stays in bounds and never maps two addresses to one cell. |
| `BusMap.DecodeIsTheMap` | bus.c:709-771 | The decoding order equals a flat description of who owns each address. |
| `BusMap.BusIsItsHistory` | bus.c:709-837 | After any run of reads, writes and dummy writes every address reads what the history says: the last write for RAM, the image for ROM, the register for the PIA, the last bus value where nothing answers; ROM never changes. |
| `BusMap.PiaIsMirrored` | bus.c:709-837 | Addresses in $Dxxx with equal low two bits are the same register, for reads and writes. |
| `BusMap.StatusBitsAreReadOnly` | bus.c:679-707 | Over any run no write alters a status bit and no access raises the strobe. |
| `Keyboard.KeyRing.Check` | io.c:22-42 | The ring accepts a key unless it is full and reports whether it holds any. |
| `Keyboard.KeyRing.Take` | io.c:44-54 | The ring gives up its oldest key. |
| `Keyboard.ExactlyOnceInOrder` | bus.c:839-912 | Any interleaving of polls, PIA reads and writes and ticks: keys accepted = keys delivered, then the latched one, then the ring, in order; with bounce on, latches are at least 5000 cycles apart. |
| `Keyboard.ReadsTakeOneKey` | bus.c:628-646 | A delivering read returns the key at the head of the queue; any other read leaves the queue alone. |
| `Keyboard.KeyboardPort.UpdateKeyboard` | bus.c:854-912 | The polling routine on ring and PIA takes one step of that machine. |
| `Keyboard.KeyboardPort.TickBounce` | bus.c:839-852 | The lockout countdown takes one step of that machine and stops at zero. |
| `Keyboard.KeyboardPort.CpuRead` | bus.c:628-646 | A CPU read anywhere takes one step of that machine. |
| `Keyboard.KeyboardPort.CpuWrite` | bus.c:679-692 | A CPU write anywhere takes one step of that machine. |
| `DisasmText.CpuDisassemble` | disasm.c:93-204 | The whole function, through the formatter: length, bus reads, and the text - name, punctuation of the mode, operand in hex - NUL-terminated and never cut in a 64-character buffer. |
| `DisasmText.OperandShows` | disasm.c:117-200 | The operand is printed in exactly two digits for a byte and four for an address, and reads back. |
| `Disassembler.ReadLine` | disasm.c:93-204 | The bus reads, length and operand of one line against the value-level form. |
| `Disassembler.ModesAgree` | disasm.c:49-66 | The mode table names the mode the CPU's handler really uses if and only if the opcode is not $AB. |
| `Mnemonics.NamesAgree` | disasm.c:68-86 | The printed mnemonic names the operation the CPU's handler runs if and only if the opcode is neither $AB nor $EB: two independent 256-entry tables agree everywhere else. |
| `Mnemonics.UsbcIsSbc` | cpu.c:2607-2617 | $EB, printed as USBC, runs exactly what $E9 runs; $AB is printed as JAM. |
| `Disassembler.LengthsAgree` | cpu.c:2795-2795 | Printed length equals bytes consumed exactly when the opcode is neither $AB nor BRK. |
| `Disassembler.LxaIsTwoBytes` | disasm.c:60-60 | $AB prints as one byte and consumes two. |
| `Disassembler.BrkIsTwoBytes` | cpu.c:726-734 | BRK prints as one byte and consumes two. |
| `Disassembler.BranchGoesWherePrinted` | cpu.c:328-350 | A taken branch goes to the printed operand, a branch not taken to the next line. |
| `Disassembler.SweepFollowsCpu` | disasm.c:93-204 | Over a run of instructions that fall through and branches that are not taken, from side-effect-free memory, the disassembler's sweep visits exactly the PCs the CPU visits. |
| `TapeTime.SamplesSurvive` | aci.c:292-300 | Samples to cycles and back is the identity, for every n of at least 1. |
| `TapeTime.CyclesDrift` | aci.c:663-672 | Cycles to samples and back moves a pulse by at most 12 cycles; pulses under 12 cycles all become 23. |
| `TapeDetect.PcmToDurations` | aci.c:232-339 | The detector loop computes the value-level decoding, both failures included. |
| `TapeDetect.DetectorMeetsSpec` | aci.c:250-338 | The gaps found are the differences between successive transitions of the hysteresis signal, starting at the first active sample; all are at least 1 and they sum to last transition minus first active sample. |
| `TapeDetect.DetectorIgnoresNoise` | aci.c:250-338 | Samples of the same classes (above, below, between the thresholds) decode identically. |
| `TapeWav.SaveWavTape` | aci.c:633-814 | The writer emits exactly the bytes of the value-level file, or refuses. |
| `TapeWav.LoadWavTape` | aci.c:341-618 | The reader, error order included, computes the value-level load. |
| `TapeWav.ReadChunks` | aci.c:392-478 | The chunk loop computes the value-level walk. |
| `TapeWav.CountSamples` | aci.c:660-676 | The 32-bit running total of samples, wrap-around included. |
| `TapeWav.WriteSamples` | aci.c:764-797 | The nested sample loops write the rendering of the pulses and the trailer. |
| `TapeWav.WavRoundTrip` | aci.c:633-814 | For any recording within the loader's limit, load of save gives the same number of pulses, the same initial level, each pulse within 12 cycles, or 23 cycles if it was under 12. |
| `TapeWav.RoundTripExactlyWhen` | aci.c:508-515 | Save then load gives the re-encoded recording if and only if the total sample count is within the loader's limit. |
| `TapeWav.WrappedRecordingIsCut` | aci.c:660-681 | A recording whose 32-bit sample total wraps to an acceptable one loads as the pulses that end within the wrapped total. |
| `TapeWav.LongRecordingIsCut` | aci.c:675-681 | Twenty-five pulses of 0xFFFFFFFF cycles save without complaint and load as one. |
| `TapeWav.SecondPassIsExact` | aci.c:769-787 | Saving a loaded tape writes the identical file. |
| `TapeWav.LoadsWaveFile` | aci.c:385-478 | Any foreign chunks before and between, and any RIFF size, leave the loaded tape unchanged. |
| `TapePlayer.PlaybackIsPrefixSums` | aci.c:122-143 | After ticks totalling T: the index is where the prefix sums put T, the countdown is the distance to the next one, the level has flipped index times. |
| `TapePlayer.PassedCounts` | aci.c:122-143 | That index is the number of prefix sums that are at most T. |
| `TapePlayer.SplitDoesNotMatter` | aci.c:122-143 | Only the total of the ticks matters, not how it was split. |
| `TapePlayer.PlaysCorrectlyExactlyWhen` | aci.c:596-605 | Playback follows the prefix sums for every tick sequence if and only if no pulse exceeds INT32_MAX cycles. |
| `TapePlayer.LongPulseEndsAtOnce` | aci.c:601-601 | A pulse of 3 000 000 000 cycles ends on the first tick: the countdown is signed. |
| `TapeRecorder.RecordingConservesTime` | aci.c:28-63 | The recorded durations sum to last toggle minus first toggle if and only if no gap lasted 2^32 cycles. |
| `TapeRecorder.WholeTurnIsLost` | aci.c:42-43 | A gap of exactly 2^32 cycles records nothing. |
| `TapeRecorder.TimeIsConservedUpToTurns` | aci.c:28-63 | In general they sum to that minus 2^32 per whole turn of the counter between toggles, and every duration is positive. |
| `TapeRecorder.PulsesCountDistinctTimes` | aci.c:39-60 | One pulse fewer than there are distinct toggle times; toggles in the same cycle add none. |
| `AciSpec.HistoryIsToggleTimes` | aci.c:65-143 | Over any run of ticks, register reads and writes and tape loads from power-on, clock and toggle times are what the operations alone say - independent of ROM, tape and what was read - and so is the file that would be saved. |
| `AciSpec.ReadThenWriteTogglesTwice` | aci.c:65-118 | A read and then a write of one toggling register between two ticks record two toggles at one time. |
| `AciSpec.InputBitFollowsTape` | aci.c:77-97 | Over any such run, a read of $C081 returns the initial level flipped once per prefix sum that has passed since the tape was armed, or the initial level if the read rewinds it. |
| `AciCard.Aci.RecordToggle` | aci.c:28-63 | The flip-flop inverts, the toggle time is recorded, and the recorded durations stay those of the toggle times. |
| `AciCard.Aci.Tick` | aci.c:122-143 | One tick on the object is one tick of the card machine. |
| `AciCard.Aci.Read` | aci.c:65-104 | One read on the object is one read of the card machine: ROM, input bit with rewind after half a second, toggle, or zero, and every field that changes. |
| `AciCard.Aci.Write` | aci.c:106-120 | One write on the object is one write of the card machine: every register but $C081 toggles the output. |
| `AciCard.Aci.SaveTape` | aci.c:828-839 | The saved file is the rendering, from a low level, of the pulses between the toggle times. |
| `AciCard.Aci.LoadTape` | aci.c:816-827 | A tape that loads is armed at its first pulse with the counter restarted; one that does not leaves every field alone. |
| `TapeReplay.PulsesAreInstants` | aci.c:28-63 | The recorded durations are the distances between the successive instants at which the output toggled. |
| `TapeReplay.ReplayComplementsExactlyWhen` | aci.c:122-143 | For all tick sequences the replayed level is the complement of the output level at the instant playback has reached, if and only if every instant held an odd number of toggles. |
| `TapeReplay.TapeComesBack` | aci.c:28-63 | Toggles recorded, saved and loaded: every level change comes back, the k-th at most 22k cycles off its place (12k if no pulse was under 12 cycles), and the complement above holds of the loaded tape under the same condition. |
| `TapeReplay.ReplayFollowsOutput` | aci.c:122-143 | Then, T cycles after arming, the input bit is the complement of the output level at a moment at most 22 cycles per pulse from T cycles after the first toggle. |
| `TapeReplay.EvenInstantIsReplayed` | aci.c:41-62 | Two toggles in one cycle leave the output where it was, and the tape changes level there. |
| `WozLoader.LoadBinBuffer` | bus.c:91-151 | All or nothing: every address is checked before any byte is copied through the translator. |
| `WozLoader.StripComments` | bus.c:197-228 | The cleaned buffer is the text without its comments, line ends kept. |
| `WozLoader.StoreDigits` | bus.c:284-299 | Digit pairs to bytes at consecutive addresses modulo 64 KB, skipping those outside RAM. |
| `WozLoader.TakeRun` | bus.c:268-365 | One hex run with its lookahead: run command, address, or data. |
| `WozLoader.LoadWozBuffer` | bus.c:165-386 | The whole text loader: RAM, status and run address of the value-level parse. |
| `WozLoader.AddressReads` | bus.c:300-312 | The number reader gives the 16-bit value of up to four hex digits. |
| `WozPrint.ReadsDocument` | bus.c:238-367 | Any document of bytes and four-digit addresses, with blanks and comments anywhere, continuation colons behind single bytes and addresses, an optional run command and an unclosed last comment, is read as its tokens mean. |
| `WozPrint.TwoDigitsAreData` | bus.c:317-317 | Two digits before a colon are a data byte, never an address, whatever blanks and colons follow. |
| `WozBlocks.TextLoadsLikeBinary` | bus.c:165-386 | Any such document leaves RAM as the binary loader called on each of its blocks would (bytes before the first address go to address 0), and yields status and run address. |
| `WozBlocks.LinesLoadLikeBinary` | bus.c:165-386 | The same for a printer of address lines, colon-continued or not, with comments anywhere and an optional run command, glued to the last byte or not. |
| `WozBlocks.ContinuedLoadsLikeBinary` | bus.c:263-266 | The same for any list of blocks printed as an address line followed by colon lines of any width. |
| `WozBlocks.JoinedLoadsLikeBinary` | bus.c:165-386 | The same for the joined form, the run address glued to the last byte. |
| `WozBlocks.OneLineAgreesExactlyWhenItFits` | bus.c:91-151 | The text loader accepts any line; it agrees with the binary loader if and only if the block lies in RAM. |
| `WozBlocks.OverrunIsStoredInPart` | bus.c:107-122 | Two bytes across the end of a 4 KB RAM: refused as a block, half stored as text. |
| `WozBlocks.PokesStoreWhatIsRam` | bus.c:351-363 | What the text loader stores of a block that does not fit: byte i lands if its address modulo 64 KB is RAM. |
| `WozBlocks.PokesLeaveTheRest` | bus.c:351-363 | Every cell on which no byte lands stays. |
| `TermPage.ScreenIsWindowOnPage` | term_ansi.c:155-191 | After any run of characters and clears the screen is the last 24 rows of an unbounded page built by the same inputs; the cursor is inside and its cell is marked. |
| `TermPage.PageIsTypeset` | term_ansi.c:155-191 | The page shows the visible part of the text, paragraphs cut into rows of 40. |
| `TermPage.ScreenShowsText` | term_ansi.c:155-191 | After Ctrl-L and any text, the screen shows the text typeset in rows of 40 (its last 24 rows) with the cursor behind the last character. |
| `Terminal.ScrollUp` | term_ansi.c:78-87 | Every row moves up by one and a blank row enters. |
| `Terminal.Console.Write` | term_ansi.c:155-191 | Writing a character in place is one step of the screen machine. |
| `Terminal.Console.Poll` | term_ansi.c:328-357 | Clear, quit, reset and ordinary keys of the key handler. |
| `Terminal.Console.EraseHostScreen` | term_ansi.c:95-111 | The commands sent are those of the value-level erase, and the cache is marked invalid. |
| `Terminal.Console.RowNeedsRepaint` | term_ansi.c:213-235 | The comparison loop decides the value-level condition. |
| `Terminal.Console.Redraw` | term_ansi.c:237-283 | One redraw is one update of the terminal machine. |
| `TermCache.SkippedExactlyWhenRedundant` | term_ansi.c:213-235 | With a valid cache, a row is skipped if and only if its cells and its picture, blinking included, are unchanged. |
| `TermCache.HostIsErased` | term_ansi.c:95-111 | After the erase the host shows nothing of an earlier picture. |
| `TermCache.UpdateIsExact` | term_ansi.c:237-283 | An update not held back by a paste leaves the host showing the full rendering of the screen at the current blink phase, and the cache valid. |
| `TermCache.HostShowsScreen` | term_ansi.c:213-283 | The same after any run of inputs, updates, erasures and pastes, whatever was skipped on the way. |
| `PortString.StrToUL` | port_string.c:332-418 | The unsigned reader computes the value-level parse, end position included. |
| `PortString.StrToL` | port_string.c:223-330 | The signed reader computes the value-level parse, end position included. |
| `PortString.ReadDigits` | port_string.c:276-318 | The conversion loop: value saturated at the limit, all digits consumed. |
| `PortString.FormatNumber` | port_string.c:506-561 | Appends the formatted number, cut where the buffer ends, and touches nothing behind. |
| `PortString.VSnPrintf` | port_string.c:563-723 | The buffer holds the longest prefix of the full text that leaves room for the NUL, then the NUL; an empty buffer is untouched. |
| `PortNumber.PrintedNumberReadsBack` | port_string.c:506-561 | Reading a printed number gives it back for every value, width, padding and both letter cases in base 10 or 16, saturating above ULONG_MAX, and consumes the whole text. |
| `PortNumber.SignedReadsBackExactlyWhen` | port_string.c:623-650 | A %d number reads back if and only if it is a long and no blank comes between minus sign and digits. |
| `PortNumber.PaddedMinusIsLost` | port_string.c:632-635 | %5d of -5 prints a minus sign, four blanks and a 5, which reads as 0. |
| `PortNumber.EndMeetsIsoExactlyWhen` | port_string.c:223-330 | For every base, the signed reader's end position is that of section 7.20.1.4 of ISO/IEC 9899:1999 if and only if no letter beyond f that is a digit of the base follows the digits, and digits follow the prefix, the prefix was an octal zero, or nothing was skipped. |
| `PortNumber.UnsignedEndMeetsIsoExactlyWhen` | port_string.c:332-418 | The same for the unsigned reader, which takes no minus sign: behind one it agrees if and only if nothing was skipped and no digit follows. |
| `PortNumber.LetterEndsDiffer` | port_string.c:280-291 | "z" in base 36: nothing read, while ISO C reads one digit. |
| `PortNumber.PrefixEndsDiffer` | port_string.c:267-270 | "0x" in base 16: both characters skipped, while ISO C reads the zero. |
| `PortNumber.MinusEndsDiffer` | port_string.c:355-357 | "-5": nothing read by the unsigned reader. |
| `PortNumber.OverflowTestIsExact` | port_string.c:292-292 | The overflow test on the quotient is exact. |
| `PortFormat.PrintfThenStrtoul` | port_string.c:651-687 | Through the format string: %u, %x and %X with any width and zero flag read back or saturate. |
| `PortFormat.MinusIsVerbatim` | port_string.c:583-611 | The documented minus flag is not known: it prints as it stands. |

## Left out

- Expansion cards on the bus: the bus model has none attached, and the cassette card is a component of its own.
- Flat-bus mode with less than 64 KB: flat mode requires 65536 bytes of RAM, as the documentation does.
- Floating point: the double-precision conversions between cycles and samples are the exact floor(x + 1/2); samples are integers, and the threshold is scaled with them.
- TapeWav.LoadWavTape: 8-bit, 24-bit, 32-bit, float and multi-channel samples, and chunk sizes of 2^31 bytes or more (whose seek offset is cast to a signed type), are reported as not modelled.
- TapeDetect.PcmToDurations: a gap so long at so low a sample rate that its cycle count exceeds 32 bits keeps its exact value; the C conversion is undefined there.
- WozPrint.ReadsDocument: addresses of three digits, run commands before the end, lone digits and the T and X marks are read by the modelled loader but are not part of the document grammar.
- AciCard.Aci.RecordToggle: the growth of the recording buffer is a sequence that grows, so failure to allocate and the capacity doubling are not modelled.
- Allocation failure elsewhere, log messages, file handles and write errors: files are byte sequences.
- Real time: the display-ready line is an arbitrary oracle sampled at each access, the blink clock is a parameter of the redraw, the random bounce length is a parameter of the keyboard poll, and delays are absent.
- Breakpoint and watchpoint callbacks, which only observe.
- Interrupt hijacking inside an instruction, which the source does not model either.
- TapeReplay.TapeComesBack: recordings with a gap of 2^32 cycles, or whose loaded pulses exceed INT32_MAX cycles, for which `TapeRecorder.RecordingConservesTime` and `TapePlayer.PlaysCorrectlyExactlyWhen` say what fails.
- CpuStack.NestedRunsRestore: the stack page must be backed by RAM that the program does not overwrite between open and close; a program that manipulates its own return addresses is outside the statement.
- Chip-specific constants of XAA and LXA are those of the code; nothing is claimed about silicon.
- Terminal.Console.Poll: bracketed pastes and escape sequences, as in a build without them; the effect of a paste on redrawing is modelled by a flag.
- TermCache.Host: escape sequences are abstract commands (go to, text, erase), and the host shows at least 24 rows of 40 columns.
- PortString.VSnPrintf: variadic access is a typed argument list, and a field width beyond the C int is kept exact.
- PortString.StrToUL: a null text; the pointers are arrays that hold a NUL.
- `long` is 32 bits, as port.h:181-188 defines it when the platform does not.
- WozLoader.LoadWozBuffer: null pointers; the caller's optional results are always returned.
- ROM loading, the Krusader window, embedded software, the option parser, the debugger prompt and the build tools, which are plumbing.
