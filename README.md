# A verified model of a two-processor instruction-set simulator

The system has a small accumulator CPU (`archi.py`), a raster GPU that
executes drawing opcodes on an RGB frame buffer (`gpu.py`), and a two-pass
assembler (`assembler.py`). The assembler turns mnemonic source with `.CPU`
and `.GPU` sections into one byte stream. The main block of that file then
splits the stream back into a CPU program and a GPU program. A toy language
(`lang.py`) has a tokenizer and a compiler that emit assembly text.

Each piece of the source is a class whose methods change fields step by
step, so the model has two layers:

- A pure module states what each operation does, as functions on values:
  `CpuSpec`, `GpuSpec`, `AssemblerSpec`, `Demux`, `LexerSpec` and
  `CompilerSpec`. The lemmas about the system are proved against these
  functions. `Pipeline` follows the main block of `assembler.py` for two
  programs, from source text to the CPU and GPU streams.
- An imperative module is a Dafny class with the fields of the Python class:
  `CpuEngine.Cpu`, `GpuEngine.Gpu`, `AssemblerEngine.Assembler`,
  `LexerEngine.Lexer` and `CompilerEngine.Compiler`. Its methods keep the
  loops of the source. Each method is proved to leave exactly the state, and
  return exactly the result, that the pure function gives for the old state.

`Builtins` models the Python built-ins the code relies on:

- `str.split`, `str.split()`, `strip` and `join`;
- `int(s, base)` and `int(s, 0)`, `hex`, `bin` and `str`;
- `&` on negative integers;
- list indexing with negative indices.

`Isa` holds the two opcode tables.

Python integers are unbounded and are modelled as `int`. Where the source
masks (`& 0xFF`) or reduces (`% width`), the model does so explicitly.
Where the source does not mask, neither does the model: LDA loads whatever
is in memory.

Every Python exception the core can raise is an explicit outcome, except the
`OverflowError` of `draw_line` on coordinates too far apart for a float
(see "## Left out"). The outcomes are:

- `IndexError`: a read past memory or past the GPU program, or a program
  longer than memory;
- `ValueError`: the assembler's errors, the GPU's unknown opcode, and
  `int(literal, 0)` in the compiler;
- `SyntaxError`: the lexer and the compiler.

The CPU `run` loop and the GPU `load_program` loop need not terminate: JMP
can jump backwards, and CLEAR never moves PC. Both loops therefore take a
`fuel` bound and report `OutOfFuel` when it runs out.

The code behaves in these ways, some of them surprising, and the model
keeps each of them:

- **Demultiplexer.** The code tests membership of the CPU table first
  (`assembler.py:156`). So every opcode the two tables share goes to the CPU
  stream, and only RECT (0x07) reaches the GPU branch. There is no "sticky"
  mode. The GPU branches for LINE and for the one-operand opcodes cannot be
  reached: they are the `assert false` arms of `Demux.RouteGpu`, and
  `Demux.SplitNext` states that only 0x07 gets there.
- **LINE and RECT.** These GPU opcodes move PC by one only. Their operand
  bytes are then decoded as opcodes (`GpuSpec.LineOperandIsDecoded`,
  `GpuSpec.RectOperandCanSpin`).
- **CLEAR.** It does not move PC, so a running loop stays on it forever
  (`GpuSpec.ClearSpins`).
- **GPU HALT.** It also moves PC by one.
- **GPU `load_program`.** It executes the program. There is no separate
  `run`.
- **Unknown CPU opcode.** PC has already moved past it when the machine
  stops.
- **Negative operand literals.** The assembler accepts them, because only
  values above 255 are rejected. A negative CPU address indexes memory from
  the end, as Python does.
- **Failed assembly.** It returns no bytes, but labels bound before the
  error stay in the assembler's symbol table.
- **Labelled directive.** A line such as `lbl: .GPU` neither switches mode
  nor raises. It still moves the address counter, which breaks the
  counter-equals-length property for such sources
  (`AssemblerSpec.LabelledDirective`).
- **Operand counts.** Pass 2 emits one byte per operand written, whatever
  the instruction takes. `NOP 7` assembles to 00 07, and the demultiplexer
  then reads the 7 as RECT's opcode and sends it to the GPU stream
  (`AssemblerSpec.NopWithOperand`, `Pipeline.NopSevenReachesGpu`). A CPU-only
  program with the right operand counts gives an empty GPU stream
  (`Demux.CpuOnly`, `Pipeline.StoreFiveEndToEnd`).

## Model

| member | source | states |
|---|---|---|
| Isa.CodesAreTableValues | assembler.py:6-27 | The CPU opcode set {0..6, 0xFF} and the GPU set {0..7, 0xFF} are exactly the values of the assembler's two tables. |
| Isa.SharedCodes | assembler.py:156-167 | The only opcode in the GPU table and not in the CPU table is 0x07, and the CPU set is a strict subset of the GPU set. |
| Builtins.IndexOf | assembler.py:71-72 | Finds the first occurrence of a character: absent exactly when the character is absent, and no earlier occurrence. |
| Builtins.Before | assembler.py:71-72 | `split(c)[0]` is the longest prefix without `c`, and the `c` follows it when there is one. |
| Builtins.After | assembler.py:72 | `split(':', 1)`: the text is the part before the first colon, the colon and the rest. |
| Builtins.SplitOn | assembler.py:52 | `split('\n')`: at least one piece; the first is the text before the first separator; no piece contains the separator. |
| Builtins.JoinSplit | assembler.py:52 | Joining the pieces of `split(c)` with `c` gives back the text. |
| Builtins.SplitJoin | lang.py:153 | Splitting a newline-joined list of lines that contain no newline gives back the lines. |
| Builtins.TrimLeft | assembler.py:58 | Drops exactly the leading whitespace: the result is a suffix, everything removed is whitespace, and it starts with non-whitespace. |
| Builtins.TrimRight | assembler.py:58 | Drops exactly the trailing whitespace. |
| Builtins.Strip | assembler.py:58 | `strip()`: no whitespace at either end. |
| Builtins.StripTrimmed | assembler.py:58 | `strip()` leaves text without surrounding whitespace unchanged. |
| Builtins.WordLength | assembler.py:80 | The first token is the longest run of non-whitespace at the start. |
| Builtins.Words | assembler.py:80 | `split()`: every token is non-empty and contains no whitespace. |
| Builtins.WordsCons | assembler.py:80 | `split()` of a word, a space and more text is the word followed by the tokens of the rest. |
| Builtins.WordsSingle | assembler.py:80 | `split()` of a single word is that word alone. |
| Builtins.WordsNonEmpty | assembler.py:80-81 | Text that starts with non-whitespace has at least one token. |
| Builtins.ToDigits | lang.py:121 | The digits of `n` in a base: valid digits with value `n`, no leading zero unless `n` is 0. |
| Builtins.PyInt | assembler.py:43-49 | `int(s, base)`: a sign, an optional base prefix, then digits of the base; `HexRoundTrip`, `BinRoundTrip` and `StrRoundTrip` state that it reads back `hex`, `bin` and `str`. |
| Builtins.PyIntBase0 | lang.py:119 | `int(s, 0)`: the base comes from the prefix, and a decimal literal may not start with 0; `Base0RoundTrip` and `Base0LeadingZero` state its behaviour. |
| Builtins.Hex | lang.py:121 | `hex(n)`: `0x` and the digits of `ToDigits`; `HexRoundTrip` and `Base0RoundTrip` state that `int` reads it back. |
| Builtins.HexRoundTrip | assembler.py:44-45 | `int(hex(n), 16) == n`. |
| Builtins.BinRoundTrip | assembler.py:46-47 | `int(bin(n), 2) == n`. |
| Builtins.StrRoundTrip | assembler.py:48-49 | `int(str(n)) == n`. |
| Builtins.Base0RoundTrip | lang.py:119 | `int(s, 0)` reads back `hex(n)` and `str(n)`. |
| Builtins.Base0LeadingZero | lang.py:119 | `int("08")` is 8, but `int("08", 0)` raises ValueError. |
| Builtins.BitAndLowBits | archi.py:73 | Python's `x & (2^k - 1)`, taken bit by bit, is `x` mod `2^k`, for negative `x` too. |
| Builtins.LowByte | gpu.py:98-100 | `x & 0xFF` is in 0..255 and is `x` itself when `x` is already a byte. |
| Builtins.LowByteIsBitAnd | archi.py:64 | The modular form of `& 0xFF` equals the bitwise one. |
| Builtins.PyIndex | archi.py:53 | Python's list index: valid exactly for `-n <= i < n`; a negative index counts from the end. |
| CpuSpec.Fresh | archi.py:2-23 | A new CPU has 1024 zeroed cells, zeroed registers, both flags false and is not running. |
| CpuSpec.LoadProgram | archi.py:25-28 | Cell `i` takes `program[i]` below the program's length; other cells and all registers are unchanged. IndexError exactly when the program is longer than memory. |
| CpuSpec.Lda | archi.py:51-56 | A takes the operand unmasked, zero follows A, carry and everything else unchanged, PC past the operand; IndexError exactly when PC cannot be indexed. |
| CpuSpec.Add | archi.py:58-65 | A is (A + v) mod 256, carry exactly when A + v > 255, zero exactly when the new A is 0, PC past the operand, nothing else changes. |
| CpuSpec.Sub | archi.py:67-74 | A is (A - v) mod 256, carry exactly when v > A, zero recomputed, PC past the operand, nothing else changes. |
| CpuSpec.Sta | archi.py:76-80 | The addressed cell takes A; every other cell, A, B and both flags are unchanged; an unindexable address raises after PC has moved. |
| CpuSpec.Jmp | archi.py:82-85 | PC takes the operand whatever the flags; nothing else changes. |
| CpuSpec.Jz | archi.py:87-92 | PC takes the operand exactly when zero is set, otherwise moves past it. |
| CpuSpec.Execute | archi.py:36-45 | An opcode outside the table clears `running` and changes nothing else; no opcode writes B; only HALT and unknown opcodes clear `running`. |
| CpuSpec.Step | archi.py:30-34 | An iteration of `run` is `fetch` (IndexError if PC cannot be indexed) followed by `execute` with PC advanced. |
| CpuSpec.Loop | archi.py:103-105 | The `while self.running` loop, at most `fuel` iterations; `LoopKeepsB`, `LoopKeepsMemorySize`, `LoopKeepsBytes` and `LoopStopsOnlyAtHaltOrUnknown` state what it keeps and how it stops. |
| CpuSpec.RunCpu | archi.py:98-105 | `run` sets `running` and PC 0, then loops; `StoreFiveProgram` and `AddProgram` state its result for two programs. |
| CpuSpec.LoopStep | archi.py:103-105 | Helper that unfolds one iteration: while running with fuel left, the loop is one step followed by the rest of the loop, or ends crashed with the state the IndexError left. |
| CpuSpec.LoopKeepsB | archi.py:47-105 | No run ever changes B. |
| CpuSpec.LoopKeepsMemorySize | archi.py:76-80 | Memory always keeps its 1024 cells. |
| CpuSpec.StepKeepsBytes | archi.py:51-80 | If A and every cell hold bytes, they still do after one step. |
| CpuSpec.ExecuteKeepsBytes | archi.py:36-96 | Each handler keeps A and memory within bytes. |
| CpuSpec.LoopKeepsBytes | archi.py:98-105 | A and memory stay bytes through any run that starts with bytes. |
| CpuSpec.LdaDoesNotMask | archi.py:51-56 | LDA of a cell holding 300 puts 300 in A, which is not a byte. |
| CpuSpec.StepStops | archi.py:36-45 | A running machine stops in one step exactly when it fetches HALT or an opcode outside the table. |
| CpuSpec.LoopStopsOnlyAtHaltOrUnknown | archi.py:98-105 | A run that ends stopped reached, after fewer iterations than its fuel, a running state that fetched HALT or an unknown opcode, and one step from that state gives the final state. |
| CpuSpec.StoreFiveProgram | archi.py:98-105 | The bytes of `LDA 5; STA 0x20; HALT` leave A = 5, cell 0x20 = 5, PC = 5 and the machine stopped. |
| CpuSpec.AddProgram | archi.py:58-65 | `LDA v; ADD w; HALT` for bytes v, w gives A = (v + w) mod 256, carry = v + w > 255, zero = A is 0. |
| CpuSpec.UnknownOpcodeStops | archi.py:36-45 | Opcode 0x10 stops the machine with A, B, the flags and memory unchanged and PC one past it. |
| CpuEngine.Cpu.constructor | archi.py:2-23 | The new object is the fresh CPU state, with a 1024-cell memory array. |
| CpuEngine.Cpu.LoadProgram | archi.py:25-28 | The in-place loop leaves memory, and the IndexError outcome, as the load function says. |
| CpuEngine.Cpu.Fetch | archi.py:30-34 | Returns the byte at PC and advances PC, or raises IndexError with nothing changed. |
| CpuEngine.Cpu.Nop | archi.py:47-49 | Changes nothing. |
| CpuEngine.Cpu.Lda | archi.py:51-56 | Leaves the state and outcome of the LDA function. |
| CpuEngine.Cpu.Add | archi.py:58-65 | Leaves the state and outcome of the ADD function. |
| CpuEngine.Cpu.Sub | archi.py:67-74 | Leaves the state and outcome of the SUB function. |
| CpuEngine.Cpu.Sta | archi.py:76-80 | Writes the memory array in place as the STA function says. |
| CpuEngine.Cpu.Jmp | archi.py:82-85 | Leaves the state of the JMP function. |
| CpuEngine.Cpu.Jz | archi.py:87-92 | Leaves the state of the JZ function. |
| CpuEngine.Cpu.Halt | archi.py:94-96 | Clears `running` only. |
| CpuEngine.Cpu.Execute | archi.py:36-45 | Dispatch through the table leaves the state of the execute function. |
| CpuEngine.Cpu.Cycle | archi.py:104-105 | `execute(fetch())` leaves the state and outcome of one step of the loop. |
| CpuEngine.Cpu.Run | archi.py:98-105 | The `while self.running` loop, from PC 0, ends in the state and outcome of the fuel-bounded run function. |
| GpuSpec.CellOfPixel | gpu.py:97 | For an on-screen pixel, `base_index + c` is a valid cell of that pixel, holding channel `c`. |
| GpuSpec.PixelOfCell | gpu.py:97 | Every cell is one channel of exactly one on-screen pixel. |
| GpuSpec.WritePixel | gpu.py:94-100 | On screen, exactly the three cells of (x, y) take r, g, b masked to bytes; off screen nothing changes. |
| GpuSpec.WritePixelCells | gpu.py:97-100 | The three in-place writes change exactly the cells of pixel (x, y), channel by channel. |
| GpuSpec.OffScreenCells | gpu.py:96 | No cell belongs to an off-screen pixel, so the bounds test rules out every write. |
| GpuSpec.ReadPixel | gpu.py:102-111 | Off screen the result is (0, 0, 0). |
| GpuSpec.ReadPixelCells | gpu.py:102-111 | On screen the result is the colour held in the pixel's three cells. |
| GpuSpec.ReadAfterWrite | gpu.py:94-111 | Reading an on-screen pixel after writing it gives the masked colour. |
| GpuSpec.ReadOtherAfterWrite | gpu.py:94-111 | Writing a pixel leaves every other pixel reading as before. |
| GpuSpec.ClearScreen | gpu.py:113-118 | The buffer keeps its size. |
| GpuSpec.ClearScreenPixel | gpu.py:115-118 | After `clear_screen`, the three cells of each pixel hold the masked colour. |
| GpuSpec.ReadAfterClearScreen | gpu.py:113-118 | After `clear_screen`, every on-screen pixel reads as the masked colour. |
| GpuSpec.RowRun | gpu.py:160-161 | The inner loop of `draw_rectangle` colours exactly the cells of the pixels of that row run. |
| GpuSpec.Rectangle | gpu.py:157-161 | Exactly the cells of on-screen pixels with x <= px < x + w and y <= py < y + h take the masked colour; all others are unchanged. |
| GpuSpec.ReadAfterRectangle | gpu.py:157-161 | After `draw_rectangle`, a pixel inside reads as the masked colour and one outside reads as before. |
| GpuSpec.XMajor | gpu.py:171-179 | The x-major loop writes Dist + 1 pixels, starting at (x1, y1). |
| GpuSpec.YMajor | gpu.py:180-188 | The y-major loop writes Dist + 1 pixels, starting at (x1, y1). |
| GpuSpec.PlotAll | gpu.py:174 | Writing a list of pixels keeps the buffer size. |
| GpuSpec.XMajorPlot | gpu.py:173-179 | One x-major iteration writes the current pixel and continues from the next x, with y and the error as the loop updates them. |
| GpuSpec.YMajorPlot | gpu.py:182-188 | One y-major iteration writes the current pixel and continues from the next y. |
| GpuSpec.XMajorAt | gpu.py:173-179 | Pixel j of the x-major walk is pixel j - 1 of the walk from the next x, with y and the error stepped as the loop does. |
| GpuSpec.YMajorAt | gpu.py:182-188 | Pixel j of the y-major walk is pixel j - 1 of the walk from the next y. |
| GpuSpec.PlotOne | gpu.py:190 | The final write after the loop is a single `write_pixel`. |
| GpuSpec.XMajorEnd | gpu.py:171-179 | While the doubled error stays in [0, 2*dx) and matches the steps still to go, the x-major loop ends exactly at (x2, y2). |
| GpuSpec.YMajorEnd | gpu.py:180-188 | The y-major loop ends exactly at (x2, y2). |
| GpuSpec.XMajorSteps | gpu.py:173-179 | Between consecutive x-major pixels, x moves by `sx` and y by 0 or `sy`. |
| GpuSpec.YMajorSteps | gpu.py:182-188 | Between consecutive y-major pixels, y moves by `sy` and x by 0 or `sx`. |
| GpuSpec.LinePoints | gpu.py:163-190 | The pixels `draw_line` writes, in order, with the error term exact (as Python's float is while the coordinate differences stay below 2**52); `LineShape` states their number, ends and steps, and `GpuEngine.Gpu.DrawLine` is proved to write them. |
| GpuSpec.LineShape | gpu.py:163-190 | `draw_line` writes max(dx, dy) + 1 pixels from (x1, y1) to exactly (x2, y2); each step moves the major axis by one toward the end and the minor by at most one; Python's float walk agrees while both differences are below 2**52. |
| GpuSpec.Setx | gpu.py:55-58 | The cursor column becomes the operand mod width, so it is on screen; PC += 2; IndexError past the program. |
| GpuSpec.Sety | gpu.py:60-63 | The cursor row becomes the operand mod height; PC += 2; IndexError past the program. |
| GpuSpec.Setc | gpu.py:65-70 | The three operands, masked to bytes, become the colour with PC += 4; a short program raises after setting the channels it could read. |
| GpuSpec.Plot | gpu.py:72-75 | Writes the current colour at the cursor and moves PC by one. |
| GpuSpec.Clear | gpu.py:77-79 | Every cell becomes 0 and nothing else changes; PC does not move. |
| GpuSpec.Step | gpu.py:44-49 | An opcode outside the table raises ValueError with nothing changed; only HALT clears `running`; every opcode but CLEAR moves PC forward. |
| GpuSpec.Loop | gpu.py:44-49 | The loop keeps the buffer size. |
| GpuSpec.LoopStep | gpu.py:44-49 | Helper that unfolds one iteration: a step followed by the rest of the loop, or the exception it raised. |
| GpuSpec.StoppedMeansHaltOrEnd | gpu.py:44 | The loop stops normally only with `running` cleared or PC at or past the end. |
| GpuSpec.ClearSpins | gpu.py:77-79 | A running loop that reaches CLEAR runs out of fuel with PC still on CLEAR. |
| GpuSpec.StepKeepsSane | gpu.py:55-70 | A step keeps the cursor on screen and the colour a byte triple. |
| GpuSpec.LoopKeepsSane | gpu.py:44-49 | The whole loop keeps the cursor on screen and the colour bytes. |
| GpuSpec.LoadProgram | gpu.py:21-49 | `load_program` resets the registers and runs the loop; `LoadProgramSane`, `LoadEmptyProgram`, `PlotProgram`, `LineOperandIsDecoded` and `RectOperandCanSpin` state its result. |
| GpuSpec.LoadProgramSane | gpu.py:37-49 | Every state `load_program` reaches has the cursor on screen and a byte colour. |
| GpuSpec.PlotDrawsAtCursor | gpu.py:72-75 | PLOT always draws: afterwards the pixel under the cursor reads as the current colour. |
| GpuSpec.PlotProgram | gpu.py:21-75 | `SETX 10; SETY 10; SETC 1 2 3; PLOT; GHALT` stops after HALT and pixel (10, 10) reads (1, 2, 3). |
| GpuSpec.LineOperandIsDecoded | gpu.py:81-83 | After LINE its first operand byte is decoded as an opcode (here an unknown one, which raises). |
| GpuSpec.RectOperandCanSpin | gpu.py:85-87 | After RECT an operand byte 0x05 is run as CLEAR, and the loop never ends. |
| GpuSpec.UnknownOpcodeRaises | gpu.py:46-49 | An opcode outside the table raises ValueError with the state unchanged. |
| GpuSpec.LineRectSkip | gpu.py:81-87 | LINE and RECT change PC only, by exactly one. |
| GpuSpec.HaltStops | gpu.py:89-92 | HALT moves PC by one and ends the loop, changing nothing else. |
| GpuSpec.LoadEmptyProgram | gpu.py:23-44 | `load_program` starts at PC 0, cursor (0, 0), white, running, with vram untouched. |
| GpuEngine.Gpu.constructor | gpu.py:5-19 | A zeroed buffer of width * height * 3 cells with the cursor at (0, 0). |
| GpuEngine.Gpu.WritePixel | gpu.py:94-100 | The in-place writes leave the buffer of the write function. |
| GpuEngine.Gpu.ReadPixel | gpu.py:102-111 | Returns what the read function gives for the buffer. |
| GpuEngine.Gpu.ClearScreen | gpu.py:113-118 | The stride-3 loop leaves the buffer of the clear-screen function. |
| GpuEngine.Gpu.DrawRectangle | gpu.py:157-161 | The nested loops leave the buffer of the rectangle function. |
| GpuEngine.Gpu.DrawLine | gpu.py:163-190 | Bresenham's loops leave the buffer with the pixels of the line written in order. |
| GpuEngine.Gpu.LineAlongX | gpu.py:171-179 | The x-major loop, with the error doubled as an exact integer, writes the x-major pixels in order; Python's float loop agrees while both differences are below 2**52. |
| GpuEngine.Gpu.LineAlongY | gpu.py:180-188 | The y-major loop, with the error doubled as an exact integer, writes the y-major pixels in order; Python's float loop agrees while both differences are below 2**52. |
| GpuEngine.Gpu.Nop | gpu.py:51-53 | PC moves by one. |
| GpuEngine.Gpu.Setx | gpu.py:55-58 | Leaves the state and outcome of the SETX function. |
| GpuEngine.Gpu.Sety | gpu.py:60-63 | Leaves the state and outcome of the SETY function. |
| GpuEngine.Gpu.Setc | gpu.py:65-70 | Leaves the state and outcome of the SETC function, the partial writes included. |
| GpuEngine.Gpu.Plot | gpu.py:72-75 | Leaves the state of the PLOT function. |
| GpuEngine.Gpu.Clear | gpu.py:77-79 | Replaces vram with a new zeroed array; PC unchanged. |
| GpuEngine.Gpu.Line | gpu.py:81-83 | PC moves by one only. |
| GpuEngine.Gpu.Rect | gpu.py:85-87 | PC moves by one only. |
| GpuEngine.Gpu.Halt | gpu.py:89-92 | PC moves by one and `running` is cleared. |
| GpuEngine.Gpu.Step | gpu.py:45-49 | The dispatch leaves the state and outcome of the step function. |
| GpuEngine.Gpu.LoadProgram | gpu.py:21-49 | The reset and the loop end in the state and outcome of `load_program` on the old buffer. |
| GpuEngine.Gpu.Execute | gpu.py:44-49 | The `while` loop ends in the state and outcome of the fuel-bounded loop function. |
| AssemblerSpec.IsNumber | assembler.py:31-41 | `is_number` holds exactly when `parse_value` succeeds. |
| AssemblerSpec.ParseValue | assembler.py:43-49 | `parse_value`: `0x` selects base 16, `0b` base 2, else decimal; `ParseHex`, `ParseBin`, `ParseDecimal` and `ParseNegative` state what it reads, and `IsNumber` that `is_number` holds exactly when it succeeds. |
| AssemblerSpec.ParseHex | assembler.py:43-45 | `parse_value(hex(n)) == n`. |
| AssemblerSpec.ParseBin | assembler.py:46-47 | `parse_value(bin(n)) == n`. |
| AssemblerSpec.ParseDecimal | assembler.py:48-49 | `parse_value(str(n)) == n`. |
| AssemblerSpec.ParseNegative | assembler.py:48-49 | A negative decimal literal parses to its negative value. |
| AssemblerSpec.CleanLine | assembler.py:58 | The cleaned line has no `;` and no leading whitespace. |
| AssemblerSpec.CleanPlain | assembler.py:58 | A line without comment or surrounding whitespace is its own cleaned text. |
| AssemblerSpec.Directive | assembler.py:62-69 | `.CPU` or `.GPU`, in any case, sets the mode and is kept with it; any other dotted line raises "Unknown directive". |
| AssemblerSpec.Keep | assembler.py:79-83 | The kept text is appended with the current mode, and the counter grows by its token count. |
| AssemblerSpec.Statement | assembler.py:71-83 | A `label:` binds the stripped label to the counter, rebinding an earlier one; a bare label adds nothing; other text is kept and counted. |
| AssemblerSpec.Pass1Line | assembler.py:58-83 | A line raises exactly when it is an unknown directive; otherwise kept lines only grow and labels are only added or rebound. |
| AssemblerSpec.Pass1Lines | assembler.py:57-83 | Pass 1 only appends to the kept lines and only adds labels. |
| AssemblerSpec.Pass1LinesStep | assembler.py:57-83 | Helper that unfolds one line of pass 1: a line that raises ends it with the state before that line; otherwise it goes on from the state the line leaves. |
| AssemblerSpec.Operand | assembler.py:103-112 | A literal is encoded when at most 255 (negative ones included), else "too large"; a non-literal is a bound symbol's address, unchecked, or "Unknown operand". |
| AssemblerSpec.Operands | assembler.py:102-112 | A successful encoding has one byte per operand. |
| AssemblerSpec.OperandsEach | assembler.py:102-112 | The operands encode exactly when each one does, to their values in order; otherwise the error is that of the first failing operand. |
| AssemblerSpec.OperandsOk | assembler.py:102-112 | The operands encode exactly when each one does. |
| AssemblerSpec.OperandsValues | assembler.py:102-112 | A successful encoding holds each operand's value at its position. |
| AssemblerSpec.OperandsFirstError | assembler.py:102-112 | A failed encoding reports the error of the first operand that fails, all before it succeeding. |
| AssemblerSpec.Pass2Entry | assembler.py:87-112 | A directive restores its stored mode and emits nothing; other lines need the upper-cased mnemonic in the active table, emit its opcode first, then one byte per operand. |
| AssemblerSpec.Assemble | assembler.py:51-114 | Returns the symbol table pass 1 builds; a pass-1 error is the result. |
| AssemblerSpec.SymbolsPersist | assembler.py:74 | Labels from earlier calls stay bound. |
| AssemblerSpec.Pass1 | assembler.py:52-83 | Pass 1 over the lines of the source, from address 0 in CPU mode; `Pass1Lines`, `Pass1Address` and `ForwardReference` state what it keeps and binds. |
| AssemblerSpec.Pass2 | assembler.py:85-114 | Pass 2 over the kept lines, each from the mode the one before left; `Pass2Size` and `AddressIsLength` state how many bytes it emits. |
| AssemblerSpec.Pass1LinesAppend | assembler.py:57-83 | Pass 1 over two runs of lines is the first run and then, unless it raised, the second from where the first ended. |
| AssemblerSpec.Pass1LineBinds | assembler.py:71-74 | A line that binds a name binds it to the counter the line finds. |
| AssemblerSpec.Pass1LineKeeps | assembler.py:58-83 | A line that does not bind a name leaves that name's address unchanged. |
| AssemblerSpec.Pass1LinesKeep | assembler.py:57-83 | Lines none of which binds a name leave that name's address unchanged. |
| AssemblerSpec.ForwardReference | assembler.py:57-114 | In a source whose pass 1 succeeds, a label bound on any line is in the table pass 2 uses, lines before it included; as an operand it encodes to its address; with no later rebinding that address is the counter after the lines before it. |
| AssemblerSpec.Pass1Bare | assembler.py:79-83 | A one-word instruction line is kept with the current mode and moves the counter by 1. |
| AssemblerSpec.Pass1Pair | assembler.py:79-83 | A two-word instruction line is kept with the current mode and moves the counter by 2. |
| AssemblerSpec.Pass2Bare | assembler.py:87-101 | A one-word line encodes to the opcode of its upper-cased mnemonic alone. |
| AssemblerSpec.Pass2Pair | assembler.py:87-112 | A two-word line encodes to the opcode followed by the operand's value. |
| AssemblerSpec.StoreFiveAssembles | assembler.py:51-114 | `.CPU`, `LDA 5`, `STA 0x20`, `HALT` assembles to 01 05 04 20 FF and binds no label. |
| AssemblerSpec.OneInstruction | assembler.py:51-114 | A one-line program of a CPU mnemonic and one operand assembles to the opcode and the operand's value, whatever operand count the instruction has. |
| AssemblerSpec.NopWithOperand | assembler.py:87-112 | `NOP 7` assembles to 00 07: the operand count is not checked. |
| AssemblerSpec.Pass2Size | assembler.py:85-114 | Pass 2 emits one byte per token of the kept instruction lines. |
| AssemblerSpec.LabelledDirective | assembler.py:71-90 | `lbl: .GPU` neither switches mode nor raises; it moves the counter, yet pass 2 emits nothing for it. |
| AssemblerSpec.Pass1LineAddress | assembler.py:79-83 | Any other line moves the counter by as many bytes as pass 2 will emit for it. |
| AssemblerSpec.Pass1Address | assembler.py:57-83 | Over pass 1, the counter minus the bytes still to be emitted is unchanged. |
| AssemblerSpec.AddressIsLength | assembler.py:57-114 | Without labelled directives, a successful assembly is exactly as long as the final counter, so labels are byte addresses. |
| AssemblerEngine.PrefixedTwice | assembler.py:100-112 | Helper for the loop invariant of the second pass: prepending bytes in two steps is prepending them at once. |
| AssemblerEngine.Assembler.constructor | assembler.py:5-29 | The tables are in place and the symbol table is empty. |
| AssemblerEngine.Assembler.Assemble | assembler.py:51-114 | Returns the result of the assemble function and leaves its symbol table. |
| AssemblerEngine.Assembler.FirstPass | assembler.py:57-83 | The first loop leaves the kept lines, the symbols and the error of pass 1. |
| AssemblerEngine.Assembler.FirstPassLine | assembler.py:58-83 | Each iteration, its `continue`s and its raise, as the line function says. |
| AssemblerEngine.Assembler.FirstPassStatement | assembler.py:71-83 | The label binding and the kept text of a non-directive line. |
| AssemblerEngine.Assembler.FirstPassKeep | assembler.py:79-83 | Appends the text with the mode in force and moves the counter by its token count, as the keep function says. |
| AssemblerEngine.Assembler.SecondPass | assembler.py:85-114 | The second loop returns the bytes, or the error, of pass 2 from CPU mode. |
| AssemblerEngine.Assembler.SecondPassLine | assembler.py:87-112 | One iteration returns the mode and bytes of the entry function, or its error. |
| AssemblerEngine.Assembler.EncodeOperands | assembler.py:102-112 | The operand loop returns the encoding of the operands. |
| Demux.Slice | assembler.py:174 | Python's clamped slice `s[a:b]`. |
| Demux.Split | assembler.py:152-185 | The two streams of the walk from position `i`; `SplitSubsequences`, `SplitLength`, `GpuStreamNeedsRect` and `CpuOnly` state its properties, and `Demultiplex` is proved to produce it. |
| Demux.Demultiplex | assembler.py:152-185 | The `while i < len(machine_code)` loop produces exactly the two streams of the split function. |
| Demux.Route | assembler.py:153-185 | One iteration takes exactly the bytes the step at `i` routes, to the stream of its branch, and moves on by the opcode's width. |
| Demux.RouteCpu | assembler.py:156-165 | The CPU branch takes the opcode and, unless it is NOP or HALT, the next byte if there is one. |
| Demux.RouteGpu | assembler.py:167-183 | The GPU branch, reached by RECT only, takes the opcode and up to two more bytes and moves on by three. |
| Demux.TakenAllOrNothing | assembler.py:153-185 | Each step sends all of its bytes to one stream or drops them. |
| Demux.SplitSubsequences | assembler.py:152-185 | Each stream is an in-order subsequence of the machine code. |
| Demux.SplitLength | assembler.py:152-185 | The streams hold at most as many bytes as the code, exactly as many when every opcode met is in a table, fewer otherwise. |
| Demux.GpuStreamNeedsRect | assembler.py:156-171 | The GPU stream is empty exactly when the walk meets no RECT, and otherwise starts with 0x07. |
| Demux.CpuFirst | assembler.py:156-165 | Every CPU-table opcode, shared ones included, goes to the CPU stream with its operand, none for 0x00 and 0xFF. |
| Demux.RectToGpu | assembler.py:167-175 | RECT goes to the GPU stream with up to two operands. |
| Demux.SplitNext | assembler.py:167-183 | The GPU branch is reached by 0x07 only. |
| Demux.CpuOnly | assembler.py:152-185 | A walk that meets only CPU-table opcodes sends every byte to the CPU stream, in order, and none to the GPU stream. |
| Pipeline.StoreFiveEndToEnd | assembler.py:116-185 | `.CPU`, `LDA 5`, `STA 0x20`, `HALT` assembles to 01 05 04 20 FF, all of which goes to the CPU stream, leaving the GPU stream empty. |
| Pipeline.NopSevenReachesGpu | assembler.py:116-185 | `NOP 7` assembles to 00 07; the CPU stream gets 00 and the GPU stream gets 07. |
| LexerSpec.CharAt | lang.py:30-32 | `current_char` is the character at `pos`, `None` exactly past the end. |
| LexerSpec.RunEnd | lang.py:34-36 | A `while` over a character class stops at the end of the longest run of that class. |
| LexerSpec.TokenStart | lang.py:55-67 | The skipped blanks and comments end at or after the cursor and within the text. |
| LexerSpec.NextToken | lang.py:54-85 | Every token but EOF moves the cursor forward and has a value; EOF is returned at the end only, with value None; a SyntaxError names the character under the cursor. |
| LexerSpec.EofForever | lang.py:55-85 | Once EOF is returned, every later call returns EOF again. |
| LexerSpec.BlankSkipped | lang.py:56-58 | Whitespace other than newline is skipped silently. |
| LexerSpec.CommentToNewline | lang.py:64-67 | A comment stops at the newline, which is then returned as NEWLINE. |
| LexerSpec.CommentToEnd | lang.py:64-67 | A comment with no newline after it runs to EOF. |
| LexerSpec.TokenAtStart | lang.py:55-67 | Only skipped text lies between the cursor and the token. |
| LexerSpec.NumberToken | lang.py:38-45 | A NUMBER starts with a digit and is the longest run of `0-9 a-f x` there. |
| LexerSpec.WordToken | lang.py:47-51 | An identifier starts with a letter or `_`, is the longest alphanumeric-or-`_` run, and is KEYWORD exactly when it is one of the eight keywords. |
| LexerSpec.OperatorToken | lang.py:78-81 | An OPERATOR is one character of `+-*/=<>()`. |
| LexerSpec.NewlineToken | lang.py:60-62 | A NEWLINE is a newline character. |
| LexerSpec.ErrorAtUnexpected | lang.py:54-85 | The tokenizer raises exactly at a character no token starts with. |
| LexerEngine.Lexer.constructor | lang.py:20-28 | The cursor is on the first character. |
| LexerEngine.Lexer.Advance | lang.py:30-32 | One character on, `current_char` kept in step. |
| LexerEngine.Lexer.SkipWhitespace | lang.py:34-36 | The loop stops at the end of the run of blanks. |
| LexerEngine.Lexer.GetNumber | lang.py:38-45 | Returns the run of number characters and leaves the cursor after it. |
| LexerEngine.Lexer.GetIdentifier | lang.py:47-51 | Returns the run of identifier characters and leaves the cursor after it. |
| LexerEngine.Lexer.GetNextToken | lang.py:54-85 | Returns the token, or raises, and leaves the cursor as the token function says. |
| CompilerSpec.Slot | lang.py:121 | The `STA` address is 0x20 plus the table size after the definition: one more only for a new name. |
| CompilerSpec.SlotIsSize | lang.py:119-121 | The address is the size of the table after the insertion, whatever the value. |
| CompilerSpec.Var | lang.py:105-121 | `var` needs an IDENTIFIER, then the rest; an error leaves the state unchanged. |
| CompilerSpec.VarEquals | lang.py:111-121 | `var NAME` needs the `=` operator, then the number. |
| CompilerSpec.VarNumber | lang.py:115-121 | A NUMBER read by `int(literal, 0)` binds the name and emits `LDA literal`, `STA hex(slot)`. |
| CompilerSpec.Command | lang.py:123-144 | A GPU command only appends plain instruction lines; unknown identifiers are ignored. |
| CompilerSpec.CommandLinesPlain | lang.py:125-144 | No line a GPU command emits is a `.CPU` or `.GPU` directive. |
| CompilerSpec.Statement | lang.py:97-146 | A turn of the loop only appends output and only adds variables. |
| CompilerSpec.StatementSection | lang.py:98-104 | After a turn, the section is that of the last directive it emitted, if any. |
| CompilerSpec.Run | lang.py:97-153 | The loop only appends output and only adds variables. |
| CompilerSpec.RunEnds | lang.py:97-153 | A successful run ends with the HALT or GHALT of its final section, returns all lines joined, and its section follows the directives it emitted. |
| CompilerSpec.HaltedAtEof | lang.py:148-153 | At EOF the halt of the current section is appended and the lines are joined. |
| CompilerSpec.Compile | lang.py:93-153 | `compile` only appends to the output and only adds variables. |
| CompilerSpec.CompileEnds | lang.py:93-153 | A successful `compile` returns every line so far joined; the last is HALT when the last new directive is `.CPU` (or there is none and the section was CPU), else GHALT. |
| CompilerSpec.CommandsOnlyInGpuSection | lang.py:123-124 | Outside the GPU section an identifier emits nothing and reads no token. |
| CompilerSpec.FirstVariableSlot | lang.py:121 | The first variable is stored at 0x21. |
| CompilerSpec.RedefinitionReusesLastSlot | lang.py:119-121 | Redefining a variable stores to the slot of the latest new variable, not its own. |
| CompilerSpec.VarDefines | lang.py:105-121 | A successful `var` binds the name to the literal's value and emits `LDA literal` and `STA hex(0x20 + number of variables)`. |
| CompilerSpec.VarErrors | lang.py:105-117 | `var` raises the SyntaxError of the first missing part. |
| CompilerSpec.VarPlain | lang.py:105-121 | `var` emits no section directive and keeps the section. |
| CompilerEngine.Compiler.constructor | lang.py:88-91 | No variables, CPU section, no output. |
| CompilerEngine.Compiler.Compile | lang.py:93-153 | Leaves the fields, and returns the result or error, of the compile function. |
| CompilerEngine.Compiler.CompileStatement | lang.py:97-146 | A turn of the loop, as the statement function says. |
| CompilerEngine.Compiler.CompileVar | lang.py:105-121 | The `var` branch. |
| CompilerEngine.Compiler.CompileVarValue | lang.py:111-121 | The `var` branch after the name. |
| CompilerEngine.Compiler.CompileVarNumber | lang.py:115-121 | The `var` branch after `=`. |
| CompilerEngine.Compiler.CompileCommand | lang.py:123-144 | The GPU commands and the tokens they read. |

## Left out

- Rendering is not modelled: pygame and numpy, the GPU's `surface`, and `get_pygame_surface` are foreign libraries.
- `simulate_vga_signals` is not modelled: its signal values are floating point.
- Console output is not modelled: `dump_state` and the diagnostic prints of an unknown CPU opcode. Only the halt is kept.
- The `__main__` blocks are not modelled, except the demultiplexing loop of `assembler.py`. They only print results and run the engines, and they call methods that do not exist: `gpu.run`, `gpu.display` and `assembler.main`.
- The web demo is not modelled. It is a separate JavaScript re-implementation with its own DOM handling.
- Builtins.IsDigit, Builtins.IsAlpha, Builtins.IsAlnum and Builtins.Upper are ASCII only. Python's versions also accept other Unicode letters and digits. `isspace` is modelled with Python's full set of whitespace characters.
- Builtins.PyInt and Builtins.PyIntBase0 accept ASCII digits only, and no underscores between digits or surrounding whitespace. Python's `int` accepts all three, including non-ASCII decimal digits (`int("٣") == 3`), so a source such as `LDA ٣` assembles in Python but gives "Unknown operand" in the model.
- CpuEngine.Cpu.Run takes a fuel bound: `run` can loop forever, and the model reports `OutOfFuel` for a run that exceeds the bound.
- GpuEngine.Gpu.LoadProgram and GpuEngine.Gpu.Execute take a fuel bound, for the same reason: CLEAR never moves PC.
- GpuEngine.Gpu.constructor requires a width and height above zero. With zero, Python builds an empty buffer and later fails on `% width`.
- GpuEngine.Gpu.constructor initialises the colour to 0 and `PC` to 0. In Python these fields and `program` first exist in `load_program`; calling a handler earlier raises AttributeError, which is not modelled.
- GpuEngine.Gpu.DrawLine keeps the error term doubled, as an exact integer (`2 * err`), where the source uses the float `dx / 2.0`. The float value is only ever a half-integer of magnitude below max(dx, dy), so while |x2 - x1| and |y2 - y1| are both below 2**52 it is exact and every `err < 0` test agrees with the model. At 2**52 and beyond, float rounding makes Python's walk differ: `draw_line(-2**52, -2**52, 2**52 + 1, 2**52, ...)` plots only the diagonal in Python, while the model steps y one pixel later. At 2**1024 and beyond, converting `dx` or `dy` to a float raises `OverflowError`, and the model returns normally. Neither the float rounding nor the `OverflowError` is modelled.
- GpuSpec.LinePoints: equals the pixels Python's `draw_line` writes only while |x2 - x1| and |y2 - y1| are below 2**52; beyond that float rounding changes the walk (see the DrawLine line above).
- GpuSpec.LineShape: ending exactly at (x2, y2), with max(dx, dy) + 1 pixels, is proved of the exact walk; Python's float walk matches it only while both differences are below 2**52.
- GpuEngine.Gpu.LineAlongX: the x-major loop with the doubled integer error; it equals Python's float loop only while both differences are below 2**52.
- GpuEngine.Gpu.LineAlongY: the y-major loop with the doubled integer error; it equals Python's float loop only while both differences are below 2**52.
- CompilerSpec.RunEnds and CompilerSpec.CompileEnds describe successful calls only. After a raise, the fields are still stated exactly by `Compile`, but nothing is proved about their section.
- Exceptions are outcome values, not control flow. The model does not cover an exception propagating into a caller that catches it.
